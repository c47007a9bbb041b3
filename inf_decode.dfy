/**
 * The structure the recursive descent of `BinaryInfParser` reads: the same
 * reads, in the same order, with the same failures, producing a tree instead
 * of text. Which bytes are read, and where reading fails, depends on the
 * buffer alone: the string table only changes how a tree is rendered.
 */
module InfDecode {
  import opened Results
  import opened Bytes
  import opened Foreign
  import opened InfTree

  datatype Cause =
    | Truncated                               // a u8, u32 or f64 read past the end of the buffer
    | UnknownType(typeByte: nat, offset: nat)  // "Unknown property type {ptype} at 0x{pos-1:X}"
    | NonFiniteDouble                         // `fmt_double` raised: `int(v)` of a NaN or infinity

  /** An exception raised during `parse`, with the cursor value `parse` reports it at. */
  datatype ParseError = ParseError(pos: nat, cause: Cause)

  /**
   * What the bytes say about an error reported at `e.pos`: a truncated read
   * is one that fewer than eight bytes remain for (the widest read is eight); an
   * unknown type byte lies just before the reported position; a non-finite
   * double is the eight bytes just before it.
   */
  predicate Explained(data: seq<byte>, e: ParseError) {
    match e.cause
    case Truncated => e.pos + 8 > |data|
    case UnknownType(t, offset) =>
      e.pos == offset + 1 && offset < |data| && data[offset] == t && t > BlobType as nat
    case NonFiniteDouble => 8 <= e.pos <= |data| && NonFinite(data[e.pos - 8..e.pos])
  }

  /** A decoded item and the cursor just after it. */
  datatype Parsed<T> = Parsed(tree: T, next: nat)

  /** Bytes left from `pos`; 0 once a blob skip has carried the cursor past the end. */
  function Rem(data: seq<byte>, pos: nat): nat {
    if pos <= |data| then |data| - pos else 0
  }

  /** `u8()` at `pos`. */
  function U8(data: seq<byte>, pos: nat): (r: Result<byte, ParseError>)
    ensures r.Ok? <==> pos < |data|
    ensures r.Ok? ==> r.value == data[pos]
    ensures r.Err? ==> r.error == ParseError(pos, Truncated)
  {
    if pos < |data| then Ok(data[pos]) else Err(ParseError(pos, Truncated))
  }

  /** `u32()` at `pos`. */
  function U32(data: seq<byte>, pos: nat): (r: Result<nat, ParseError>)
    ensures r.Ok? <==> pos + 4 <= |data|
    ensures r.Ok? ==> r.value == U32At(data, pos) && r.value < TwoTo32
    ensures r.Err? ==> r.error == ParseError(pos, Truncated)
  {
    if pos + 4 <= |data| then Ok(U32At(data, pos)) else Err(ParseError(pos, Truncated))
  }

  /** One value: its type byte at `pos`, then the payload that type calls for. */
  function DecodeValue(data: seq<byte>, pos: nat): (r: Result<Parsed<Value>, ParseError>)
    ensures r.Err? ==> r.error.pos >= pos && Explained(data, r.error)
    ensures pos >= |data| ==> r == Err(ParseError(pos, Truncated))
    ensures pos < |data| && data[pos] > BlobType ==> r == Err(ParseError(pos + 1, UnknownType(data[pos], pos)))
    ensures r.Ok? ==> r.value.next > pos
  {
    var p := pos + 1;
    if pos >= |data| then Err(ParseError(pos, Truncated))
    else if data[pos] == StringType then
      if p + 4 > |data| then Err(ParseError(p, Truncated)) else Ok(Parsed(StrRef(U32At(data, p)), p + 4))
    else if data[pos] == DoubleType then
      if p + 8 > |data| then Err(ParseError(p, Truncated))
      else if NonFinite(data[p..p + 8]) then Err(ParseError(p + 8, NonFiniteDouble))
      else Ok(Parsed(Number(data[p..p + 8]), p + 8))
    else if data[pos] == WideStringType then
      if p + 4 > |data| then Err(ParseError(p, Truncated)) else Ok(Parsed(WStrRef(U32At(data, p)), p + 4))
    else if data[pos] == BlobType then
      if p + 4 > |data| then Err(ParseError(p, Truncated)) else Ok(Parsed(Blob(U32At(data, p)), p + 4 + U32At(data, p)))
    else
      Err(ParseError(p, UnknownType(data[pos], pos)))
  }

  function DecodeValues(data: seq<byte>, pos: nat, count: nat): (r: Result<Parsed<seq<Value>>, ParseError>)
    ensures r.Err? ==> r.error.pos >= pos && Explained(data, r.error)
    ensures r.Ok? ==> |r.value.tree| == count && r.value.next >= pos
    decreases count
  {
    if count == 0 then Ok(Parsed([], pos))
    else match DecodeValue(data, pos)
      case Err(e) => Err(e)
      case Ok(v) =>
        match DecodeValues(data, v.next, count - 1)
        case Err(e) => Err(e)
        case Ok(rest) => Ok(Parsed([v.tree] + rest.tree, rest.next))
  }

  /** `parse_property`: name index, value count, values. */
  function DecodeProperty(data: seq<byte>, pos: nat): (r: Result<Parsed<Property>, ParseError>)
    ensures r.Err? ==> r.error.pos >= pos && Explained(data, r.error)
    ensures r.Ok? ==> r.value.next >= pos + 5
  {
    if pos + 4 > |data| then Err(ParseError(pos, Truncated))
    else if pos + 4 >= |data| then Err(ParseError(pos + 4, Truncated))
    else match DecodeValues(data, pos + 5, data[pos + 4])
      case Err(e) => Err(e)
      case Ok(vals) => Ok(Parsed(Property(U32At(data, pos), vals.tree), vals.next))
  }

  function DecodeProperties(data: seq<byte>, pos: nat, count: nat): (r: Result<Parsed<seq<Property>>, ParseError>)
    ensures r.Err? ==> r.error.pos >= pos && Explained(data, r.error)
    ensures r.Ok? ==> |r.value.tree| == count && r.value.next >= pos
    decreases count
  {
    if count == 0 then Ok(Parsed([], pos))
    else match DecodeProperty(data, pos)
      case Err(e) => Err(e)
      case Ok(p) =>
        match DecodeProperties(data, p.next, count - 1)
        case Err(e) => Err(e)
        case Ok(rest) => Ok(Parsed([p.tree] + rest.tree, rest.next))
  }

  /** The shared tail of every object: `propCount` properties, then `childCount` sections. */
  function DecodeBody(data: seq<byte>, pos: nat, propCount: nat, childCount: nat): (r: Result<Parsed<Body>, ParseError>)
    ensures r.Err? ==> r.error.pos >= pos && Explained(data, r.error)
    ensures r.Ok? ==> r.value.next >= pos
    ensures r.Ok? ==> |r.value.tree.properties| == propCount && |r.value.tree.sections| == childCount
    decreases Rem(data, pos), 3, 0
  {
    match DecodeProperties(data, pos, propCount)
    case Err(e) => Err(e)
    case Ok(props) =>
      match DecodeSections(data, props.next, childCount)
      case Err(e) => Err(e)
      case Ok(secs) => Ok(Parsed(Body(props.tree, secs.tree), secs.next))
  }

  function DecodeSections(data: seq<byte>, pos: nat, count: nat): (r: Result<Parsed<seq<Section>>, ParseError>)
    ensures r.Err? ==> r.error.pos >= pos && Explained(data, r.error)
    ensures r.Ok? ==> |r.value.tree| == count && r.value.next >= pos
    decreases Rem(data, pos), 2, count
  {
    if count == 0 then Ok(Parsed([], pos))
    else match DecodeSection(data, pos)
      case Err(e) => Err(e)
      case Ok(s) =>
        match DecodeSections(data, s.next, count - 1)
        case Err(e) => Err(e)
        case Ok(rest) => Ok(Parsed([s.tree] + rest.tree, rest.next))
  }

  /** `parse_section`: a zero second word makes a container, any other is the inline property count. */
  function DecodeSection(data: seq<byte>, pos: nat): (r: Result<Parsed<Section>, ParseError>)
    ensures r.Err? ==> r.error.pos >= pos && Explained(data, r.error)
    ensures r.Ok? ==> pos + 12 <= |data| && r.value.next >= pos + 12
    decreases Rem(data, pos), 1, 0
  {
    if pos + 4 > |data| then Err(ParseError(pos, Truncated))
    else if pos + 8 > |data| then Err(ParseError(pos + 4, Truncated))
    else if pos + 12 > |data| then Err(ParseError(pos + 8, Truncated))
    else if U32At(data, pos + 4) == 0 then
      match DecodeObjects(data, pos + 12, U32At(data, pos + 8))
      case Err(e) => Err(e)
      case Ok(objs) => Ok(Parsed(Container(U32At(data, pos), objs.tree), objs.next))
    else
      match DecodeBody(data, pos + 12, U32At(data, pos + 4), U32At(data, pos + 8))
      case Err(e) => Err(e)
      case Ok(body) => Ok(Parsed(Inline(U32At(data, pos), body.tree), body.next))
  }

  function DecodeObjects(data: seq<byte>, pos: nat, count: nat): (r: Result<Parsed<seq<Object>>, ParseError>)
    ensures r.Err? ==> r.error.pos >= pos && Explained(data, r.error)
    ensures r.Ok? ==> |r.value.tree| == count && r.value.next >= pos
    decreases Rem(data, pos), 2, count
  {
    if count == 0 then Ok(Parsed([], pos))
    else match DecodeObject(data, pos)
      case Err(e) => Err(e)
      case Ok(o) =>
        match DecodeObjects(data, o.next, count - 1)
        case Err(e) => Err(e)
        case Ok(rest) => Ok(Parsed([o.tree] + rest.tree, rest.next))
  }

  /** `parse_child_object`: class index, property count, child count, body. */
  function DecodeObject(data: seq<byte>, pos: nat): (r: Result<Parsed<Object>, ParseError>)
    ensures r.Err? ==> r.error.pos >= pos && Explained(data, r.error)
    ensures r.Ok? ==> pos + 12 <= |data| && r.value.next >= pos + 12
    decreases Rem(data, pos), 1, 0
  {
    if pos + 4 > |data| then Err(ParseError(pos, Truncated))
    else if pos + 8 > |data| then Err(ParseError(pos + 4, Truncated))
    else if pos + 12 > |data| then Err(ParseError(pos + 8, Truncated))
    else
      match DecodeBody(data, pos + 12, U32At(data, pos + 4), U32At(data, pos + 8))
      case Err(e) => Err(e)
      case Ok(body) => Ok(Parsed(Object(U32At(data, pos), body.tree), body.next))
  }

  /** `parse_root_object`: property count, child count, body; no class index. */
  function DecodeRoot(data: seq<byte>, pos: nat): (r: Result<Parsed<Body>, ParseError>)
    ensures r.Err? ==> r.error.pos >= pos && Explained(data, r.error)
    ensures r.Ok? ==> pos + 8 <= |data| && r.value.next >= pos + 8
  {
    if pos + 4 > |data| then Err(ParseError(pos, Truncated))
    else if pos + 8 > |data| then Err(ParseError(pos + 4, Truncated))
    else DecodeBody(data, pos + 8, U32At(data, pos), U32At(data, pos + 4))
  }

  /**
   * The second word of a section decides its shape: 0 makes a container whose
   * third word counts its objects; any other value is the inline body's
   * property count, and the third word its section count.
   */
  lemma SectionDiscriminator(data: seq<byte>, pos: nat)
    requires DecodeSection(data, pos).Ok?
    ensures var s := DecodeSection(data, pos).value.tree;
      s.nameIndex == U32At(data, pos)
      && (s.Container? <==> U32At(data, pos + 4) == 0)
      && (s.Container? ==> |s.objects| == U32At(data, pos + 8))
      && (s.Inline? ==> |s.body.properties| == U32At(data, pos + 4) && |s.body.sections| == U32At(data, pos + 8))
  {
  }

  /**
   * A property read at `pos` takes its name index from the word at `pos` and
   * has exactly as many values as the count byte after it says.
   */
  lemma PropertyFields(data: seq<byte>, pos: nat)
    requires DecodeProperty(data, pos).Ok?
    ensures var p := DecodeProperty(data, pos).value.tree;
      pos + 5 <= |data| && p.nameIndex == U32At(data, pos) && |p.values| == data[pos + 4] as nat
  {
  }

  /** `parse` starts the root right after the 16-byte header. */
  const RootOffset: nat := 16

  // ---------------------------------------------------------------------------
  // What a successful decode yields: a storable tree, and as many bytes consumed as its encoding takes

  lemma ValueDecoded(data: seq<byte>, pos: nat)
    requires DecodeValue(data, pos).Ok?
    ensures var r := DecodeValue(data, pos).value;
      ValueWF(r.tree) && r.next == pos + ValueSize(r.tree)
  {
  }

  lemma {:induction false} ValuesDecoded(data: seq<byte>, pos: nat, count: nat)
    requires DecodeValues(data, pos, count).Ok?
    ensures var r := DecodeValues(data, pos, count).value;
      ValuesWF(r.tree) && r.next == pos + ValuesSize(r.tree)
    decreases count
  {
    if count > 0 {
      var v := DecodeValue(data, pos).value;
      ValueDecoded(data, pos);
      ValuesDecoded(data, v.next, count - 1);
      var rest := DecodeValues(data, v.next, count - 1).value;
      assert ([v.tree] + rest.tree)[1..] == rest.tree;
    }
  }

  lemma PropertyDecoded(data: seq<byte>, pos: nat)
    requires DecodeProperty(data, pos).Ok?
    ensures var r := DecodeProperty(data, pos).value;
      PropertyWF(r.tree) && r.next == pos + PropertySize(r.tree)
  {
    ValuesDecoded(data, pos + 5, data[pos + 4]);
  }

  lemma {:induction false} PropertiesDecoded(data: seq<byte>, pos: nat, count: nat)
    requires DecodeProperties(data, pos, count).Ok?
    ensures var r := DecodeProperties(data, pos, count).value;
      PropertiesWF(r.tree) && r.next == pos + PropertiesSize(r.tree)
    decreases count
  {
    if count > 0 {
      var p := DecodeProperty(data, pos).value;
      PropertyDecoded(data, pos);
      PropertiesDecoded(data, p.next, count - 1);
      var rest := DecodeProperties(data, p.next, count - 1).value;
      assert ([p.tree] + rest.tree)[1..] == rest.tree;
    }
  }

  lemma {:induction false} BodyDecoded(data: seq<byte>, pos: nat, propCount: nat, childCount: nat)
    requires propCount < TwoTo32 && childCount < TwoTo32
    requires DecodeBody(data, pos, propCount, childCount).Ok?
    ensures var r := DecodeBody(data, pos, propCount, childCount).value;
      BodyWF(r.tree) && r.next == pos + BodySize(r.tree)
    decreases Rem(data, pos), 3, 0
  {
    var props := DecodeProperties(data, pos, propCount).value;
    PropertiesDecoded(data, pos, propCount);
    SectionsDecoded(data, props.next, childCount);
  }

  lemma {:induction false} SectionsDecoded(data: seq<byte>, pos: nat, count: nat)
    requires DecodeSections(data, pos, count).Ok?
    ensures var r := DecodeSections(data, pos, count).value;
      SectionsWF(r.tree) && r.next == pos + SectionsSize(r.tree)
    decreases Rem(data, pos), 2, count
  {
    if count > 0 {
      var s := DecodeSection(data, pos).value;
      SectionDecoded(data, pos);
      SectionsDecoded(data, s.next, count - 1);
      var rest := DecodeSections(data, s.next, count - 1).value;
      var all := [s.tree] + rest.tree;
      assert all[1..] == rest.tree;
      assert forall i :: 1 <= i < |all| ==> all[i] == rest.tree[i - 1];
    }
  }

  lemma {:induction false} SectionDecoded(data: seq<byte>, pos: nat)
    requires DecodeSection(data, pos).Ok?
    ensures var r := DecodeSection(data, pos).value;
      SectionWF(r.tree) && r.next == pos + SectionSize(r.tree)
    decreases Rem(data, pos), 1, 0
  {
    if U32At(data, pos + 4) == 0 {
      ObjectsDecoded(data, pos + 12, U32At(data, pos + 8));
    } else {
      BodyDecoded(data, pos + 12, U32At(data, pos + 4), U32At(data, pos + 8));
    }
  }

  lemma {:induction false} ObjectsDecoded(data: seq<byte>, pos: nat, count: nat)
    requires DecodeObjects(data, pos, count).Ok?
    ensures var r := DecodeObjects(data, pos, count).value;
      ObjectsWF(r.tree) && r.next == pos + ObjectsSize(r.tree)
    decreases Rem(data, pos), 2, count
  {
    if count > 0 {
      var o := DecodeObject(data, pos).value;
      ObjectDecoded(data, pos);
      ObjectsDecoded(data, o.next, count - 1);
      var rest := DecodeObjects(data, o.next, count - 1).value;
      var all := [o.tree] + rest.tree;
      assert all[1..] == rest.tree;
      assert forall i :: 1 <= i < |all| ==> all[i] == rest.tree[i - 1];
    }
  }

  lemma {:induction false} ObjectDecoded(data: seq<byte>, pos: nat)
    requires DecodeObject(data, pos).Ok?
    ensures var r := DecodeObject(data, pos).value;
      ObjectWF(r.tree) && r.next == pos + ObjectSize(r.tree)
    decreases Rem(data, pos), 1, 0
  {
    BodyDecoded(data, pos + 12, U32At(data, pos + 4), U32At(data, pos + 8));
  }

  /** A successful parse of the root yields a storable body and consumes as many bytes as its encoding takes. */
  lemma RootDecoded(data: seq<byte>, pos: nat)
    requires DecodeRoot(data, pos).Ok?
    ensures var r := DecodeRoot(data, pos).value;
      BodyWF(r.tree) && r.next == pos + 8 + BodySize(r.tree)
  {
    BodyDecoded(data, pos + 8, U32At(data, pos), U32At(data, pos + 4));
  }

  // ---------------------------------------------------------------------------
  // Reading lists item by item

  /**
   * The loop over values reads them one at a time: after `i` of them, the next
   * one read either extends the list or its failure is that of the whole list.
   */
  lemma {:induction false} ValuesStep(data: seq<byte>, pos: nat, i: nat, count: nat, items: seq<Value>, q: nat)
    requires i < count && DecodeValues(data, pos, i) == Ok(Parsed(items, q))
    ensures DecodeValue(data, q).Err? ==> DecodeValues(data, pos, count) == Err(DecodeValue(data, q).error)
    ensures DecodeValue(data, q).Ok? ==>
      DecodeValues(data, pos, i + 1) == Ok(Parsed(items + [DecodeValue(data, q).value.tree], DecodeValue(data, q).value.next))
    decreases i
  {
    if i > 0 {
      var first := DecodeValue(data, pos).value;
      var rest := DecodeValues(data, first.next, i - 1).value;
      ValuesStep(data, first.next, i - 1, count - 1, rest.tree, q);
      if DecodeValue(data, q).Ok? {
        assert [first.tree] + (rest.tree + [DecodeValue(data, q).value.tree]) == items + [DecodeValue(data, q).value.tree];
      }
    } else if DecodeValue(data, q).Ok? {
      var next := DecodeValue(data, q).value;
      assert DecodeValues(data, next.next, 0) == Ok(Parsed([], next.next));
      assert items + [next.tree] == [next.tree] + [];
    }
  }

  /**
   * The loop over properties reads them one at a time: after `i` of them, the next
   * one read either extends the list or its failure is that of the whole list.
   */
  lemma {:induction false} PropertiesStep(data: seq<byte>, pos: nat, i: nat, count: nat, items: seq<Property>, q: nat)
    requires i < count && DecodeProperties(data, pos, i) == Ok(Parsed(items, q))
    ensures DecodeProperty(data, q).Err? ==> DecodeProperties(data, pos, count) == Err(DecodeProperty(data, q).error)
    ensures DecodeProperty(data, q).Ok? ==>
      DecodeProperties(data, pos, i + 1) == Ok(Parsed(items + [DecodeProperty(data, q).value.tree], DecodeProperty(data, q).value.next))
    decreases i
  {
    if i > 0 {
      var first := DecodeProperty(data, pos).value;
      var rest := DecodeProperties(data, first.next, i - 1).value;
      PropertiesStep(data, first.next, i - 1, count - 1, rest.tree, q);
      if DecodeProperty(data, q).Ok? {
        assert [first.tree] + (rest.tree + [DecodeProperty(data, q).value.tree]) == items + [DecodeProperty(data, q).value.tree];
      }
    } else if DecodeProperty(data, q).Ok? {
      var next := DecodeProperty(data, q).value;
      assert DecodeProperties(data, next.next, 0) == Ok(Parsed([], next.next));
      assert items + [next.tree] == [next.tree] + [];
    }
  }

  /**
   * The loop over sections reads them one at a time: after `i` of them, the next
   * one read either extends the list or its failure is that of the whole list.
   */
  lemma {:induction false} SectionsStep(data: seq<byte>, pos: nat, i: nat, count: nat, items: seq<Section>, q: nat)
    requires i < count && DecodeSections(data, pos, i) == Ok(Parsed(items, q))
    ensures DecodeSection(data, q).Err? ==> DecodeSections(data, pos, count) == Err(DecodeSection(data, q).error)
    ensures DecodeSection(data, q).Ok? ==>
      DecodeSections(data, pos, i + 1) == Ok(Parsed(items + [DecodeSection(data, q).value.tree], DecodeSection(data, q).value.next))
    decreases i
  {
    if i > 0 {
      var first := DecodeSection(data, pos).value;
      var rest := DecodeSections(data, first.next, i - 1).value;
      SectionsStep(data, first.next, i - 1, count - 1, rest.tree, q);
      if DecodeSection(data, q).Ok? {
        assert [first.tree] + (rest.tree + [DecodeSection(data, q).value.tree]) == items + [DecodeSection(data, q).value.tree];
      }
    } else if DecodeSection(data, q).Ok? {
      var next := DecodeSection(data, q).value;
      assert DecodeSections(data, next.next, 0) == Ok(Parsed([], next.next));
      assert items + [next.tree] == [next.tree] + [];
    }
  }

  /**
   * The loop over objects reads them one at a time: after `i` of them, the next
   * one read either extends the list or its failure is that of the whole list.
   */
  lemma {:induction false} ObjectsStep(data: seq<byte>, pos: nat, i: nat, count: nat, items: seq<Object>, q: nat)
    requires i < count && DecodeObjects(data, pos, i) == Ok(Parsed(items, q))
    ensures DecodeObject(data, q).Err? ==> DecodeObjects(data, pos, count) == Err(DecodeObject(data, q).error)
    ensures DecodeObject(data, q).Ok? ==>
      DecodeObjects(data, pos, i + 1) == Ok(Parsed(items + [DecodeObject(data, q).value.tree], DecodeObject(data, q).value.next))
    decreases i
  {
    if i > 0 {
      var first := DecodeObject(data, pos).value;
      var rest := DecodeObjects(data, first.next, i - 1).value;
      ObjectsStep(data, first.next, i - 1, count - 1, rest.tree, q);
      if DecodeObject(data, q).Ok? {
        assert [first.tree] + (rest.tree + [DecodeObject(data, q).value.tree]) == items + [DecodeObject(data, q).value.tree];
      }
    } else if DecodeObject(data, q).Ok? {
      var next := DecodeObject(data, q).value;
      assert DecodeObjects(data, next.next, 0) == Ok(Parsed([], next.next));
      assert items + [next.tree] == [next.tree] + [];
    }
  }

  // ---------------------------------------------------------------------------
  // Decoding inverts the reference encoder.
  //
  // The proofs go through a field-by-field description of where the encoder
  // puts each part of a tree (the `...Placed` predicates), which keeps every
  // proof step local to one node.

  /** A u32 field holding `n` at `pos`. */
  predicate U32Is(data: seq<byte>, pos: nat, n: nat) {
    pos + 4 <= |data| && U32At(data, pos) == n
  }

  /** A value's type byte at `pos`, then its payload field. */
  predicate ValuePlaced(data: seq<byte>, pos: nat, v: Value) {
    pos < |data| &&
    match v
    case StrRef(i) => data[pos] == StringType && U32Is(data, pos + 1, i)
    case Number(bits) => data[pos] == DoubleType && PlacedAt(data, pos + 1, bits)
    case WStrRef(i) => data[pos] == WideStringType && U32Is(data, pos + 1, i)
    case Blob(n) => data[pos] == BlobType && U32Is(data, pos + 1, n)
  }

  predicate ValuesPlaced(data: seq<byte>, pos: nat, vs: seq<Value>)
    decreases |vs|
  {
    |vs| == 0 || (ValuePlaced(data, pos, vs[0]) && ValuesPlaced(data, pos + ValueSize(vs[0]), vs[1..]))
  }

  predicate PropertyPlaced(data: seq<byte>, pos: nat, p: Property) {
    U32Is(data, pos, p.nameIndex) && pos + 4 < |data| && data[pos + 4] == |p.values|
    && ValuesPlaced(data, pos + 5, p.values)
  }

  predicate PropertiesPlaced(data: seq<byte>, pos: nat, ps: seq<Property>)
    decreases |ps|
  {
    |ps| == 0 || (PropertyPlaced(data, pos, ps[0]) && PropertiesPlaced(data, pos + PropertySize(ps[0]), ps[1..]))
  }

  predicate BodyPlaced(data: seq<byte>, pos: nat, b: Body)
    decreases b, 2
  {
    PropertiesPlaced(data, pos, b.properties)
    && SectionsPlaced(data, pos + PropertiesSize(b.properties), b.sections)
  }

  predicate SectionsPlaced(data: seq<byte>, pos: nat, ss: seq<Section>)
    decreases ss, 1
  {
    |ss| == 0 || (SectionPlaced(data, pos, ss[0]) && SectionsPlaced(data, pos + SectionSize(ss[0]), ss[1..]))
  }

  predicate SectionPlaced(data: seq<byte>, pos: nat, s: Section)
    decreases s, 0
  {
    match s
    case Container(n, objs) =>
      U32Is(data, pos, n) && U32Is(data, pos + 4, 0) && U32Is(data, pos + 8, |objs|)
      && ObjectsPlaced(data, pos + 12, objs)
    case Inline(n, body) =>
      U32Is(data, pos, n) && U32Is(data, pos + 4, |body.properties|) && U32Is(data, pos + 8, |body.sections|)
      && BodyPlaced(data, pos + 12, body)
  }

  predicate ObjectsPlaced(data: seq<byte>, pos: nat, os: seq<Object>)
    decreases os, 1
  {
    |os| == 0 || (ObjectPlaced(data, pos, os[0]) && ObjectsPlaced(data, pos + ObjectSize(os[0]), os[1..]))
  }

  predicate ObjectPlaced(data: seq<byte>, pos: nat, o: Object)
    decreases o, 0
  {
    U32Is(data, pos, o.classIndex) && U32Is(data, pos + 4, |o.body.properties|)
    && U32Is(data, pos + 8, |o.body.sections|) && BodyPlaced(data, pos + 12, o.body)
  }

  // The well-formedness of a list is that of its head and of its tail.

  lemma ValuesWFTail(vs: seq<Value>)
    requires |vs| > 0 && ValuesWF(vs)
    ensures ValueWF(vs[0]) && ValuesWF(vs[1..])
  {
    assert forall i :: 0 <= i < |vs| - 1 ==> vs[1..][i] == vs[i + 1];
  }

  lemma PropertiesWFTail(ps: seq<Property>)
    requires |ps| > 0 && PropertiesWF(ps)
    ensures PropertyWF(ps[0]) && PropertiesWF(ps[1..])
  {
    assert forall i :: 0 <= i < |ps| - 1 ==> ps[1..][i] == ps[i + 1];
  }

  lemma SectionsWFTail(ss: seq<Section>)
    requires |ss| > 0 && SectionsWF(ss)
    ensures SectionWF(ss[0]) && SectionsWF(ss[1..])
  {
    assert forall i :: 0 <= i < |ss| - 1 ==> ss[1..][i] == ss[i + 1];
  }

  lemma ObjectsWFTail(os: seq<Object>)
    requires |os| > 0 && ObjectsWF(os)
    ensures ObjectWF(os[0]) && ObjectsWF(os[1..])
  {
    assert forall i :: 0 <= i < |os| - 1 ==> os[1..][i] == os[i + 1];
  }

  // An encoding placed in the buffer is placed field by field.

  lemma ValuePlacedOf(data: seq<byte>, pos: nat, v: Value)
    requires ValueWF(v) && PlacedAt(data, pos, EncodeValue(v))
    ensures ValuePlaced(data, pos, v)
  {
    match v
    case StrRef(i) =>
      PlacedSplit(data, pos, [StringType], LE(i, 4));
      PlacedIndex(data, pos, [StringType], 0, 0);
      PlacedU32(data, pos + 1, i);
    case Number(bits) =>
      PlacedSplit(data, pos, [DoubleType], bits);
      PlacedIndex(data, pos, [DoubleType], 0, 0);
    case WStrRef(i) =>
      PlacedSplit(data, pos, [WideStringType], LE(i, 4));
      PlacedIndex(data, pos, [WideStringType], 0, 0);
      PlacedU32(data, pos + 1, i);
    case Blob(n) =>
      PlacedSplit(data, pos, [BlobType] + LE(n, 4), Zeros(n));
      PlacedSplit(data, pos, [BlobType], LE(n, 4));
      PlacedIndex(data, pos, [BlobType], 0, 0);
      PlacedU32(data, pos + 1, n);
  }

  lemma {:induction false} ValuesPlacedOf(data: seq<byte>, pos: nat, vs: seq<Value>)
    requires ValuesWF(vs) && PlacedAt(data, pos, EncodeValues(vs))
    ensures ValuesPlaced(data, pos, vs)
    decreases |vs|
  {
    if |vs| > 0 {
      ValuesWFTail(vs);
      PlacedSplit(data, pos, EncodeValue(vs[0]), EncodeValues(vs[1..]));
      ValuePlacedOf(data, pos, vs[0]);
      ValuesPlacedOf(data, pos + ValueSize(vs[0]), vs[1..]);
    }
  }

  /** A u32 field, a count byte and the rest, as every property starts. */
  lemma PlacedNameCount(data: seq<byte>, pos: nat, a: nat, c: nat, rest: seq<byte>)
    requires a < TwoTo32 && c < 256
    requires PlacedAt(data, pos, LE(a, 4) + LE(c, 1) + rest)
    ensures U32Is(data, pos, a) && pos + 4 < |data| && data[pos + 4] == c
    ensures PlacedAt(data, pos + 5, rest)
  {
    PlacedSplit(data, pos, LE(a, 4) + LE(c, 1), rest);
    PlacedSplit(data, pos, LE(a, 4), LE(c, 1));
    PlacedU32(data, pos, a);
    assert LE(c, 1) == [c];
    PlacedIndex(data, pos + 4, LE(c, 1), 0, 0);
  }

  lemma PropertyPlacedOf(data: seq<byte>, pos: nat, p: Property)
    requires PropertyWF(p) && PlacedAt(data, pos, EncodeProperty(p))
    ensures PropertyPlaced(data, pos, p)
  {
    PlacedNameCount(data, pos, p.nameIndex, |p.values|, EncodeValues(p.values));
    ValuesPlacedOf(data, pos + 5, p.values);
  }

  lemma {:induction false} PropertiesPlacedOf(data: seq<byte>, pos: nat, ps: seq<Property>)
    requires PropertiesWF(ps) && PlacedAt(data, pos, EncodeProperties(ps))
    ensures PropertiesPlaced(data, pos, ps)
    decreases |ps|
  {
    if |ps| > 0 {
      PropertiesWFTail(ps);
      PlacedSplit(data, pos, EncodeProperty(ps[0]), EncodeProperties(ps[1..]));
      PropertyPlacedOf(data, pos, ps[0]);
      PropertiesPlacedOf(data, pos + PropertySize(ps[0]), ps[1..]);
    }
  }

  lemma {:induction false} BodyPlacedOf(data: seq<byte>, pos: nat, b: Body)
    requires BodyWF(b) && PlacedAt(data, pos, EncodeBody(b))
    ensures BodyPlaced(data, pos, b)
    decreases b, 2
  {
    PlacedSplit(data, pos, EncodeProperties(b.properties), EncodeSections(b.sections));
    PropertiesPlacedOf(data, pos, b.properties);
    SectionsPlacedOf(data, pos + PropertiesSize(b.properties), b.sections);
  }

  lemma {:induction false} SectionsPlacedOf(data: seq<byte>, pos: nat, ss: seq<Section>)
    requires SectionsWF(ss) && PlacedAt(data, pos, EncodeSections(ss))
    ensures SectionsPlaced(data, pos, ss)
    decreases ss, 1
  {
    if |ss| > 0 {
      SectionsWFTail(ss);
      PlacedSplit(data, pos, EncodeSection(ss[0]), EncodeSections(ss[1..]));
      SectionPlacedOf(data, pos, ss[0]);
      SectionsPlacedOf(data, pos + SectionSize(ss[0]), ss[1..]);
    }
  }

  /** Three u32 fields and the rest, as every section and child object starts. */
  lemma PlacedHeader(data: seq<byte>, pos: nat, a: nat, b: nat, c: nat, rest: seq<byte>)
    requires a < TwoTo32 && b < TwoTo32 && c < TwoTo32
    requires PlacedAt(data, pos, LE(a, 4) + LE(b, 4) + LE(c, 4) + rest)
    ensures U32Is(data, pos, a) && U32Is(data, pos + 4, b) && U32Is(data, pos + 8, c)
    ensures PlacedAt(data, pos + 12, rest)
  {
    PlacedSplit(data, pos, LE(a, 4) + LE(b, 4) + LE(c, 4), rest);
    PlacedSplit(data, pos, LE(a, 4) + LE(b, 4), LE(c, 4));
    PlacedSplit(data, pos, LE(a, 4), LE(b, 4));
    PlacedU32(data, pos, a);
    PlacedU32(data, pos + 4, b);
    PlacedU32(data, pos + 8, c);
  }

  /** Two u32 fields and the rest, as the root starts. */
  lemma PlacedCounts(data: seq<byte>, pos: nat, a: nat, b: nat, rest: seq<byte>)
    requires a < TwoTo32 && b < TwoTo32
    requires PlacedAt(data, pos, LE(a, 4) + LE(b, 4) + rest)
    ensures U32Is(data, pos, a) && U32Is(data, pos + 4, b)
    ensures PlacedAt(data, pos + 8, rest)
  {
    PlacedSplit(data, pos, LE(a, 4) + LE(b, 4), rest);
    PlacedSplit(data, pos, LE(a, 4), LE(b, 4));
    PlacedU32(data, pos, a);
    PlacedU32(data, pos + 4, b);
  }

  lemma {:induction false} SectionPlacedOf(data: seq<byte>, pos: nat, s: Section)
    requires SectionWF(s) && PlacedAt(data, pos, EncodeSection(s))
    ensures SectionPlaced(data, pos, s)
    decreases s, 0
  {
    match s
    case Container(n, objs) =>
      PlacedHeader(data, pos, n, 0, |objs|, EncodeObjects(objs));
      ObjectsPlacedOf(data, pos + 12, objs);
    case Inline(n, body) =>
      PlacedHeader(data, pos, n, |body.properties|, |body.sections|, EncodeBody(body));
      BodyPlacedOf(data, pos + 12, body);
  }

  lemma {:induction false} ObjectsPlacedOf(data: seq<byte>, pos: nat, os: seq<Object>)
    requires ObjectsWF(os) && PlacedAt(data, pos, EncodeObjects(os))
    ensures ObjectsPlaced(data, pos, os)
    decreases os, 1
  {
    if |os| > 0 {
      ObjectsWFTail(os);
      PlacedSplit(data, pos, EncodeObject(os[0]), EncodeObjects(os[1..]));
      ObjectPlacedOf(data, pos, os[0]);
      ObjectsPlacedOf(data, pos + ObjectSize(os[0]), os[1..]);
    }
  }

  lemma {:induction false} ObjectPlacedOf(data: seq<byte>, pos: nat, o: Object)
    requires ObjectWF(o) && PlacedAt(data, pos, EncodeObject(o))
    ensures ObjectPlaced(data, pos, o)
    decreases o, 0
  {
    PlacedHeader(data, pos, o.classIndex, |o.body.properties|, |o.body.sections|, EncodeBody(o.body));
    BodyPlacedOf(data, pos + 12, o.body);
  }

  // How each decoder step assembles what its sub-steps read.

  lemma ValuesJoin(data: seq<byte>, pos: nat, vs: seq<Value>)
    requires |vs| > 0
    ensures DecodeValue(data, pos) == Ok(Parsed(vs[0], pos + ValueSize(vs[0])))
      && DecodeValues(data, pos + ValueSize(vs[0]), |vs[1..]|)
         == Ok(Parsed(vs[1..], pos + ValueSize(vs[0]) + ValuesSize(vs[1..])))
      ==> DecodeValues(data, pos, |vs|) == Ok(Parsed(vs, pos + ValuesSize(vs)))
  {
    assert [vs[0]] + vs[1..] == vs;
  }

  lemma PropertiesJoin(data: seq<byte>, pos: nat, ps: seq<Property>)
    requires |ps| > 0
    ensures DecodeProperty(data, pos) == Ok(Parsed(ps[0], pos + PropertySize(ps[0])))
      && DecodeProperties(data, pos + PropertySize(ps[0]), |ps[1..]|)
         == Ok(Parsed(ps[1..], pos + PropertySize(ps[0]) + PropertiesSize(ps[1..])))
      ==> DecodeProperties(data, pos, |ps|) == Ok(Parsed(ps, pos + PropertiesSize(ps)))
  {
    assert [ps[0]] + ps[1..] == ps;
  }

  lemma SectionsJoin(data: seq<byte>, pos: nat, ss: seq<Section>)
    requires |ss| > 0
    ensures DecodeSection(data, pos) == Ok(Parsed(ss[0], pos + SectionSize(ss[0])))
      && DecodeSections(data, pos + SectionSize(ss[0]), |ss[1..]|)
         == Ok(Parsed(ss[1..], pos + SectionSize(ss[0]) + SectionsSize(ss[1..])))
      ==> DecodeSections(data, pos, |ss|) == Ok(Parsed(ss, pos + SectionsSize(ss)))
  {
    assert [ss[0]] + ss[1..] == ss;
  }

  lemma ObjectsJoin(data: seq<byte>, pos: nat, os: seq<Object>)
    requires |os| > 0
    ensures DecodeObject(data, pos) == Ok(Parsed(os[0], pos + ObjectSize(os[0])))
      && DecodeObjects(data, pos + ObjectSize(os[0]), |os[1..]|)
         == Ok(Parsed(os[1..], pos + ObjectSize(os[0]) + ObjectsSize(os[1..])))
      ==> DecodeObjects(data, pos, |os|) == Ok(Parsed(os, pos + ObjectsSize(os)))
  {
    assert [os[0]] + os[1..] == os;
  }

  lemma BodyJoin(data: seq<byte>, pos: nat, b: Body)
    ensures DecodeProperties(data, pos, |b.properties|)
         == Ok(Parsed(b.properties, pos + PropertiesSize(b.properties)))
      && DecodeSections(data, pos + PropertiesSize(b.properties), |b.sections|)
         == Ok(Parsed(b.sections, pos + PropertiesSize(b.properties) + SectionsSize(b.sections)))
      ==> DecodeBody(data, pos, |b.properties|, |b.sections|) == Ok(Parsed(b, pos + BodySize(b)))
  {
  }

  lemma ContainerJoin(data: seq<byte>, pos: nat, n: nat, objs: seq<Object>)
    ensures U32Is(data, pos, n) && U32Is(data, pos + 4, 0) && U32Is(data, pos + 8, |objs|)
      && DecodeObjects(data, pos + 12, |objs|) == Ok(Parsed(objs, pos + 12 + ObjectsSize(objs)))
      ==> DecodeSection(data, pos) == Ok(Parsed(Container(n, objs), pos + SectionSize(Container(n, objs))))
  {
  }

  lemma InlineJoin(data: seq<byte>, pos: nat, n: nat, body: Body)
    requires |body.properties| > 0
    ensures U32Is(data, pos, n) && U32Is(data, pos + 4, |body.properties|) && U32Is(data, pos + 8, |body.sections|)
      && DecodeBody(data, pos + 12, |body.properties|, |body.sections|)
         == Ok(Parsed(body, pos + 12 + BodySize(body)))
      ==> DecodeSection(data, pos) == Ok(Parsed(Inline(n, body), pos + SectionSize(Inline(n, body))))
  {
  }

  lemma ObjectJoin(data: seq<byte>, pos: nat, o: Object)
    ensures U32Is(data, pos, o.classIndex) && U32Is(data, pos + 4, |o.body.properties|)
      && U32Is(data, pos + 8, |o.body.sections|)
      && DecodeBody(data, pos + 12, |o.body.properties|, |o.body.sections|)
         == Ok(Parsed(o.body, pos + 12 + BodySize(o.body)))
      ==> DecodeObject(data, pos) == Ok(Parsed(o, pos + ObjectSize(o)))
  {
  }

  // Round trips over the field-by-field layout.

  /** A value laid out field by field reads back as itself, and the cursor stops right after it. */
  lemma ValuePlacedRoundTrip(data: seq<byte>, pos: nat, v: Value)
    requires ValueWF(v) && ValuePlaced(data, pos, v)
    ensures DecodeValue(data, pos) == Ok(Parsed(v, pos + ValueSize(v)))
  {
    if v.Number? {
      PlacedSlice(data, pos + 1, v.bits);
    }
  }

  lemma {:induction false} ValuesPlacedRoundTrip(data: seq<byte>, pos: nat, vs: seq<Value>)
    requires ValuesWF(vs) && ValuesPlaced(data, pos, vs)
    ensures DecodeValues(data, pos, |vs|) == Ok(Parsed(vs, pos + ValuesSize(vs)))
    decreases |vs|
  {
    if |vs| > 0 {
      ValuesWFTail(vs);
      ValuePlacedRoundTrip(data, pos, vs[0]);
      ValuesPlacedRoundTrip(data, pos + ValueSize(vs[0]), vs[1..]);
      ValuesJoin(data, pos, vs);
    }
  }

  lemma PropertyPlacedRoundTrip(data: seq<byte>, pos: nat, p: Property)
    requires PropertyWF(p) && PropertyPlaced(data, pos, p)
    ensures DecodeProperty(data, pos) == Ok(Parsed(p, pos + PropertySize(p)))
  {
    ValuesPlacedRoundTrip(data, pos + 5, p.values);
  }

  lemma {:induction false} PropertiesPlacedRoundTrip(data: seq<byte>, pos: nat, ps: seq<Property>)
    requires PropertiesWF(ps) && PropertiesPlaced(data, pos, ps)
    ensures DecodeProperties(data, pos, |ps|) == Ok(Parsed(ps, pos + PropertiesSize(ps)))
    decreases |ps|
  {
    if |ps| > 0 {
      PropertiesWFTail(ps);
      PropertyPlacedRoundTrip(data, pos, ps[0]);
      PropertiesPlacedRoundTrip(data, pos + PropertySize(ps[0]), ps[1..]);
      PropertiesJoin(data, pos, ps);
    }
  }

  lemma {:induction false} BodyPlacedRoundTrip(data: seq<byte>, pos: nat, b: Body)
    requires BodyWF(b) && BodyPlaced(data, pos, b)
    ensures DecodeBody(data, pos, |b.properties|, |b.sections|) == Ok(Parsed(b, pos + BodySize(b)))
    decreases b, 2
  {
    PropertiesPlacedRoundTrip(data, pos, b.properties);
    SectionsPlacedRoundTrip(data, pos + PropertiesSize(b.properties), b.sections);
    BodyJoin(data, pos, b);
  }

  lemma {:induction false} SectionsPlacedRoundTrip(data: seq<byte>, pos: nat, ss: seq<Section>)
    requires SectionsWF(ss) && SectionsPlaced(data, pos, ss)
    ensures DecodeSections(data, pos, |ss|) == Ok(Parsed(ss, pos + SectionsSize(ss)))
    decreases ss, 1
  {
    if |ss| > 0 {
      SectionsWFTail(ss);
      SectionPlacedRoundTrip(data, pos, ss[0]);
      SectionsPlacedRoundTrip(data, pos + SectionSize(ss[0]), ss[1..]);
      SectionsJoin(data, pos, ss);
    }
  }

  lemma {:induction false} SectionPlacedRoundTrip(data: seq<byte>, pos: nat, s: Section)
    requires SectionWF(s) && SectionPlaced(data, pos, s)
    ensures DecodeSection(data, pos) == Ok(Parsed(s, pos + SectionSize(s)))
    decreases s, 0
  {
    match s
    case Container(n, objs) =>
      ObjectsPlacedRoundTrip(data, pos + 12, objs);
      ContainerJoin(data, pos, n, objs);
    case Inline(n, body) =>
      BodyPlacedRoundTrip(data, pos + 12, body);
      InlineJoin(data, pos, n, body);
  }

  lemma {:induction false} ObjectsPlacedRoundTrip(data: seq<byte>, pos: nat, os: seq<Object>)
    requires ObjectsWF(os) && ObjectsPlaced(data, pos, os)
    ensures DecodeObjects(data, pos, |os|) == Ok(Parsed(os, pos + ObjectsSize(os)))
    decreases os, 1
  {
    if |os| > 0 {
      ObjectsWFTail(os);
      ObjectPlacedRoundTrip(data, pos, os[0]);
      ObjectsPlacedRoundTrip(data, pos + ObjectSize(os[0]), os[1..]);
      ObjectsJoin(data, pos, os);
    }
  }

  lemma {:induction false} ObjectPlacedRoundTrip(data: seq<byte>, pos: nat, o: Object)
    requires ObjectWF(o) && ObjectPlaced(data, pos, o)
    ensures DecodeObject(data, pos) == Ok(Parsed(o, pos + ObjectSize(o)))
    decreases o, 0
  {
    BodyPlacedRoundTrip(data, pos + 12, o.body);
    ObjectJoin(data, pos, o);
  }

  // Round trips over the encoder's bytes.

  /** A value written by the encoder reads back as itself, and the cursor stops right after it. */
  lemma ValueRoundTrip(data: seq<byte>, pos: nat, v: Value)
    requires ValueWF(v) && PlacedAt(data, pos, EncodeValue(v))
    ensures DecodeValue(data, pos) == Ok(Parsed(v, pos + |EncodeValue(v)|))
  {
    ValuePlacedOf(data, pos, v);
    ValuePlacedRoundTrip(data, pos, v);
  }

  lemma PropertyRoundTrip(data: seq<byte>, pos: nat, p: Property)
    requires PropertyWF(p) && PlacedAt(data, pos, EncodeProperty(p))
    ensures DecodeProperty(data, pos) == Ok(Parsed(p, pos + |EncodeProperty(p)|))
  {
    PropertyPlacedOf(data, pos, p);
    PropertyPlacedRoundTrip(data, pos, p);
  }

  /** A section is read back in the shape it was written: its second word tells the shapes apart. */
  lemma SectionRoundTrip(data: seq<byte>, pos: nat, s: Section)
    requires SectionWF(s) && PlacedAt(data, pos, EncodeSection(s))
    ensures DecodeSection(data, pos) == Ok(Parsed(s, pos + |EncodeSection(s)|))
  {
    SectionPlacedOf(data, pos, s);
    SectionPlacedRoundTrip(data, pos, s);
  }

  lemma ObjectRoundTrip(data: seq<byte>, pos: nat, o: Object)
    requires ObjectWF(o) && PlacedAt(data, pos, EncodeObject(o))
    ensures DecodeObject(data, pos) == Ok(Parsed(o, pos + |EncodeObject(o)|))
  {
    var size := |EncodeObject(o)|;
    assert size == ObjectSize(o);
    ObjectPlacedOf(data, pos, o);
    ObjectPlacedRoundTrip(data, pos, o);
  }

  /** The root's two counts, then its body. */
  lemma RootPlacedOf(data: seq<byte>, pos: nat, b: Body)
    requires BodyWF(b) && PlacedAt(data, pos, EncodeRoot(b))
    ensures U32Is(data, pos, |b.properties|) && U32Is(data, pos + 4, |b.sections|)
    ensures BodyPlaced(data, pos + 8, b)
  {
    PlacedCounts(data, pos, |b.properties|, |b.sections|, EncodeBody(b));
    BodyPlacedOf(data, pos + 8, b);
  }

  lemma RootJoin(data: seq<byte>, pos: nat, b: Body)
    ensures U32Is(data, pos, |b.properties|) && U32Is(data, pos + 4, |b.sections|)
      && DecodeBody(data, pos + 8, |b.properties|, |b.sections|) == Ok(Parsed(b, pos + 8 + BodySize(b)))
      ==> DecodeRoot(data, pos) == Ok(Parsed(b, pos + 8 + BodySize(b)))
  {
  }

  /** The root written at `pos` is read back whole, and the cursor stops right after it. */
  lemma RootRoundTrip(data: seq<byte>, pos: nat, b: Body)
    requires BodyWF(b) && PlacedAt(data, pos, EncodeRoot(b))
    ensures DecodeRoot(data, pos) == Ok(Parsed(b, pos + |EncodeRoot(b)|))
  {
    RootPlacedOf(data, pos, b);
    BodyPlacedRoundTrip(data, pos + 8, b);
    RootJoin(data, pos, b);
  }
}
