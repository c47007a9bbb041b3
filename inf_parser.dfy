/**
 * `BinaryInfParser`: a cursor over a decompressed binary INF buffer that turns
 * it into indented text. Each reading method moves `pos` exactly as far as the
 * structural decoder says and produces exactly the rendering of what that
 * decoder reads; on failure it stops with `pos` where the error was raised.
 */
module InfParser {
  import opened Results
  import opened Bytes
  import opened Text
  import opened Foreign
  import opened StringTable
  import opened InfTree
  import opened InfDecode
  import opened InfRender

  /** Why `binary_to_text` raised: while loading the tables, or while parsing. */
  datatype ConvertError = LoadFailed(load: LoadError) | ParseFailed(parse: ParseError)

  function ContextOf(t: Tables, codecs: Codecs): Context {
    Context(t.strings, t.wstrings, codecs.formatDouble)
  }

  /** What `parse` returns: the root decoded from offset 16, rendered and joined with newlines. */
  function ParseText(data: seq<byte>, ctx: Context): (r: Result<string, ParseError>)
    ensures r.Ok? <==> DecodeRoot(data, RootOffset).Ok?
    ensures r.Err? ==> r.error.pos >= RootOffset && Explained(data, r.error)
  {
    match DecodeRoot(data, RootOffset)
    case Err(e) => Err(e)
    case Ok(root) => Ok(Join("\n", RenderRoot(ctx, root.tree)))
  }

  /** What `binary_to_text` returns. */
  function Converted(data: seq<byte>, codecs: Codecs): (r: Result<string, ConvertError>)
    ensures r.Ok? <==> LoadTables(data, codecs).Ok? && DecodeRoot(data, RootOffset).Ok?
    ensures r.Err? && r.error.ParseFailed? ==> r.error.parse.pos >= RootOffset && Explained(data, r.error.parse)
  {
    match LoadTables(data, codecs)
    case Err(e) => Err(LoadFailed(e))
    case Ok(t) =>
      match ParseText(data, ContextOf(t, codecs))
      case Err(e) => Err(ParseFailed(e))
      case Ok(text) => Ok(text)
  }

  /**
   * A buffer whose root the reference encoder wrote at offset 16 converts to
   * the rendering of that root, whatever the tables hold.
   */
  lemma ConvertEncoded(data: seq<byte>, codecs: Codecs, root: Body)
    requires LoadTables(data, codecs).Ok?
    requires BodyWF(root) && PlacedAt(data, RootOffset, EncodeRoot(root))
    ensures Converted(data, codecs) == Ok(Join("\n", RenderRoot(ContextOf(LoadTables(data, codecs).value, codecs), root)))
  {
    RootRoundTrip(data, RootOffset, root);
  }

  class BinaryInfParser {
    const data: seq<byte>
    const strings: seq<string>
    const wstrings: seq<string>
    const codecs: Codecs
    var pos: nat

    function Ctx(): Context {
      Context(strings, wstrings, codecs.formatDouble)
    }

    constructor (data: seq<byte>, tables: Tables, codecs: Codecs)
      ensures this.data == data && strings == tables.strings && wstrings == tables.wstrings
      ensures this.codecs == codecs && pos == 0
    {
      this.data := data;
      this.strings := tables.strings;
      this.wstrings := tables.wstrings;
      this.codecs := codecs;
      this.pos := 0;
    }

    /** `BinaryInfParser(data)`: loads the tables, or raises as the loader does. */
    static method Create(data: seq<byte>, codecs: Codecs) returns (r: Result<BinaryInfParser, LoadError>)
      ensures LoadTables(data, codecs).Err? ==> r == Err(LoadTables(data, codecs).error)
      ensures LoadTables(data, codecs).Ok? ==>
        r.Ok? && fresh(r.value) && r.value.data == data && r.value.codecs == codecs && r.value.pos == 0
        && r.value.strings == LoadTables(data, codecs).value.strings
        && r.value.wstrings == LoadTables(data, codecs).value.wstrings
    {
      var t := LoadStringTables(data, codecs);
      if t.Err? {
        return Err(t.error);
      }
      var p := new BinaryInfParser(data, t.value, codecs);
      return Ok(p);
    }

    // -------------------------------------------------------------------------
    // Cursor readers

    method U8() returns (r: Result<byte, ParseError>)
      modifies this
      ensures r == InfDecode.U8(data, old(pos))
      ensures pos == if r.Ok? then old(pos) + 1 else old(pos)
    {
      if pos >= |data| {
        return Err(ParseError(pos, Truncated));
      }
      r := Ok(data[pos]);
      pos := pos + 1;
    }

    method U32() returns (r: Result<nat, ParseError>)
      modifies this
      ensures r == InfDecode.U32(data, old(pos))
      ensures pos == if r.Ok? then old(pos) + 4 else old(pos)
    {
      if pos + 4 > |data| {
        return Err(ParseError(pos, Truncated));
      }
      r := Ok(U32At(data, pos));
      pos := pos + 4;
    }

    /** The eight bytes of a double; the value itself is left to the formatter. */
    method F64() returns (r: Result<seq<byte>, ParseError>)
      modifies this
      ensures old(pos) + 8 <= |data| ==> r == Ok(data[old(pos)..old(pos) + 8]) && pos == old(pos) + 8
      ensures old(pos) + 8 > |data| ==> r == Err(ParseError(old(pos), Truncated)) && pos == old(pos)
    {
      if pos + 8 > |data| {
        return Err(ParseError(pos, Truncated));
      }
      r := Ok(data[pos..pos + 8]);
      pos := pos + 8;
    }

    // -------------------------------------------------------------------------
    // The recursive descent

    /** One pass of the value loop of `parse_property`: a type byte and its payload. */
    method ParseValue() returns (r: Result<string, ParseError>)
      modifies this
      ensures var d := DecodeValue(data, old(pos));
        d.Ok? ==> r == Ok(RenderValue(Ctx(), d.value.tree)) && pos == d.value.next
      ensures var d := DecodeValue(data, old(pos));
        d.Err? ==> r == Err(d.error) && pos == d.error.pos
    {
      var ptype := U8();
      if ptype.Err? {
        return Err(ptype.error);
      }
      if ptype.value == StringType {
        var idx := U32();
        if idx.Err? {
          return Err(idx.error);
        }
        r := Ok(GetStr(Ctx(), idx.value));
      } else if ptype.value == DoubleType {
        var bits := F64();
        if bits.Err? {
          return Err(bits.error);
        }
        if NonFinite(bits.value) {
          return Err(ParseError(pos, NonFiniteDouble));
        }
        r := Ok(codecs.formatDouble(bits.value));
      } else if ptype.value == WideStringType {
        var idx := U32();
        if idx.Err? {
          return Err(idx.error);
        }
        r := Ok("L\"" + GetWStr(Ctx(), idx.value) + "\"");
      } else if ptype.value == BlobType {
        var blobLen := U32();
        if blobLen.Err? {
          return Err(blobLen.error);
        }
        pos := pos + blobLen.value;
        r := Ok("<blob:" + NatToString(blobLen.value) + ">");
      } else {
        return Err(ParseError(pos, UnknownType(ptype.value, pos - 1)));
      }
    }

    /** `parse_property`. */
    method ParseProperty() returns (r: Result<string, ParseError>)
      modifies this
      ensures var d := DecodeProperty(data, old(pos));
        d.Ok? ==> r == Ok(RenderProperty(Ctx(), d.value.tree)) && pos == d.value.next
      ensures var d := DecodeProperty(data, old(pos));
        d.Err? ==> r == Err(d.error) && pos == d.error.pos
    {
      var nameIdx := U32();
      if nameIdx.Err? {
        return Err(nameIdx.error);
      }
      var propName := GetStr(Ctx(), nameIdx.value);
      var count := U8();
      if count.Err? {
        return Err(count.error);
      }
      ghost var first := pos;
      ghost var items: seq<Value> := [];
      var vals: seq<string> := [];
      for i := 0 to count.value
        invariant DecodeValues(data, first, i) == Ok(Parsed(items, pos))
        invariant vals == RenderValues(Ctx(), items)
      {
        ghost var at := pos;
        ValuesStep(data, first, i, count.value, items, at);
        var v := ParseValue();
        if v.Err? {
          return Err(v.error);
        }
        items := items + [DecodeValue(data, at).value.tree];
        vals := vals + [v.value];
      }
      return Ok(propName + " = " + Join(", ", vals));
    }

    /** The property loop of a block: `count` properties, each one tab deeper than the block. */
    method ParsePropertyLines(indent: nat, count: nat) returns (r: Result<seq<string>, ParseError>)
      modifies this
      ensures var d := DecodeProperties(data, old(pos), count);
        d.Ok? ==> r == Ok(PropertyLines(Ctx(), indent, d.value.tree)) && pos == d.value.next
      ensures var d := DecodeProperties(data, old(pos), count);
        d.Err? ==> r == Err(d.error) && pos == d.error.pos
    {
      ghost var start := pos;
      ghost var props: seq<Property> := [];
      var lines: seq<string> := [];
      for i := 0 to count
        invariant DecodeProperties(data, start, i) == Ok(Parsed(props, pos))
        invariant lines == PropertyLines(Ctx(), indent, props)
      {
        ghost var at := pos;
        PropertiesStep(data, start, i, count, props, at);
        var propLine := ParseProperty();
        if propLine.Err? {
          return Err(propLine.error);
        }
        ghost var prop := DecodeProperty(data, at).value.tree;
        PropertyLinesAppend(Ctx(), indent, props, prop);
        props := props + [prop];
        lines := lines + [Tabs(indent) + "\t" + propLine.value];
      }
      return Ok(lines);
    }

    /** The child-section loop of a block: `count` sections at `indent`. */
    method ParseSectionLines(indent: nat, count: nat) returns (r: Result<seq<string>, ParseError>)
      modifies this
      ensures var d := DecodeSections(data, old(pos), count);
        d.Ok? ==> r == Ok(RenderSections(Ctx(), indent, d.value.tree)) && pos == d.value.next
      ensures var d := DecodeSections(data, old(pos), count);
        d.Err? ==> r == Err(d.error) && pos == d.error.pos
      decreases Rem(data, pos), 3
    {
      ghost var start := pos;
      ghost var secs: seq<Section> := [];
      var lines: seq<string> := [];
      for j := 0 to count
        invariant start <= pos
        invariant DecodeSections(data, start, j) == Ok(Parsed(secs, pos))
        invariant lines == RenderSections(Ctx(), indent, secs)
      {
        ghost var at := pos;
        SectionsStep(data, start, j, count, secs, at);
        var sectionLines := ParseSection(indent);
        if sectionLines.Err? {
          return Err(sectionLines.error);
        }
        RenderSectionsAppend(Ctx(), indent, secs, DecodeSection(data, at).value.tree);
        secs := secs + [DecodeSection(data, at).value.tree];
        lines := lines + sectionLines.value;
      }
      return Ok(lines);
    }

    /**
     * The part `parse_root_object`, `parse_child_object` and an inline
     * `parse_section` share: the class header, the property loop, the section
     * loop one level deeper, and the closing brace.
     */
    method ParseBlock(indent: nat, className: string, propCount: nat, childCount: nat)
      returns (r: Result<seq<string>, ParseError>)
      modifies this
      ensures var d := DecodeBody(data, old(pos), propCount, childCount);
        d.Ok? ==> r == Ok(RenderBlock(Ctx(), indent, className, d.value.tree)) && pos == d.value.next
      ensures var d := DecodeBody(data, old(pos), propCount, childCount);
        d.Err? ==> r == Err(d.error) && pos == d.error.pos
      decreases Rem(data, pos), 4
    {
      var ind := Tabs(indent);
      var lines := [ind + "[" + className + "]", ind + "{"];
      var props := ParsePropertyLines(indent, propCount);
      if props.Err? {
        return Err(props.error);
      }
      var sections := ParseSectionLines(indent + 1, childCount);
      if sections.Err? {
        return Err(sections.error);
      }
      return Ok(lines + props.value + sections.value + [ind + "}"]);
    }

    /** The object loop of a container section: `count` child objects at `indent`. */
    method ParseObjectLines(indent: nat, count: nat) returns (r: Result<seq<string>, ParseError>)
      modifies this
      ensures var d := DecodeObjects(data, old(pos), count);
        d.Ok? ==> r == Ok(RenderObjects(Ctx(), indent, d.value.tree)) && pos == d.value.next
      ensures var d := DecodeObjects(data, old(pos), count);
        d.Err? ==> r == Err(d.error) && pos == d.error.pos
      decreases Rem(data, pos), 3
    {
      ghost var start := pos;
      ghost var objs: seq<Object> := [];
      var lines: seq<string> := [];
      for k := 0 to count
        invariant start <= pos
        invariant DecodeObjects(data, start, k) == Ok(Parsed(objs, pos))
        invariant lines == RenderObjects(Ctx(), indent, objs)
      {
        ghost var at := pos;
        ObjectsStep(data, start, k, count, objs, at);
        var objLines := ParseChildObject(indent);
        if objLines.Err? {
          return Err(objLines.error);
        }
        RenderObjectsAppend(Ctx(), indent, objs, DecodeObject(data, at).value.tree);
        objs := objs + [DecodeObject(data, at).value.tree];
        lines := lines + objLines.value;
      }
      return Ok(lines);
    }

    /** `parse_section`: a container and its objects, or an inline block. */
    method ParseSection(indent: nat) returns (r: Result<seq<string>, ParseError>)
      modifies this
      ensures var d := DecodeSection(data, old(pos));
        d.Ok? ==> r == Ok(RenderSection(Ctx(), indent, d.value.tree)) && pos == d.value.next
      ensures var d := DecodeSection(data, old(pos));
        d.Err? ==> r == Err(d.error) && pos == d.error.pos
      decreases Rem(data, pos), 2
    {
      var ind := Tabs(indent);
      var nameIdx := U32();
      if nameIdx.Err? {
        return Err(nameIdx.error);
      }
      var sectionName := GetStr(Ctx(), nameIdx.value);
      var secondField := U32();
      if secondField.Err? {
        return Err(secondField.error);
      }
      if secondField.value == 0 {
        var objCount := U32();
        if objCount.Err? {
          return Err(objCount.error);
        }
        var objs := ParseObjectLines(indent, objCount.value);
        if objs.Err? {
          return Err(objs.error);
        }
        return Ok([ind + sectionName] + objs.value);
      } else {
        var childCount := U32();
        if childCount.Err? {
          return Err(childCount.error);
        }
        var header := InlineHeader(sectionName);
        var block := ParseBlock(indent, header.1, secondField.value, childCount.value);
        if block.Err? {
          return Err(block.error);
        }
        return Ok([ind + header.0] + block.value);
      }
    }

    /** `parse_child_object`: the class index names the class. */
    method ParseChildObject(indent: nat) returns (r: Result<seq<string>, ParseError>)
      modifies this
      ensures var d := DecodeObject(data, old(pos));
        d.Ok? ==> r == Ok(RenderObject(Ctx(), indent, d.value.tree)) && pos == d.value.next
      ensures var d := DecodeObject(data, old(pos));
        d.Err? ==> r == Err(d.error) && pos == d.error.pos
      decreases Rem(data, pos), 2
    {
      var classIdx := U32();
      if classIdx.Err? {
        return Err(classIdx.error);
      }
      var className := GetStr(Ctx(), classIdx.value);
      var propCount := U32();
      if propCount.Err? {
        return Err(propCount.error);
      }
      var childCount := U32();
      if childCount.Err? {
        return Err(childCount.error);
      }
      r := ParseBlock(indent, className, propCount.value, childCount.value);
    }

    /** `parse_root_object`: no class index; the class is string 0. */
    method ParseRootObject(indent: nat) returns (r: Result<seq<string>, ParseError>)
      modifies this
      ensures var d := DecodeRoot(data, old(pos));
        d.Ok? ==> r == Ok(RenderBlock(Ctx(), indent, GetStr(Ctx(), 0), d.value.tree)) && pos == d.value.next
      ensures var d := DecodeRoot(data, old(pos));
        d.Err? ==> r == Err(d.error) && pos == d.error.pos
    {
      var propCount := U32();
      if propCount.Err? {
        return Err(propCount.error);
      }
      var childCount := U32();
      if childCount.Err? {
        return Err(childCount.error);
      }
      var className := GetStr(Ctx(), 0);
      r := ParseBlock(indent, className, propCount.value, childCount.value);
    }

    /** `parse`: skip the 16-byte header, read the root, join its lines. */
    method Parse() returns (r: Result<string, ParseError>)
      modifies this
      ensures r == ParseText(data, Ctx())
      ensures r.Ok? ==> pos == DecodeRoot(data, RootOffset).value.next
      ensures r.Err? ==> pos == r.error.pos
    {
      pos := RootOffset;
      var lines := ParseRootObject(0);
      if lines.Err? {
        return Err(lines.error);
      }
      return Ok(Join("\n", lines.value));
    }
  }

  /** `binary_to_text`. */
  method BinaryToText(data: seq<byte>, codecs: Codecs) returns (r: Result<string, ConvertError>)
    ensures r == Converted(data, codecs)
  {
    var parser := BinaryInfParser.Create(data, codecs);
    if parser.Err? {
      return Err(LoadFailed(parser.error));
    }
    var text := parser.value.Parse();
    if text.Err? {
      return Err(ParseFailed(text.error));
    }
    return Ok(text.value);
  }
}
