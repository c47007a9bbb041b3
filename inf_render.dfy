/**
 * The text `parse` produces for a decoded tree: a `[Class]` header, braces and
 * one `name = values` line per property, indented with tabs, sections one level
 * deeper than the block that holds them. Names and values are looked up in the
 * string tables loaded from the end of the buffer.
 */
module InfRender {
  import opened Results
  import opened Bytes
  import opened Text
  import opened InfTree

  /** What rendering needs besides the tree: the two tables and the double formatter. */
  datatype Context = Context(strings: seq<string>, wstrings: seq<string>, formatDouble: seq<byte> -> string)

  // ---------------------------------------------------------------------------
  // Table lookups

  /** The text standing in for a missing table entry: `<string_7>`, `<wstring_7>`. */
  function Placeholder(kind: string, i: nat): string {
    "<" + kind + "_" + NatToString(i) + ">"
  }

  predicate AllDigits(s: string) {
    forall k :: 0 <= k < |s| ==> IsDigitChar(s[k])
  }

  /** Reads a placeholder of the given kind back to its index. */
  function ReadPlaceholder(kind: string, s: string): Option<nat> {
    var head := "<" + kind + "_";
    if |s| > |head| + 1 && s[..|head|] == head && s[|s| - 1] == '>' && AllDigits(s[|head|..|s| - 1])
    then Some(ParseDecimal(s[|head|..|s| - 1]))
    else None
  }

  /** A placeholder names exactly the index it stands for. */
  lemma PlaceholderRoundTrip(kind: string, i: nat)
    ensures ReadPlaceholder(kind, Placeholder(kind, i)) == Some(i)
  {
    var head := "<" + kind + "_";
    var digits := NatToString(i);
    var s := Placeholder(kind, i);
    assert s == head + digits + ">";
    assert s[..|head|] == head;
    assert s[|head|..|s| - 1] == digits;
    DecimalRoundTrip(i);
  }

  /** `get_str`: never fails; an index in range gives its entry, any other a placeholder that names it. */
  function GetStr(ctx: Context, i: nat): (r: string)
    ensures i < |ctx.strings| ==> r == ctx.strings[i]
    ensures i >= |ctx.strings| ==> ReadPlaceholder("string", r) == Some(i)
  {
    if i < |ctx.strings| then ctx.strings[i]
    else
      PlaceholderRoundTrip("string", i);
      Placeholder("string", i)
  }

  /** `get_wstr`, the same over the wide strings. */
  function GetWStr(ctx: Context, i: nat): (r: string)
    ensures i < |ctx.wstrings| ==> r == ctx.wstrings[i]
    ensures i >= |ctx.wstrings| ==> ReadPlaceholder("wstring", r) == Some(i)
  {
    if i < |ctx.wstrings| then ctx.wstrings[i]
    else
      PlaceholderRoundTrip("wstring", i);
      Placeholder("wstring", i)
  }

  // ---------------------------------------------------------------------------
  // Properties

  function RenderValue(ctx: Context, v: Value): string {
    match v
    case StrRef(i) => GetStr(ctx, i)
    case Number(bits) => ctx.formatDouble(bits)
    case WStrRef(i) => "L\"" + GetWStr(ctx, i) + "\""
    case Blob(n) => "<blob:" + NatToString(n) + ">"
  }

  function RenderValues(ctx: Context, vs: seq<Value>): (r: seq<string>)
    ensures |r| == |vs|
    ensures forall i :: 0 <= i < |vs| ==> r[i] == RenderValue(ctx, vs[i])
  {
    if vs == [] then [] else [RenderValue(ctx, vs[0])] + RenderValues(ctx, vs[1..])
  }

  /** `parse_property`'s result: `name = v1, v2, ...`; a single value stands alone, no values leave nothing after ` = `. */
  function RenderProperty(ctx: Context, p: Property): (r: string)
    ensures StartsWith(r, GetStr(ctx, p.nameIndex) + " = ")
    ensures |p.values| == 0 ==> r == GetStr(ctx, p.nameIndex) + " = "
    ensures |p.values| == 1 ==> r == GetStr(ctx, p.nameIndex) + " = " + RenderValue(ctx, p.values[0])
  {
    var head := GetStr(ctx, p.nameIndex) + " = ";
    var r := head + Join(", ", RenderValues(ctx, p.values));
    assert r[..|head|] == head;
    r
  }

  /**
   * A property line reads back as its name and exactly as many values as the
   * property has, provided the name has no `=` and no value has a `,` (a value
   * list that is empty renders as nothing after ` = `).
   */
  lemma PropertyReadsBack(ctx: Context, p: Property)
    requires Lacks(GetStr(ctx, p.nameIndex), '=')
    requires forall i :: 0 <= i < |p.values| ==> Lacks(RenderValue(ctx, p.values[i]), ',')
    ensures var line := RenderProperty(ctx, p);
      Contains(line, " = ")
      && SplitOnce(line, " = ").0 == GetStr(ctx, p.nameIndex)
      && (|p.values| == 0 ==> SplitOnce(line, " = ").1 == "")
      && (|p.values| > 0 ==> SplitAll(SplitOnce(line, " = ").1, ", ") == RenderValues(ctx, p.values))
  {
    var vals := Join(", ", RenderValues(ctx, p.values));
    assert Lacks(" = "[..1], '=');
    SplitOnceAt(GetStr(ctx, p.nameIndex), " = ", vals, '=', 1);
    if |p.values| > 0 {
      SplitJoin(RenderValues(ctx, p.values), ", ");
    }
  }

  /** A property inside a block at `indent`: one tab deeper than the block. */
  function PropertyLine(ctx: Context, indent: nat, p: Property): string {
    Tabs(indent) + "\t" + RenderProperty(ctx, p)
  }

  function PropertyLines(ctx: Context, indent: nat, ps: seq<Property>): (r: seq<string>)
    ensures |r| == |ps|
    ensures forall i :: 0 <= i < |ps| ==> r[i] == PropertyLine(ctx, indent, ps[i])
  {
    if ps == [] then [] else [PropertyLine(ctx, indent, ps[0])] + PropertyLines(ctx, indent, ps[1..])
  }

  /** One more property adds its line at the end. */
  lemma PropertyLinesAppend(ctx: Context, indent: nat, ps: seq<Property>, p: Property)
    ensures PropertyLines(ctx, indent, ps + [p]) == PropertyLines(ctx, indent, ps) + [PropertyLine(ctx, indent, p)]
  {
    var longer := PropertyLines(ctx, indent, ps + [p]);
    assert forall i :: 0 <= i < |ps| ==> (ps + [p])[i] == ps[i];
    assert longer[|ps|] == PropertyLine(ctx, indent, p);
  }

  // ---------------------------------------------------------------------------
  // Blocks and sections

  /**
   * The two header lines of an inline section: the name up to the first ` : `
   * and `: ` with the rest; a name without ` : ` serves as both.
   */
  function InlineHeader(name: string): (r: (string, string))
    ensures Contains(name, " : ") ==>
      |r.1| >= 2 && r.0 + " : " + r.1[2..] == name && r.1[..2] == ": " && !Contains(r.0, " : ")
    ensures !Contains(name, " : ") ==> r == (name, name)
  {
    if Contains(name, " : ") then
      var (part, rest) := SplitOnce(name, " : ");
      assert (": " + rest)[2..] == rest;
      (part, ": " + rest)
    else (name, name)
  }

  /** A block: `[class]`, `{`, its properties, its sections one level deeper, `}`. */
  function RenderBlock(ctx: Context, indent: nat, className: string, b: Body): seq<string>
    decreases b, 2
  {
    [Tabs(indent) + "[" + className + "]", Tabs(indent) + "{"]
    + PropertyLines(ctx, indent, b.properties)
    + RenderSections(ctx, indent + 1, b.sections)
    + [Tabs(indent) + "}"]
  }

  function RenderSections(ctx: Context, indent: nat, ss: seq<Section>): seq<string>
    decreases ss, 1
  {
    if ss == [] then [] else RenderSection(ctx, indent, ss[0]) + RenderSections(ctx, indent, ss[1..])
  }

  /** A container names itself and lists its objects at its own indent; an inline section is one block. */
  function RenderSection(ctx: Context, indent: nat, s: Section): seq<string>
    decreases s, 0
  {
    match s
    case Container(n, objs) => [Tabs(indent) + GetStr(ctx, n)] + RenderObjects(ctx, indent, objs)
    case Inline(n, body) =>
      var header := InlineHeader(GetStr(ctx, n));
      [Tabs(indent) + header.0] + RenderBlock(ctx, indent, header.1, body)
  }

  function RenderObjects(ctx: Context, indent: nat, os: seq<Object>): seq<string>
    decreases os, 1
  {
    if os == [] then [] else RenderObject(ctx, indent, os[0]) + RenderObjects(ctx, indent, os[1..])
  }

  /** A child object's class name is the string its class index names. */
  function RenderObject(ctx: Context, indent: nat, o: Object): seq<string>
    decreases o, 0
  {
    RenderBlock(ctx, indent, GetStr(ctx, o.classIndex), o.body)
  }

  /** The root's class name is string 0. */
  function RenderRoot(ctx: Context, b: Body): seq<string> {
    RenderBlock(ctx, 0, GetStr(ctx, 0), b)
  }

  /** The sections loop appends each section's lines after those of the ones before. */
  lemma {:induction false} RenderSectionsAppend(ctx: Context, indent: nat, ss: seq<Section>, s: Section)
    ensures RenderSections(ctx, indent, ss + [s]) == RenderSections(ctx, indent, ss) + RenderSection(ctx, indent, s)
    decreases |ss|
  {
    if ss == [] {
      assert ss + [s] == [s] && [s][1..] == [];
    } else {
      assert (ss + [s])[0] == ss[0] && (ss + [s])[1..] == ss[1..] + [s];
      RenderSectionsAppend(ctx, indent, ss[1..], s);
    }
  }

  /** The same for the objects loop of a container. */
  lemma {:induction false} RenderObjectsAppend(ctx: Context, indent: nat, os: seq<Object>, o: Object)
    ensures RenderObjects(ctx, indent, os + [o]) == RenderObjects(ctx, indent, os) + RenderObject(ctx, indent, o)
    decreases |os|
  {
    if os == [] {
      assert os + [o] == [o] && [o][1..] == [];
    } else {
      assert (os + [o])[0] == os[0] && (os + [o])[1..] == os[1..] + [o];
      RenderObjectsAppend(ctx, indent, os[1..], o);
    }
  }

  // ---------------------------------------------------------------------------
  // Layout of the rendered lines

  predicate Indented(line: string, n: nat) {
    StartsWith(line, Tabs(n))
  }

  predicate AllIndented(lines: seq<string>, n: nat) {
    forall k :: 0 <= k < |lines| ==> Indented(lines[k], n)
  }

  lemma TabsPrefix(n: nat, rest: string)
    ensures Indented(Tabs(n) + rest, n)
  {
    assert (Tabs(n) + rest)[..n] == Tabs(n);
  }

  lemma DeeperIndented(line: string, n: nat)
    requires Indented(line, n + 1)
    ensures Indented(line, n)
  {
    assert line[..n] == line[..n + 1][..n];
    assert Tabs(n + 1)[..n] == Tabs(n);
  }

  lemma AllDeeper(lines: seq<string>, n: nat)
    requires AllIndented(lines, n + 1)
    ensures AllIndented(lines, n)
  {
    forall k | 0 <= k < |lines| ensures Indented(lines[k], n) {
      DeeperIndented(lines[k], n);
    }
  }

  lemma PropertyLinesIndented(ctx: Context, indent: nat, ps: seq<Property>)
    ensures AllIndented(PropertyLines(ctx, indent, ps), indent + 1)
  {
    var r := PropertyLines(ctx, indent, ps);
    forall k | 0 <= k < |r| ensures Indented(r[k], indent + 1) {
      assert r[k] == Tabs(indent + 1) + RenderProperty(ctx, ps[k]);
      TabsPrefix(indent + 1, RenderProperty(ctx, ps[k]));
    }
  }

  /** The shape `[open1, open2] + props + secs + [close]` every block has. */
  lemma Framed(h0: string, h1: string, props: seq<string>, secs: seq<string>, c: string, n: nat)
    requires Indented(h0, n) && Indented(h1, n) && Indented(c, n)
    requires AllIndented(props, n + 1) && AllIndented(secs, n + 1)
    ensures var r := [h0, h1] + props + secs + [c];
      |r| == 3 + |props| + |secs| && r[0] == h0 && r[1] == h1 && r[|r| - 1] == c
      && r[2..2 + |props|] == props && AllIndented(r[2..|r| - 1], n + 1) && AllIndented(r, n)
  {
    var r := [h0, h1] + props + secs + [c];
    AllIndentedAppend(props, secs, n + 1);
    assert r[2..|r| - 1] == props + secs;
    assert r[2..2 + |props|] == props;
    AllDeeper(props + secs, n);
    forall k | 0 <= k < |r| ensures Indented(r[k], n) {
      if 2 <= k < |r| - 1 {
        assert r[k] == (props + secs)[k - 2];
      }
    }
  }

  /**
   * A block opens and closes with braces at its own indent, and every line
   * between them lies at least one level deeper, so a reader can pair the
   * braces by indentation. The properties come first, in order.
   */
  lemma {:induction false} BlockFramed(ctx: Context, indent: nat, className: string, b: Body)
    ensures var r := RenderBlock(ctx, indent, className, b);
      |r| == 3 + |b.properties| + |RenderSections(ctx, indent + 1, b.sections)|
      && r[0] == Tabs(indent) + "[" + className + "]"
      && r[1] == Tabs(indent) + "{"
      && r[2..2 + |b.properties|] == PropertyLines(ctx, indent, b.properties)
      && r[|r| - 1] == Tabs(indent) + "}"
      && AllIndented(r[2..|r| - 1], indent + 1)
      && AllIndented(r, indent)
    decreases b, 2
  {
    var props := PropertyLines(ctx, indent, b.properties);
    var secs := RenderSections(ctx, indent + 1, b.sections);
    PropertyLinesIndented(ctx, indent, b.properties);
    SectionsIndented(ctx, indent + 1, b.sections);
    TabsPrefix(indent, "[" + className + "]");
    TabsPrefix(indent, "{");
    TabsPrefix(indent, "}");
    Framed(Tabs(indent) + "[" + className + "]", Tabs(indent) + "{", props, secs, Tabs(indent) + "}", indent);
  }

  /** Every line of the sections rendered at `indent` is indented at least that far. */
  lemma {:induction false} SectionsIndented(ctx: Context, indent: nat, ss: seq<Section>)
    ensures AllIndented(RenderSections(ctx, indent, ss), indent)
    decreases ss, 1
  {
    if ss != [] {
      SectionIndented(ctx, indent, ss[0]);
      SectionsIndented(ctx, indent, ss[1..]);
      AllIndentedAppend(RenderSection(ctx, indent, ss[0]), RenderSections(ctx, indent, ss[1..]), indent);
    }
  }

  lemma {:induction false} SectionIndented(ctx: Context, indent: nat, s: Section)
    ensures AllIndented(RenderSection(ctx, indent, s), indent)
    decreases s, 0
  {
    match s
    case Container(n, objs) =>
      TabsPrefix(indent, GetStr(ctx, n));
      ObjectsIndented(ctx, indent, objs);
      AllIndentedAppend([Tabs(indent) + GetStr(ctx, n)], RenderObjects(ctx, indent, objs), indent);
    case Inline(n, body) =>
      var header := InlineHeader(GetStr(ctx, n));
      TabsPrefix(indent, header.0);
      BlockFramed(ctx, indent, header.1, body);
      AllIndentedAppend([Tabs(indent) + header.0], RenderBlock(ctx, indent, header.1, body), indent);
  }

  lemma {:induction false} ObjectsIndented(ctx: Context, indent: nat, os: seq<Object>)
    ensures AllIndented(RenderObjects(ctx, indent, os), indent)
    decreases os, 1
  {
    if os != [] {
      ObjectIndented(ctx, indent, os[0]);
      ObjectsIndented(ctx, indent, os[1..]);
      AllIndentedAppend(RenderObject(ctx, indent, os[0]), RenderObjects(ctx, indent, os[1..]), indent);
    }
  }

  lemma {:induction false} ObjectIndented(ctx: Context, indent: nat, o: Object)
    ensures AllIndented(RenderObject(ctx, indent, o), indent)
    decreases o, 0
  {
    BlockFramed(ctx, indent, GetStr(ctx, o.classIndex), o.body);
  }

  lemma AllIndentedAppend(a: seq<string>, b: seq<string>, n: nat)
    requires AllIndented(a, n) && AllIndented(b, n)
    ensures AllIndented(a + b, n)
  {
    forall k | 0 <= k < |a + b| ensures Indented((a + b)[k], n) {
      if k >= |a| {
        assert (a + b)[k] == b[k - |a|];
      }
    }
  }
}
