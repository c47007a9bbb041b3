/**
 * The object tree a binary INF buffer stores, and the reference encoder that
 * lays a tree out in the byte format the decoder reads. The decoder is proved
 * to invert it.
 */
module InfTree {
  import opened Bytes
  import opened Foreign

  /** The payload of one value, by its type byte: 0 string index, 1 double, 2 wide-string index, 3 blob. */
  datatype Value =
    | StrRef(index: nat)
    | Number(bits: seq<byte>)   // the 8 little-endian bytes of the double
    | WStrRef(index: nat)
    | Blob(length: nat)         // only the length is kept; the content is skipped

  datatype Property = Property(nameIndex: nat, values: seq<Value>)

  /** Properties and child sections, as the root, a child object and an inline section carry them. */
  datatype Body = Body(properties: seq<Property>, sections: seq<Section>)

  /** A child object of a container section: an explicit class index and a body. */
  datatype Object = Object(classIndex: nat, body: Body)

  /** The two section encodings, told apart by the word after the name index. */
  datatype Section =
    | Container(nameIndex: nat, objects: seq<Object>)
    | Inline(nameIndex: nat, body: Body)

  const StringType: byte := 0
  const DoubleType: byte := 1
  const WideStringType: byte := 2
  const BlobType: byte := 3

  // ---------------------------------------------------------------------------
  // Which trees the format can store

  predicate ValueWF(v: Value) {
    match v
    case StrRef(i) => i < TwoTo32
    case Number(bits) => |bits| == 8 && !NonFinite(bits)
    case WStrRef(i) => i < TwoTo32
    case Blob(n) => n < TwoTo32
  }

  predicate ValuesWF(vs: seq<Value>) {
    forall i :: 0 <= i < |vs| ==> ValueWF(vs[i])
  }

  predicate PropertyWF(p: Property) {
    p.nameIndex < TwoTo32 && |p.values| < 256 && ValuesWF(p.values)
  }

  predicate PropertiesWF(ps: seq<Property>) {
    forall i :: 0 <= i < |ps| ==> PropertyWF(ps[i])
  }

  predicate BodyWF(b: Body)
    decreases b, 2
  {
    |b.properties| < TwoTo32 && |b.sections| < TwoTo32 && PropertiesWF(b.properties) && SectionsWF(b.sections)
  }

  predicate SectionsWF(ss: seq<Section>)
    decreases ss, 1
  {
    forall i :: 0 <= i < |ss| ==> SectionWF(ss[i])
  }

  /** An inline section needs a property: with none, its count word is 0 and reads as a container. */
  predicate SectionWF(s: Section)
    decreases s, 0
  {
    match s
    case Container(n, objs) => n < TwoTo32 && |objs| < TwoTo32 && ObjectsWF(objs)
    case Inline(n, body) => n < TwoTo32 && |body.properties| > 0 && BodyWF(body)
  }

  predicate ObjectsWF(os: seq<Object>)
    decreases os, 1
  {
    forall i :: 0 <= i < |os| ==> ObjectWF(os[i])
  }

  predicate ObjectWF(o: Object)
    decreases o, 0
  {
    o.classIndex < TwoTo32 && BodyWF(o.body)
  }

  // ---------------------------------------------------------------------------
  // How many bytes each part of a tree takes

  function ValueSize(v: Value): nat {
    match v
    case StrRef(_) => 5
    case Number(bits) => 1 + |bits|
    case WStrRef(_) => 5
    case Blob(n) => 5 + n
  }

  function ValuesSize(vs: seq<Value>): nat {
    if vs == [] then 0 else ValueSize(vs[0]) + ValuesSize(vs[1..])
  }

  function PropertySize(p: Property): nat {
    5 + ValuesSize(p.values)
  }

  function PropertiesSize(ps: seq<Property>): nat {
    if ps == [] then 0 else PropertySize(ps[0]) + PropertiesSize(ps[1..])
  }

  function BodySize(b: Body): nat
    decreases b, 2
  {
    PropertiesSize(b.properties) + SectionsSize(b.sections)
  }

  function SectionsSize(ss: seq<Section>): nat
    decreases ss, 1
  {
    if ss == [] then 0 else SectionSize(ss[0]) + SectionsSize(ss[1..])
  }

  function SectionSize(s: Section): nat
    decreases s, 0
  {
    match s
    case Container(_, objs) => 12 + ObjectsSize(objs)
    case Inline(_, body) => 12 + BodySize(body)
  }

  function ObjectsSize(os: seq<Object>): nat
    decreases os, 1
  {
    if os == [] then 0 else ObjectSize(os[0]) + ObjectsSize(os[1..])
  }

  function ObjectSize(o: Object): nat
    decreases o, 0
  {
    12 + BodySize(o.body)
  }

  // ---------------------------------------------------------------------------
  // The reference encoder

  function Zeros(n: nat): (s: seq<byte>)
    ensures |s| == n
  {
    seq(n, _ => 0)
  }

  function EncodeValue(v: Value): (s: seq<byte>)
    ensures |s| == ValueSize(v)
  {
    match v
    case StrRef(i) => [StringType] + LE(i, 4)
    case Number(bits) => [DoubleType] + bits
    case WStrRef(i) => [WideStringType] + LE(i, 4)
    case Blob(n) => [BlobType] + LE(n, 4) + Zeros(n)
  }

  function EncodeValues(vs: seq<Value>): (s: seq<byte>)
    ensures |s| == ValuesSize(vs)
  {
    if vs == [] then [] else EncodeValue(vs[0]) + EncodeValues(vs[1..])
  }

  /** name index, a one-byte value count, then the values. */
  function EncodeProperty(p: Property): (s: seq<byte>)
    ensures |s| == PropertySize(p)
  {
    LE(p.nameIndex, 4) + LE(|p.values|, 1) + EncodeValues(p.values)
  }

  function EncodeProperties(ps: seq<Property>): (s: seq<byte>)
    ensures |s| == PropertiesSize(ps)
  {
    if ps == [] then [] else EncodeProperty(ps[0]) + EncodeProperties(ps[1..])
  }

  /** The part of a body after its two counts: properties, then sections. */
  function EncodeBody(b: Body): (s: seq<byte>)
    ensures |s| == BodySize(b)
    decreases b, 2
  {
    EncodeProperties(b.properties) + EncodeSections(b.sections)
  }

  function EncodeSections(ss: seq<Section>): (s: seq<byte>)
    ensures |s| == SectionsSize(ss)
    decreases ss, 1
  {
    if ss == [] then [] else EncodeSection(ss[0]) + EncodeSections(ss[1..])
  }

  function EncodeSection(s: Section): (r: seq<byte>)
    ensures |r| == SectionSize(s)
    decreases s, 0
  {
    match s
    case Container(n, objs) => LE(n, 4) + LE(0, 4) + LE(|objs|, 4) + EncodeObjects(objs)
    case Inline(n, body) =>
      LE(n, 4) + LE(|body.properties|, 4) + LE(|body.sections|, 4) + EncodeBody(body)
  }

  function EncodeObjects(os: seq<Object>): (s: seq<byte>)
    ensures |s| == ObjectsSize(os)
    decreases os, 1
  {
    if os == [] then [] else EncodeObject(os[0]) + EncodeObjects(os[1..])
  }

  function EncodeObject(o: Object): (s: seq<byte>)
    ensures |s| == ObjectSize(o)
    decreases o, 0
  {
    LE(o.classIndex, 4) + LE(|o.body.properties|, 4) + LE(|o.body.sections|, 4) + EncodeBody(o.body)
  }

  /** The root object: its two counts and its body; it has no class index. */
  function EncodeRoot(b: Body): (s: seq<byte>)
    ensures |s| == 8 + BodySize(b)
  {
    LE(|b.properties|, 4) + LE(|b.sections|, 4) + EncodeBody(b)
  }
}
