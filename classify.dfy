/** Recognising compressed, decompressed and text INF files from their first bytes. */
module Classify {
  import opened Results
  import opened Bytes
  import opened Text

  /** The four compressed-file tags and the format version each stands for. */
  const Magics: map<seq<byte>, nat> := map[
    [0xAA, 0xA5, 0xFF, 0xFF] := 3,
    [0xAB, 0xA5, 0xFF, 0xFF] := 2,
    [0xAC, 0xA5, 0xFF, 0xFF] := 1,
    [0xAD, 0xA5, 0xFF, 0xFF] := 0
  ]

  /** `get_version`: the version whose tag is `magic`, if any. */
  function GetVersion(magic: seq<byte>): (r: Option<nat>)
    ensures r.Some? ==> r.value < 4 && |magic| == 4 && magic[0] as int == 0xAD - r.value && magic[1..] == [0xA5, 0xFF, 0xFF]
  {
    if magic in Magics then Some(Magics[magic]) else None
  }

  /** The tag of version `v`: the little-endian word 0xFFFFA5AD - v. */
  function MagicFor(v: nat): (m: seq<byte>)
    requires v < 4
    ensures m == LE32(0xFFFF_A5AD - v)
  {
    var m := [0xAD - v, 0xA5, 0xFF, 0xFF];
    LEOfLEValue(m);
    LEValue4(m);
    m
  }

  /** Every version 0-3 has a tag, and `get_version` maps it back. */
  lemma VersionOfMagic(v: nat)
    requires v < 4
    ensures GetVersion(MagicFor(v)) == Some(v)
  {
    var m := MagicFor(v);
    if v == 0 { assert m == [0xAD, 0xA5, 0xFF, 0xFF]; }
    else if v == 1 { assert m == [0xAC, 0xA5, 0xFF, 0xFF]; }
    else if v == 2 { assert m == [0xAB, 0xA5, 0xFF, 0xFF]; }
    else { assert m == [0xAA, 0xA5, 0xFF, 0xFF]; }
  }

  /** A recognised tag is the tag of the version it is mapped to, and nothing else is recognised. */
  lemma MagicOfVersion(magic: seq<byte>)
    requires GetVersion(magic).Some?
    ensures GetVersion(magic).value < 4 && magic == MagicFor(GetVersion(magic).value)
  {
  }

  /** Bytes 0-3 hold an offset in [16, |data|) and bytes 4-7 are zero. */
  predicate LooksDecompressed(data: seq<byte>)
  {
    |data| >= 8 && 16 <= U32At(data, 0) < |data| && data[4..8] == [0, 0, 0, 0]
  }

  predicate HasSectionMarkers(text: string) {
    '[' in text && ']' in text && '{' in text
  }

  predicate StartsLikeText(text: string) {
    var stripped := Strip(text);
    StartsWith(stripped, "[") || StartsWith(stripped, ";") || StartsWith(stripped, "#")
  }

  /**
   * `is_text_inf`: the checks of the source, in its order. `utf8Strict` is the
   * strict UTF-8 decoder, `None` where Python's decode raises.
   */
  function IsTextInf(data: seq<byte>, utf8Strict: seq<byte> -> Option<string>): (r: bool)
    ensures r ==> |data| >= 20 && !LooksDecompressed(data) && GetVersion(data[..4]).None?
    ensures r ==> utf8Strict(data[..Min(500, |data|)]).Some?
  {
    if |data| < 20 then false
    else if 16 <= U32At(data, 0) < |data| && data[4..8] == [0, 0, 0, 0] then false
    else if data[0..4] in Magics then false
    else match utf8Strict(data[..Min(500, |data|)])
      case None => false
      case Some(text) => HasSectionMarkers(text) || StartsLikeText(text)
  }

  /** Past the three binary checks, a decodable prefix decides by its content alone. */
  lemma TextDecidedByContent(data: seq<byte>, utf8Strict: seq<byte> -> Option<string>, text: string)
    requires |data| >= 20 && !LooksDecompressed(data) && GetVersion(data[..4]).None?
    requires utf8Strict(data[..Min(500, |data|)]) == Some(text)
    ensures IsTextInf(data, utf8Strict) <==> HasSectionMarkers(text) || StartsLikeText(text)
  {
    assert data[0..4] == data[..4];
  }
}
