/**
 * The string and wide-string tables at the end of a decompressed INF buffer
 * (`BinaryInfParser._load_string_tables`) and the string sampling of
 * `analyze_binary_inf`.
 */
module StringTable {
  import opened Results
  import opened Bytes
  import opened Text
  import opened Foreign

  datatype Tables = Tables(strings: seq<string>, wstrings: seq<string>)

  /** Why a buffer has no table: the three ways construction raises. */
  datatype LoadError =
    | HeaderTooShort            // fewer than 4 bytes: `struct.unpack` of `data[0:4]` raises
    | InvalidOffset(offset: nat) // the `ValueError` "Invalid string table offset"
    | CountTooShort(offset: nat) // fewer than 4 bytes at the offset: unpacking the count raises

  /** Strings read so far and the offset just past the last terminator consumed. */
  datatype Scan = Scan(items: seq<string>, next: nat)

  /** The text of the string whose bytes run from `pos` up to its terminator at `end`. */
  function SegmentText(data: seq<byte>, pos: nat, end: nat, utf8: seq<byte> -> string): string
    requires pos <= end <= |data|
  {
    utf8(data[pos..end])
  }

  /**
   * The string loop: up to `count` NUL-terminated strings from `pos`, stopping
   * at a missing NUL. It yields at most `count` strings.
   */
  function ReadStrings(data: seq<byte>, pos: nat, count: nat, utf8: seq<byte> -> string): (r: Scan)
    ensures |r.items| <= count
    decreases count
  {
    if count == 0 then Scan([], pos)
    else match FindNul(data, pos)
      case None => Scan([], pos)
      case Some(end) =>
        var rest := ReadStrings(data, end + 1, count - 1, utf8);
        Scan([SegmentText(data, pos, end, utf8)] + rest.items, rest.next)
  }

  /** A wide entry's text, or the placeholder naming where its bytes start. */
  function WideText(utf16: seq<byte> -> Option<string>, bytes: seq<byte>, at: nat): string
  {
    match utf16(bytes)
    case Some(s) => s
    case None => "<wstring@" + NatToString(at) + ">"
  }

  /** The text of the wide entry whose `byteLen` bytes start at `p`. */
  function WideEntryText(data: seq<byte>, p: nat, byteLen: nat, utf16: seq<byte> -> Option<string>): string
    requires p + byteLen <= |data|
  {
    WideText(utf16, data[p..p + byteLen], p)
  }

  /**
   * The wide-string loop: up to `count` entries of a u32 char count and twice
   * that many bytes. It yields at most `count` entries.
   */
  function ReadWStrings(data: seq<byte>, pos: nat, count: nat, utf16: seq<byte> -> Option<string>): (r: Scan)
    ensures |r.items| <= count
    decreases count
  {
    if count == 0 || pos + 4 > |data| then Scan([], pos)
    else
      var p := pos + 4;
      var byteLen := U32At(data, pos) * 2;
      if p + byteLen > |data| then Scan([], pos)
      else
        var rest := ReadWStrings(data, p + byteLen, count - 1, utf16);
        Scan([WideEntryText(data, p, byteLen, utf16)] + rest.items, rest.next)
  }

  /** What `_load_string_tables` leaves in `self.strings` and `self.wstrings`, or why it raises. */
  function LoadTables(data: seq<byte>, codecs: Codecs): (r: Result<Tables, LoadError>)
    ensures r.Ok? ==> |data| >= 4 && 16 <= U32At(data, 0) && U32At(data, 0) + 4 <= |data|
  {
    if |data| < 4 then Err(HeaderTooShort)
    else
      var sto := U32At(data, 0);
      if sto < 16 || sto >= |data| then Err(InvalidOffset(sto))
      else if sto + 4 > |data| then Err(CountTooShort(sto))
      else Ok(TablesAt(data, sto, codecs))
  }

  /** The two tables once the offset has passed its checks: the strings, then the wide strings if a count fits. */
  function TablesAt(data: seq<byte>, sto: nat, codecs: Codecs): Tables
    requires sto + 4 <= |data|
  {
    var strs := ReadStrings(data, sto + 4, U32At(data, sto), codecs.utf8Replace);
    var pos := strs.next;
    var wide := if pos + 8 <= |data| then ReadWStrings(data, pos + 4, U32At(data, pos), codecs.utf16le).items else [];
    Tables(strs.items, wide)
  }

  /** The string loop of the loader: `for _ in range(str_count)` over a local cursor. */
  method ReadStringBlock(data: seq<byte>, start: nat, count: nat, utf8: seq<byte> -> string)
    returns (strings: seq<string>, pos: nat)
    ensures Scan(strings, pos) == ReadStrings(data, start, count, utf8)
  {
    strings, pos := [], start;
    ghost var total := ReadStrings(data, start, count, utf8);
    for i := 0 to count
      invariant total.items == strings + ReadStrings(data, pos, count - i, utf8).items
      invariant total.next == ReadStrings(data, pos, count - i, utf8).next
    {
      var end := FindNul(data, pos);
      if end.None? {
        StringsStop(data, pos, count - i, utf8);
        break;
      }
      var item := SegmentText(data, pos, end.value, utf8);
      StringLoopStep(data, total, strings, pos, count - i, end.value, item, utf8);
      strings := strings + [item];
      pos := end.value + 1;
    }
  }

  /** The string loop ends where no NUL is left. */
  lemma StringsStop(data: seq<byte>, pos: nat, count: nat, utf8: seq<byte> -> string)
    requires FindNul(data, pos).None?
    ensures ReadStrings(data, pos, count, utf8) == Scan([], pos)
  {
  }

  /** One round of the string loop keeps what is read so far plus what is left to read. */
  lemma StringLoopStep(data: seq<byte>, total: Scan, done: seq<string>, pos: nat, n: nat, end: nat, item: string,
                       utf8: seq<byte> -> string)
    requires n > 0 && FindNul(data, pos) == Some(end)
    requires item == SegmentText(data, pos, end, utf8)
    requires total.items == done + ReadStrings(data, pos, n, utf8).items
    requires total.next == ReadStrings(data, pos, n, utf8).next
    ensures total.items == (done + [item]) + ReadStrings(data, end + 1, n - 1, utf8).items
    ensures total.next == ReadStrings(data, end + 1, n - 1, utf8).next
  {
    var rest := ReadStrings(data, end + 1, n - 1, utf8).items;
    assert done + ([item] + rest) == (done + [item]) + rest;
  }

  /** The wide-string loop of the loader, with its two early exits. */
  method ReadWideBlock(data: seq<byte>, start: nat, count: nat, utf16: seq<byte> -> Option<string>)
    returns (wstrings: seq<string>)
    ensures wstrings == ReadWStrings(data, start, count, utf16).items
  {
    wstrings := [];
    var pos: nat := start;
    ghost var total := ReadWStrings(data, start, count, utf16).items;
    ghost var left: nat := count;  // entries the loop may still read
    for j := 0 to count
      invariant left == count - j
      invariant total == wstrings + ReadWStrings(data, pos, left, utf16).items
    {
      ghost var at := pos;
      if pos + 4 > |data| {
        WStringsStop(data, at, left, utf16);
        break;
      }
      var charCount := U32At(data, pos);
      pos := pos + 4;
      var byteLen := charCount * 2;
      if pos + byteLen > |data| {
        WStringsStop(data, at, left, utf16);
        break;
      }
      var item := WideEntryText(data, pos, byteLen, utf16);
      ghost var done, n := wstrings, left;
      wstrings := wstrings + [item];
      pos := pos + byteLen;
      left := left - 1;
      WideLoopStep(data, total, done, at, n, item, wstrings, pos, left, utf16);
    }
  }

  /** One round of the wide loop keeps what is read so far plus what is left to read. */
  lemma WideLoopStep(data: seq<byte>, total: seq<string>, done: seq<string>, at: nat, n: nat, item: string,
                     now: seq<string>, q: nat, m: nat, utf16: seq<byte> -> Option<string>)
    requires n == m + 1 && at + 4 <= |data| && q == at + 4 + U32At(data, at) * 2 <= |data|
    requires item == WideEntryText(data, at + 4, U32At(data, at) * 2, utf16)
    requires total == done + ReadWStrings(data, at, n, utf16).items
    requires now == done + [item]
    ensures total == now + ReadWStrings(data, q, m, utf16).items
  {
    WStringsStep(data, at, n, utf16);
    var rest := ReadWStrings(data, q, m, utf16).items;
    assert done + ([item] + rest) == (done + [item]) + rest;
  }

  /** `_load_string_tables`: the offset checks, then the two loops. */
  method LoadStringTables(data: seq<byte>, codecs: Codecs) returns (r: Result<Tables, LoadError>)
    ensures r == LoadTables(data, codecs)
  {
    if |data| < 4 {
      return Err(HeaderTooShort);
    }
    var sto := U32At(data, 0);
    if sto < 16 || sto >= |data| {
      return Err(InvalidOffset(sto));
    }
    if sto + 4 > |data| {
      return Err(CountTooShort(sto));
    }
    var tables := ReadTables(data, sto, codecs);
    r := Ok(tables);
  }

  /** The two loops of `_load_string_tables`, from the string count at `sto` on. */
  method ReadTables(data: seq<byte>, sto: nat, codecs: Codecs) returns (tables: Tables)
    requires sto + 4 <= |data|
    ensures tables == TablesAt(data, sto, codecs)
  {
    var strCount := U32At(data, sto);
    var strings, pos := ReadStringBlock(data, sto + 4, strCount, codecs.utf8Replace);
    var wstrings: seq<string> := [];
    if pos + 8 <= |data| {
      var wstrCount := U32At(data, pos);
      wstrings := ReadWideBlock(data, pos + 4, wstrCount, codecs.utf16le);
    }
    tables := Tables(strings, wstrings);
  }

  // ---------------------------------------------------------------------------
  // Properties of the loader

  /** Construction raises exactly in these cases; otherwise both loops finish without raising. */
  lemma LoadFailsExactly(data: seq<byte>, codecs: Codecs)
    ensures LoadTables(data, codecs).Err? <==>
      |data| < 4 || U32At(data, 0) < 16 || U32At(data, 0) + 4 > |data|
    ensures |data| >= 4 && (U32At(data, 0) < 16 || U32At(data, 0) >= |data|) ==>
      LoadTables(data, codecs) == Err(InvalidOffset(U32At(data, 0)))
  {
  }

  /**
   * The wide-string table is read only when at least 8 bytes follow the string
   * block (its count and one more word); otherwise it is empty.
   */
  lemma WideTableNeedsRoom(data: seq<byte>, codecs: Codecs)
    requires LoadTables(data, codecs).Ok?
    ensures var sto := U32At(data, 0);
      var next := ReadStrings(data, sto + 4, U32At(data, sto), codecs.utf8Replace).next;
      var wide := LoadTables(data, codecs).value.wstrings;
      (next + 8 > |data| ==> wide == [])
      && (next + 8 <= |data| ==> wide == ReadWStrings(data, next + 4, U32At(data, next), codecs.utf16le).items)
  {
  }


  /** The string loop never moves its cursor back, nor past the end of the buffer. */
  lemma {:induction false} StringsCursorBounded(data: seq<byte>, pos: nat, count: nat, utf8: seq<byte> -> string)
    ensures ReadStrings(data, pos, count, utf8).next >= pos
    ensures pos <= |data| ==> ReadStrings(data, pos, count, utf8).next <= |data|
    decreases count
  {
    if count > 0 && FindNul(data, pos).Some? {
      StringsCursorBounded(data, FindNul(data, pos).value + 1, count - 1, utf8);
    }
  }

  /** Fewer strings than announced happens only when no NUL is left after the last one read. */
  lemma {:induction false} StringsStopAtMissingNul(data: seq<byte>, pos: nat, count: nat, utf8: seq<byte> -> string)
    requires |ReadStrings(data, pos, count, utf8).items| < count
    ensures FindNul(data, ReadStrings(data, pos, count, utf8).next).None?
    decreases count
  {
    if FindNul(data, pos).Some? {
      StringsStopAtMissingNul(data, FindNul(data, pos).value + 1, count - 1, utf8);
    }
  }

  /** NUL-free segments, each followed by its terminator. */
  function Terminated(segs: seq<seq<byte>>): seq<byte>
  {
    if segs == [] then [] else segs[0] + [0] + Terminated(segs[1..])
  }

  predicate NulFree(seg: seq<byte>) {
    forall k :: 0 <= k < |seg| ==> seg[k] != 0
  }

  /** `items` are the decodings of the NUL-free `segs`, one for one. */
  predicate DecodesSegments(items: seq<string>, segs: seq<seq<byte>>, utf8: seq<byte> -> string) {
    |segs| == |items| && forall i :: 0 <= i < |segs| ==> NulFree(segs[i]) && items[i] == utf8(segs[i])
  }

  lemma DecodesSegmentsCons(item: string, items: seq<string>, seg: seq<byte>, segs: seq<seq<byte>>, utf8: seq<byte> -> string)
    requires NulFree(seg) && item == utf8(seg) && DecodesSegments(items, segs, utf8)
    ensures DecodesSegments([item] + items, [seg] + segs, utf8)
  {
    var its, sgs := [item] + items, [seg] + segs;
    forall i | 0 <= i < |sgs| ensures NulFree(sgs[i]) && its[i] == utf8(sgs[i]) {
      if i > 0 {
        assert sgs[i] == segs[i - 1] && its[i] == items[i - 1];
      }
    }
  }

  /** The byte segments the string loop decodes: each runs up to, not including, its terminator. */
  function SegmentsRead(data: seq<byte>, pos: nat, count: nat): seq<seq<byte>>
    decreases count
  {
    if count == 0 then []
    else match FindNul(data, pos)
      case None => []
      case Some(end) => [data[pos..end]] + SegmentsRead(data, end + 1, count - 1)
  }

  /**
   * What the string loop consumed is a run of NUL-terminated segments, and
   * each string is the decoding of the segment before its terminator.
   */
  lemma {:induction false} StringsAreSegments(data: seq<byte>, pos: nat, count: nat, utf8: seq<byte> -> string)
    requires pos <= |data|
    ensures var scan := ReadStrings(data, pos, count, utf8);
      var segs := SegmentsRead(data, pos, count);
      scan.next == pos + |Terminated(segs)| && PlacedAt(data, pos, Terminated(segs))
      && DecodesSegments(scan.items, segs, utf8)
    decreases count
  {
    if count == 0 || FindNul(data, pos).None? {
      IndexPlaced(data, pos, [], 0);
      assert DecodesSegments([], [], utf8);
    } else {
      var end := FindNul(data, pos).value;
      StringsAreSegments(data, end + 1, count - 1, utf8);
      var rest := ReadStrings(data, end + 1, count - 1, utf8);
      var tail := SegmentsRead(data, end + 1, count - 1);
      var seg := data[pos..end];
      SegmentRead(data, pos, count, utf8);
      DecodesSegmentsCons(utf8(seg), rest.items, seg, tail, utf8);
      SlicePlaced(data, pos, end);
      TerminatedCons(data, pos, seg, tail);
    }
  }

  /** One round of the string loop reads the NUL-free segment up to the first NUL. */
  lemma SegmentRead(data: seq<byte>, pos: nat, count: nat, utf8: seq<byte> -> string)
    requires count > 0 && FindNul(data, pos).Some?
    ensures var end := FindNul(data, pos).value;
      var rest := ReadStrings(data, end + 1, count - 1, utf8);
      NulFree(data[pos..end])
      && ReadStrings(data, pos, count, utf8) == Scan([utf8(data[pos..end])] + rest.items, rest.next)
      && SegmentsRead(data, pos, count) == [data[pos..end]] + SegmentsRead(data, end + 1, count - 1)
  {
    FindNulFirst(data, pos);
  }

  /** A segment, its NUL, then a run of terminated segments form one longer run. */
  lemma TerminatedCons(data: seq<byte>, pos: nat, seg: seq<byte>, tail: seq<seq<byte>>)
    requires PlacedAt(data, pos, seg) && pos + |seg| < |data| && data[pos + |seg|] == 0
    requires PlacedAt(data, pos + |seg| + 1, Terminated(tail))
    ensures PlacedAt(data, pos, Terminated([seg] + tail))
    ensures |Terminated([seg] + tail)| == |seg| + 1 + |Terminated(tail)|
  {
    assert ([seg] + tail)[1..] == tail;
    IndexPlaced(data, pos + |seg|, [0], 0);
    PlacedJoin(data, pos, seg, [0]);
    PlacedJoin(data, pos, seg + [0], Terminated(tail));
  }

  lemma NulFreeTail(segs: seq<seq<byte>>)
    requires segs != [] && forall i :: 0 <= i < |segs| ==> NulFree(segs[i])
    ensures NulFree(segs[0]) && forall i :: 0 <= i < |segs[1..]| ==> NulFree(segs[1..][i])
  {
    assert forall i :: 0 <= i < |segs| - 1 ==> segs[1..][i] == segs[i + 1];
  }

  /** Reading back a run of terminated segments yields their decodings and stops right after it. */
  lemma {:induction false} StringsRoundTrip(data: seq<byte>, pos: nat, segs: seq<seq<byte>>, utf8: seq<byte> -> string)
    requires forall i :: 0 <= i < |segs| ==> NulFree(segs[i])
    requires PlacedAt(data, pos, Terminated(segs))
    ensures ReadStrings(data, pos, |segs|, utf8).next == pos + |Terminated(segs)|
    ensures DecodesSegments(ReadStrings(data, pos, |segs|, utf8).items, segs, utf8)
    decreases segs
  {
    if segs == [] {
      assert DecodesSegments([], segs, utf8);
    } else {
      var seg := segs[0];
      var end := pos + |seg|;
      NulFreeTail(segs);
      PlacedSplit(data, pos, seg + [0], Terminated(segs[1..]));
      PlacedSplit(data, pos, seg, [0]);
      PlacedSlice(data, pos, seg);
      PlacedIndex(data, end, [0], 0, 0);
      forall j | pos <= j < end ensures data[j] != 0 {
        PlacedIndex(data, pos, seg, 0, j - pos);
      }
      FindNulAt(data, pos, end);
      StringsRoundTrip(data, end + 1, segs[1..], utf8);
      var rest := ReadStrings(data, end + 1, |segs| - 1, utf8);
      DecodesSegmentsCons(utf8(seg), rest.items, seg, segs[1..], utf8);
      assert [seg] + segs[1..] == segs;
    }
  }

  /** The first NUL from `pos` is at `end` when `end` holds one and nothing before it does. */
  lemma {:induction false} FindNulAt(data: seq<byte>, pos: nat, end: nat)
    requires pos <= end < |data| && data[end] == 0
    requires forall j :: pos <= j < end ==> data[j] != 0
    ensures FindNul(data, pos) == Some(end)
    decreases end - pos
  {
    if pos < end {
      FindNulAt(data, pos + 1, end);
    }
  }


  /** Fewer wide strings than announced: the next char count, or the bytes it announces, run past the end. */
  lemma {:induction false} WStringsStopAtEnd(data: seq<byte>, pos: nat, count: nat, utf16: seq<byte> -> Option<string>)
    requires |ReadWStrings(data, pos, count, utf16).items| < count
    ensures var q := ReadWStrings(data, pos, count, utf16).next;
      q + 4 > |data| || q + 4 + U32At(data, q) * 2 > |data|
    decreases count
  {
    if pos + 4 <= |data| && pos + 4 + U32At(data, pos) * 2 <= |data| {
      WStringsStopAtEnd(data, pos + 4 + U32At(data, pos) * 2, count - 1, utf16);
    }
  }

  /** Byte strings that can be stored as wide entries: whole UTF-16 units, a count that fits a u32. */
  predicate WideEntries(entries: seq<seq<byte>>) {
    forall i :: 0 <= i < |entries| ==> |entries[i]| % 2 == 0 && |entries[i]| / 2 < TwoTo32
  }

  lemma WideEntriesTail(entries: seq<seq<byte>>)
    requires WideEntries(entries) && entries != []
    ensures WideEntries(entries[1..]) && |entries[0]| % 2 == 0 && |entries[0]| / 2 < TwoTo32
  {
    assert forall i :: 0 <= i < |entries| - 1 ==> entries[1..][i] == entries[i + 1];
  }

  /** Wide entries as the format stores them: a u32 char count, then two bytes per char. */
  function WideBlock(entries: seq<seq<byte>>): seq<byte>
  {
    if entries == [] then [] else LE(|entries[0]| / 2, 4) + entries[0] + WideBlock(entries[1..])
  }

  /** The text of entry `i` of a wide block that starts at `pos`. */
  function WideTexts(entries: seq<seq<byte>>, pos: nat, utf16: seq<byte> -> Option<string>): (r: seq<string>)
    ensures |r| == |entries|
  {
    if entries == [] then []
    else [WideText(utf16, entries[0], pos + 4)] + WideTexts(entries[1..], pos + 4 + |entries[0]|, utf16)
  }

  /** One round of the wide loop, when the entry fits. */
  lemma WStringsStep(data: seq<byte>, pos: nat, count: nat, utf16: seq<byte> -> Option<string>)
    requires count > 0 && pos + 4 <= |data| && pos + 4 + U32At(data, pos) * 2 <= |data|
    ensures var q := pos + 4 + U32At(data, pos) * 2;
      ReadWStrings(data, pos, count, utf16).items
        == [WideEntryText(data, pos + 4, U32At(data, pos) * 2, utf16)] + ReadWStrings(data, q, count - 1, utf16).items
  {
  }

  /** The wide loop ends where the next char count, or the bytes it announces, would run past the end. */
  lemma WStringsStop(data: seq<byte>, pos: nat, count: nat, utf16: seq<byte> -> Option<string>)
    requires pos + 4 > |data| || pos + 4 + U32At(data, pos) * 2 > |data|
    ensures ReadWStrings(data, pos, count, utf16).items == []
  {
  }

  /** Reading back a wide block yields each entry's decoding, or its placeholder. */
  lemma {:induction false} WStringsRoundTrip(data: seq<byte>, pos: nat, entries: seq<seq<byte>>, utf16: seq<byte> -> Option<string>)
    requires WideEntries(entries) && PlacedAt(data, pos, WideBlock(entries))
    ensures ReadWStrings(data, pos, |entries|, utf16).items == WideTexts(entries, pos, utf16)
    decreases entries
  {
    if entries != [] {
      WideEntriesTail(entries);
      var e := entries[0];
      var n := |e| / 2;
      PlacedSplit(data, pos, LE(n, 4) + e, WideBlock(entries[1..]));
      PlacedSplit(data, pos, LE(n, 4), e);
      PlacedU32(data, pos, n);
      PlacedSlice(data, pos + 4, e);
      assert U32At(data, pos) * 2 == |e|;
      WStringsRoundTrip(data, pos + 4 + |e|, entries[1..], utf16);
      WStringsStep(data, pos, |entries|, utf16);
    }
  }

  // ---------------------------------------------------------------------------
  // `analyze_binary_inf`

  /** `info['string_count']` and `info['sample_strings']`. */
  datatype Sample = Sample(count: nat, strings: seq<string>)

  /** The `info` dictionary: size, string table offset and, when the offset allows, a sample. */
  datatype Info = Info(size: nat, stringTableOffset: nat, sample: Option<Sample>)

  /** What `analyze_binary_inf` returns: `None` below 16 bytes, else the info record. */
  function Analysis(data: seq<byte>, utf8: seq<byte> -> string): (r: Option<Info>)
    ensures r.None? <==> |data| < 16
    ensures r.Some? && r.value.sample.Some? ==>
      16 <= r.value.stringTableOffset && r.value.stringTableOffset + 4 < |data|
      && |r.value.sample.value.strings| <= Min(r.value.sample.value.count, 20)
  {
    if |data| < 16 then None
    else
      var sto := U32At(data, 0);
      var sample :=
        if 16 <= sto < |data| - 4 then
          var count := U32At(data, sto);
          Some(Sample(count, ReadStrings(data, sto + 4, Min(count, 20), utf8).items))
        else None;
      Some(Info(|data|, sto, sample))
  }

  /** The sampling loop of `analyze_binary_inf`: it also stops once the cursor reaches the end. */
  method SampleStrings(data: seq<byte>, start: nat, limit: nat, utf8: seq<byte> -> string)
    returns (strings: seq<string>)
    ensures strings == ReadStrings(data, start, limit, utf8).items
  {
    strings := [];
    var pos: nat := start;
    ghost var total := ReadStrings(data, start, limit, utf8);
    for i := 0 to limit
      invariant total.items == strings + ReadStrings(data, pos, limit - i, utf8).items
      invariant total.next == ReadStrings(data, pos, limit - i, utf8).next
    {
      if pos >= |data| {
        StringsStop(data, pos, limit - i, utf8);
        break;
      }
      var end := FindNul(data, pos);
      if end.None? {
        StringsStop(data, pos, limit - i, utf8);
        break;
      }
      var item := SegmentText(data, pos, end.value, utf8);
      StringLoopStep(data, total, strings, pos, limit - i, end.value, item, utf8);
      strings := strings + [item];
      pos := end.value + 1;
    }
  }

  /** `analyze_binary_inf`. */
  method AnalyzeBinaryInf(data: seq<byte>, codecs: Codecs) returns (r: Option<Info>)
    ensures r == Analysis(data, codecs.utf8Replace)
  {
    if |data| < 16 {
      return None;
    }
    var sto := U32At(data, 0);
    var sample: Option<Sample> := None;
    if 16 <= sto < |data| - 4 {
      var count := U32At(data, sto);
      var strings := SampleStrings(data, sto + 4, Min(count, 20), codecs.utf8Replace);
      sample := Some(Sample(count, strings));
    }
    r := Some(Info(|data|, sto, sample));
  }

  /** Reading fewer strings reads a prefix of what reading more strings reads. */
  lemma {:induction false} ReadStringsPrefix(data: seq<byte>, pos: nat, m: nat, k: nat, utf8: seq<byte> -> string)
    requires m <= k
    ensures var few := ReadStrings(data, pos, m, utf8).items;
      var many := ReadStrings(data, pos, k, utf8).items;
      |few| == Min(m, |many|) && few == many[..|few|]
    decreases m
  {
    if m > 0 && FindNul(data, pos).Some? {
      ReadStringsPrefix(data, FindNul(data, pos).value + 1, m - 1, k - 1, utf8);
    }
  }

  /**
   * Where both the analysis samples strings and the loader succeeds, the sample
   * is the first `min(count, 20)` loaded strings, or all of them if fewer loaded.
   */
  lemma SampleIsPrefixOfTable(data: seq<byte>, codecs: Codecs)
    requires LoadTables(data, codecs).Ok?
    requires Analysis(data, codecs.utf8Replace).Some? && Analysis(data, codecs.utf8Replace).value.sample.Some?
    ensures var sample := Analysis(data, codecs.utf8Replace).value.sample.value;
      var loaded := LoadTables(data, codecs).value.strings;
      |sample.strings| == Min(Min(sample.count, 20), |loaded|) && sample.strings == loaded[..|sample.strings|]
  {
    LoadedStrings(data, codecs);
    SampledStrings(data, codecs.utf8Replace);
    SampleOfStrings(data, U32At(data, 0) + 4, codecs.utf8Replace,
      Analysis(data, codecs.utf8Replace).value.sample.value, LoadTables(data, codecs).value.strings);
  }

  /** A sample of the first `min(count, 20)` strings from `pos` is a prefix of all `count` of them. */
  lemma SampleOfStrings(data: seq<byte>, pos: nat, utf8: seq<byte> -> string, sample: Sample, loaded: seq<string>)
    requires sample.strings == ReadStrings(data, pos, Min(sample.count, 20), utf8).items
    requires loaded == ReadStrings(data, pos, sample.count, utf8).items
    ensures |sample.strings| == Min(Min(sample.count, 20), |loaded|) && sample.strings == loaded[..|sample.strings|]
  {
    ReadStringsPrefix(data, pos, Min(sample.count, 20), sample.count, utf8);
  }

  lemma LoadedStrings(data: seq<byte>, codecs: Codecs)
    requires LoadTables(data, codecs).Ok?
    ensures |data| >= 4 && 16 <= U32At(data, 0) && U32At(data, 0) + 4 <= |data|
    ensures LoadTables(data, codecs).value.strings
      == ReadStrings(data, U32At(data, 0) + 4, U32At(data, U32At(data, 0)), codecs.utf8Replace).items
  {
  }

  lemma SampledStrings(data: seq<byte>, utf8: seq<byte> -> string)
    requires Analysis(data, utf8).Some? && Analysis(data, utf8).value.sample.Some?
    ensures |data| >= 16 && U32At(data, 0) + 4 < |data|
    ensures var sample := Analysis(data, utf8).value.sample.value;
      sample.count == U32At(data, U32At(data, 0))
      && sample.strings == ReadStrings(data, U32At(data, 0) + 4, Min(sample.count, 20), utf8).items
  {
  }
}
