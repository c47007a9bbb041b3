/** Bytes of a decompressed INF buffer and the little-endian fields read from it. */
module Bytes {
  import opened Results

  /** An octet of the buffer; Python `bytes` indexing yields such an int. */
  type byte = x: int | 0 <= x < 256

  const TwoTo32: nat := 0x1_0000_0000

  /** Python's `min` of two counts. */
  function Min(a: nat, b: nat): nat {
    if a < b then a else b
  }

  function Pow256(k: nat): (r: nat)
    ensures r > 0
  {
    if k == 0 then 1 else 256 * Pow256(k - 1)
  }

  /** Little-endian value of a byte string: least significant byte first. */
  function LEValue(s: seq<byte>): nat
  {
    if s == [] then 0 else s[0] + 256 * LEValue(s[1..])
  }

  /** The `k`-byte little-endian encoding of `n` (the reference encoder). */
  function LE(n: nat, k: nat): (s: seq<byte>)
    ensures |s| == k
  {
    if k == 0 then [] else [n % 256] + LE(n / 256, k - 1)
  }

  /** A 4-byte little-endian field, as `struct.pack('<I', n)` writes it. */
  function LE32(n: nat): (s: seq<byte>)
    requires n < TwoTo32
    ensures |s| == 4
  {
    LE(n, 4)
  }

  lemma {:induction false} LEValueBound(s: seq<byte>)
    ensures LEValue(s) < Pow256(|s|)
  {
    if s != [] {
      LEValueBound(s[1..]);
    }
  }

  /** Decoding what the encoder wrote gives the number back. */
  lemma {:induction false} LEValueOfLE(n: nat, k: nat)
    requires n < Pow256(k)
    ensures LEValue(LE(n, k)) == n
  {
    if k > 0 {
      LEValueOfLE(n / 256, k - 1);
      assert LE(n, k)[1..] == LE(n / 256, k - 1);
    }
  }

  /** Encoding a decoded field gives the same bytes back. */
  lemma {:induction false} LEOfLEValue(s: seq<byte>)
    ensures LE(LEValue(s), |s|) == s
  {
    if s != [] {
      LEOfLEValue(s[1..]);
      var n := LEValue(s);
      assert n % 256 == s[0] && n / 256 == LEValue(s[1..]);
    }
  }

  /** A 4-byte field spelled out. */
  lemma LEValue4(s: seq<byte>)
    requires |s| == 4
    ensures LEValue(s) == s[0] as int + 256 * s[1] as int + 65536 * s[2] as int + 16777216 * s[3] as int
  {
    assert LEValue(s[3..]) == s[3] as int by {
      assert s[3..][1..] == [];
    }
    assert LEValue(s[2..]) == s[2] as int + 256 * LEValue(s[3..]) by {
      assert s[2..][1..] == s[3..];
    }
    assert LEValue(s[1..]) == s[1] as int + 256 * LEValue(s[2..]) by {
      assert s[1..][1..] == s[2..];
    }
  }

  /** `struct.unpack('<I', data[p:p+4])[0]`, defined only when four bytes are there. */
  function U32At(data: seq<byte>, p: nat): (v: nat)
    requires p + 4 <= |data|
    ensures v < TwoTo32
  {
    data[p] as int + 256 * data[p + 1] as int + 65536 * data[p + 2] as int + 16777216 * data[p + 3] as int
  }

  /** The field read is the little-endian value of its four bytes. */
  lemma U32AtValue(data: seq<byte>, p: nat)
    requires p + 4 <= |data|
    ensures U32At(data, p) == LEValue(data[p..p + 4])
  {
    LEValue4(data[p..p + 4]);
  }

  /** A u32 written by LE32 at offset p reads back as the same number. */
  lemma U32AtLE32(data: seq<byte>, p: nat, n: nat)
    requires n < TwoTo32 && p + 4 <= |data| && data[p..p + 4] == LE32(n)
    ensures U32At(data, p) == n
  {
    LEValueOfLE(n, 4);
    U32AtValue(data, p);
  }

  /** `data.find(b'\x00', start)`: the first NUL at or after `start`, if any. */
  function FindNul(data: seq<byte>, start: nat): (r: Option<nat>)
    ensures r.Some? ==> start <= r.value < |data| && data[r.value] == 0
    decreases |data| - start
  {
    if start >= |data| then None
    else if data[start] == 0 then Some(start)
    else FindNul(data, start + 1)
  }

  /** The NUL found is the first one; when none is found, none is there. */
  lemma {:induction false} FindNulFirst(data: seq<byte>, start: nat)
    ensures FindNul(data, start).Some? ==> forall j :: start <= j < FindNul(data, start).value ==> data[j] != 0
    ensures FindNul(data, start).None? ==> forall j :: start <= j < |data| ==> data[j] != 0
    decreases |data| - start
  {
    if start < |data| && data[start] != 0 {
      FindNulFirst(data, start + 1);
    }
  }

  /** The bytes of `w` from index `k` on lie in `data` at `pos + k` onwards. */
  predicate PlacedFrom(data: seq<byte>, pos: nat, w: seq<byte>, k: nat)
    decreases |w| - k
  {
    k <= |w| && pos + |w| <= |data| && (k == |w| || (data[pos + k] == w[k] && PlacedFrom(data, pos, w, k + 1)))
  }

  /** `w` lies in `data` starting at offset `pos`. */
  predicate PlacedAt(data: seq<byte>, pos: nat, w: seq<byte>) {
    PlacedFrom(data, pos, w, 0)
  }

  lemma {:induction false} PlacedIndex(data: seq<byte>, pos: nat, w: seq<byte>, k: nat, j: nat)
    requires PlacedFrom(data, pos, w, k) && k <= j < |w|
    ensures data[pos + j] == w[j]
    decreases j - k
  {
    if k < j {
      PlacedIndex(data, pos, w, k + 1, j);
    }
  }

  lemma {:induction false} IndexPlaced(data: seq<byte>, pos: nat, w: seq<byte>, k: nat)
    requires k <= |w| && pos + |w| <= |data|
    requires forall j :: k <= j < |w| ==> data[pos + j] == w[j]
    ensures PlacedFrom(data, pos, w, k)
    decreases |w| - k
  {
    if k < |w| {
      IndexPlaced(data, pos, w, k + 1);
    }
  }

  lemma PlacedSlice(data: seq<byte>, pos: nat, w: seq<byte>)
    requires PlacedAt(data, pos, w)
    ensures pos + |w| <= |data| && data[pos..pos + |w|] == w
  {
    forall j | 0 <= j < |w| ensures data[pos..pos + |w|][j] == w[j] {
      PlacedIndex(data, pos, w, 0, j);
    }
  }

  lemma PlacedSplit(data: seq<byte>, pos: nat, a: seq<byte>, b: seq<byte>)
    requires PlacedAt(data, pos, a + b)
    ensures PlacedAt(data, pos, a) && PlacedAt(data, pos + |a|, b)
  {
    forall j | 0 <= j < |a| ensures data[pos + j] == a[j] {
      PlacedIndex(data, pos, a + b, 0, j);
    }
    IndexPlaced(data, pos, a, 0);
    forall j | 0 <= j < |b| ensures data[pos + |a| + j] == b[j] {
      PlacedIndex(data, pos, a + b, 0, |a| + j);
    }
    IndexPlaced(data, pos + |a|, b, 0);
  }

  lemma PlacedJoin(data: seq<byte>, pos: nat, a: seq<byte>, b: seq<byte>)
    requires PlacedAt(data, pos, a) && PlacedAt(data, pos + |a|, b)
    ensures PlacedAt(data, pos, a + b)
  {
    forall j | 0 <= j < |a| + |b| ensures data[pos + j] == (a + b)[j] {
      if j < |a| {
        PlacedIndex(data, pos, a, 0, j);
      } else {
        PlacedIndex(data, pos + |a|, b, 0, j - |a|);
      }
    }
    IndexPlaced(data, pos, a + b, 0);
  }

  /** A slice of `data` lies in `data` where it was taken. */
  lemma SlicePlaced(data: seq<byte>, a: nat, b: nat)
    requires a <= b <= |data|
    ensures PlacedAt(data, a, data[a..b])
  {
    IndexPlaced(data, a, data[a..b], 0);
  }

  /** A u32 field placed at `pos` reads back as its value. */
  lemma PlacedU32(data: seq<byte>, pos: nat, n: nat)
    requires n < TwoTo32 && PlacedAt(data, pos, LE(n, 4))
    ensures pos + 4 <= |data| && U32At(data, pos) == n
  {
    PlacedSlice(data, pos, LE(n, 4));
    U32AtLE32(data, pos, n);
  }
}
