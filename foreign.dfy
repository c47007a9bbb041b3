/**
 * The library routines the decoder calls but whose internals are not modelled:
 * text decoding of byte slices and the formatting of a finite double. A `Codecs`
 * value is passed to the decoder instead, so every statement below holds for
 * whatever these routines return.
 */
module Foreign {
  import opened Results
  import opened Bytes

  datatype Codecs = Codecs(
    /** `b.decode('utf-8', errors='replace')`: never fails. */
    utf8Replace: seq<byte> -> string,
    /** `b.decode('utf-8', errors='strict')`, `None` where it raises. */
    utf8Strict: seq<byte> -> Option<string>,
    /** `b.decode('utf-16le')`, `None` where it raises. */
    utf16le: seq<byte> -> Option<string>,
    /** The text `fmt_double` gives a finite double, from its 8 little-endian bytes. */
    formatDouble: seq<byte> -> string
  )

  /**
   * An IEEE-754 binary64 value stored little-endian is a NaN or an infinity
   * exactly when its 11 exponent bits are all ones. For such a value Python's
   * `int(v)` raises, so `fmt_double` raises.
   */
  predicate NonFinite(bits: seq<byte>)
    requires |bits| == 8
  {
    (bits[7] as int % 128) * 16 + bits[6] as int / 16 == 0x7FF
  }
}
