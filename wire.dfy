/**
 * Fixed-width integers and the byte orders the Player sources rely on:
 * network order (big-endian, what htons/ntohs produce and consume) and
 * the host's in-memory order of a struct copied with memcpy (taken to be
 * little-endian in this model), plus the 16-bit signed reinterpretation
 * performed by a `(short)` cast.
 */
module Wire {

  type byte = x: int | 0 <= x < 0x100
  type u16 = x: int | 0 <= x < 0x1_0000
  type u32 = x: int | 0 <= x < 0x1_0000_0000
  type i16 = x: int | -0x8000 <= x < 0x8000
  type i32 = x: int | -0x8000_0000 <= x < 0x8000_0000

  /** A value that may be absent: a NULL pointer or a failed lookup. */
  datatype Option<T> = None | Some(value: T)

  /** `n` zero bytes, what bzero/calloc leave behind. */
  function Zeros(n: nat): (z: seq<byte>)
    ensures |z| == n
    ensures forall i :: 0 <= i < n ==> z[i] == 0
  {
    if n == 0 then [] else Zeros(n - 1) + [0]
  }

  /** Moving the head of what is still to come onto what is done, the
      step a loop that drains a queue into a log takes. */
  lemma AppendStep<T>(done: seq<T>, next: seq<T>, rest: seq<T>)
    ensures done + (next + rest) == (done + next) + rest
  {
  }

  // ---------------------------------------------------------------- network order

  /** The two bytes that htons(x) leaves in memory: most significant first. */
  function Htons(x: u16): (b: seq<byte>)
    ensures |b| == 2
  {
    [x / 0x100, x % 0x100]
  }

  /** ntohs applied to the two bytes of a network-order field. */
  function Ntohs(b: seq<byte>): u16
    requires |b| == 2
  {
    (b[0] as int) * 0x100 + b[1] as int
  }

  lemma NtohsHtons(x: u16)
    ensures Ntohs(Htons(x)) == x
  {
  }

  lemma HtonsNtohs(b: seq<byte>)
    requires |b| == 2
    ensures Htons(Ntohs(b)) == b
  {
    var v := Ntohs(b);
    assert v / 0x100 == b[0] && v % 0x100 == b[1];
  }

  // ------------------------------------------------------------------ host order

  function Le16(x: u16): (b: seq<byte>)
    ensures |b| == 2
  {
    [x % 0x100, x / 0x100]
  }

  function FromLe16(b: seq<byte>): u16
    requires |b| == 2
  {
    b[0] as int + 0x100 * (b[1] as int)
  }

  function Le32(x: u32): (b: seq<byte>)
    ensures |b| == 4
  {
    Le16(x % 0x1_0000) + Le16(x / 0x1_0000)
  }

  function FromLe32(b: seq<byte>): u32
    requires |b| == 4
  {
    FromLe16(b[..2]) as int + 0x1_0000 * (FromLe16(b[2..]) as int)
  }

  lemma Le16RoundTrip(x: u16)
    ensures FromLe16(Le16(x)) == x
  {
  }

  lemma Le32RoundTrip(x: u32)
    ensures FromLe32(Le32(x)) == x
  {
    var b := Le32(x);
    assert b[..2] == Le16(x % 0x1_0000);
    assert b[2..] == Le16(x / 0x1_0000);
    Le16RoundTrip(x % 0x1_0000);
    Le16RoundTrip(x / 0x1_0000);
  }

  /** Every two bytes are the host-order image of the value they read as. */
  lemma FromLe16Bytes(b: seq<byte>)
    requires |b| == 2
    ensures Le16(FromLe16(b)) == b
  {
    var v := FromLe16(b);
    assert v % 0x100 == b[0] && v / 0x100 == b[1];
  }

  /** Every four bytes are the host-order image of the word they read as. */
  lemma FromLe32Bytes(b: seq<byte>)
    requires |b| == 4
    ensures Le32(FromLe32(b)) == b
  {
    var lo, hi := FromLe16(b[..2]), FromLe16(b[2..]);
    var v := FromLe32(b);
    assert v % 0x1_0000 == lo && v / 0x1_0000 == hi;
    FromLe16Bytes(b[..2]);
    FromLe16Bytes(b[2..]);
    assert b == b[..2] + b[2..];
  }

  // ---------------------------------------------------------- signed reinterpretation

  /** `(short)v` for an unsigned 16-bit `v`: two's-complement reading. */
  function AsShort(v: u16): (s: i16)
    ensures s == v || s == v - 0x1_0000
  {
    if v < 0x8000 then v else v - 0x1_0000
  }

  /** `(unsigned short)s` for a signed 16-bit `s`. */
  function AsUShort(s: i16): (v: u16)
    ensures v == s || v == s + 0x1_0000
  {
    if s < 0 then s + 0x1_0000 else s
  }

  lemma ShortRoundTrip(s: i16)
    ensures AsShort(AsUShort(s)) == s
  {
  }

  /** `(int)u` for an unsigned 32-bit `u`: two's-complement reading. */
  function AsInt(u: u32): (i: i32)
    ensures i == u || i == u - 0x1_0000_0000
  {
    if u < 0x8000_0000 then u else u - 0x1_0000_0000
  }

  function AsUInt(i: i32): (u: u32)
    ensures u == i || u == i + 0x1_0000_0000
  {
    if i < 0 then i + 0x1_0000_0000 else i
  }

  lemma IntRoundTrip(i: i32)
    ensures AsInt(AsUInt(i)) == i
  {
  }

  lemma UIntRoundTrip(u: u32)
    ensures AsUInt(AsInt(u)) == u
  {
  }
}
