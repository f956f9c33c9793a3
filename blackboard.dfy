/**
 * Blackboard entries on the client side (client_libs/libplayerc/
 * dev_blackboard.c): builders for string, int and double entries, the
 * matching readers, and the type-tag tests.
 *
 * A C string is a byte sequence that contains a NUL; its value runs up to
 * the first one.  An int is stored as its four host-order (little-endian)
 * bytes; a double is an opaque block of eight bytes, with no arithmetic.
 * The tag values live in playerc.h, which is not part of this model; the
 * values below are the model's choice and the proofs only use that they
 * are distinct.  gettimeofday is the parameter `now`.
 */
module Blackboard {
  import opened Wire

  const PLAYERC_BLACKBOARD_DATA_TYPE_SIMPLE: u16 := 1
  const PLAYERC_BLACKBOARD_DATA_TYPE_COMPLEX: u16 := 2
  const PLAYERC_BLACKBOARD_DATA_SUBTYPE_STRING: u16 := 1
  const PLAYERC_BLACKBOARD_DATA_SUBTYPE_INT: u16 := 2
  const PLAYERC_BLACKBOARD_DATA_SUBTYPE_DOUBLE: u16 := 3

  const SIZEOF_INT: nat := 4
  const SIZEOF_DOUBLE: nat := 8

  /** The eight bytes of a double. */
  type DoubleBytes = b: seq<byte> | |b| == SIZEOF_DOUBLE witness [0, 0, 0, 0, 0, 0, 0, 0]

  /** A NUL-terminated string. */
  type CString = s: seq<byte> | 0 in s witness [0]

  /** player_blackboard_entry_t.  key_count and data_count are the lengths
      of `key` and `data`. */
  datatype Entry = Entry(
    key: seq<byte>, msgType: u16, subtype: u16, data: seq<byte>,
    groupId: u32, timestampSec: int, timestampUsec: int)

  datatype Timeval = Timeval(sec: int, usec: int)

  /** strlen: the index of the first NUL. */
  function Strlen(s: CString): (n: nat)
    ensures n < |s| && s[n] == 0
    ensures forall j :: 0 <= j < n ==> s[j] != 0
  {
    StrlenFrom(s, 0)
  }

  function StrlenFrom(s: seq<byte>, i: nat): (n: nat)
    requires i <= |s| && exists j :: i <= j < |s| && s[j] == 0
    ensures i <= n < |s| && s[n] == 0
    ensures forall j :: i <= j < n ==> s[j] != 0
    decreases |s| - i
  {
    if s[i] == 0 then i else StrlenFrom(s, i + 1)
  }

  /** The string's bytes with their terminating NUL. */
  function Terminated(s: CString): (t: seq<byte>)
    ensures |t| == Strlen(s) + 1 && t == s[..|t|]
    ensures t[|t| - 1] == 0 && forall j :: 0 <= j < |t| - 1 ==> t[j] != 0
  {
    s[..Strlen(s) + 1]
  }

  // ------------------------------------------------------------ builders

  /** playerc_pack_blackboard_entry_string */
  function PackString(key: CString, groupId: u32, str: CString, now: Timeval): (e: Entry)
    ensures e.msgType == PLAYERC_BLACKBOARD_DATA_TYPE_COMPLEX && e.subtype == PLAYERC_BLACKBOARD_DATA_SUBTYPE_STRING
    ensures e.groupId == groupId
    ensures |e.key| == Strlen(key) + 1 && e.key == key[..|e.key|]
    ensures |e.data| == Strlen(str) + 1 && e.data == str[..|e.data|]
    ensures e.timestampSec == now.sec && e.timestampUsec == now.usec
  {
    Entry(Terminated(key), PLAYERC_BLACKBOARD_DATA_TYPE_COMPLEX, PLAYERC_BLACKBOARD_DATA_SUBTYPE_STRING,
          Terminated(str), groupId, now.sec, now.usec)
  }

  /** playerc_pack_blackboard_entry_int */
  function PackInt(key: CString, groupId: u32, i: i32, now: Timeval): (e: Entry)
    ensures e.msgType == PLAYERC_BLACKBOARD_DATA_TYPE_SIMPLE && e.subtype == PLAYERC_BLACKBOARD_DATA_SUBTYPE_INT
    ensures e.groupId == groupId
    ensures |e.key| == Strlen(key) + 1 && e.key == key[..|e.key|]
    ensures |e.data| == SIZEOF_INT && e.data == Le32(AsUInt(i))
    ensures e.timestampSec == now.sec && e.timestampUsec == now.usec
  {
    Entry(Terminated(key), PLAYERC_BLACKBOARD_DATA_TYPE_SIMPLE, PLAYERC_BLACKBOARD_DATA_SUBTYPE_INT,
          Le32(AsUInt(i)), groupId, now.sec, now.usec)
  }

  /** playerc_pack_blackboard_entry_double */
  function PackDouble(key: CString, groupId: u32, d: DoubleBytes, now: Timeval): (e: Entry)
    ensures e.msgType == PLAYERC_BLACKBOARD_DATA_TYPE_SIMPLE && e.subtype == PLAYERC_BLACKBOARD_DATA_SUBTYPE_DOUBLE
    ensures e.groupId == groupId
    ensures |e.key| == Strlen(key) + 1 && e.key == key[..|e.key|]
    ensures e.data == d
    ensures e.timestampSec == now.sec && e.timestampUsec == now.usec
  {
    Entry(Terminated(key), PLAYERC_BLACKBOARD_DATA_TYPE_SIMPLE, PLAYERC_BLACKBOARD_DATA_SUBTYPE_DOUBLE,
          d, groupId, now.sec, now.usec)
  }

  // ------------------------------------------------------------ readers

  /** playerc_unpack_blackboard_entry_string: a copy of the data bytes;
      the tags are asserted. */
  function UnpackString(e: Entry): (s: seq<byte>)
    requires e.msgType == PLAYERC_BLACKBOARD_DATA_TYPE_COMPLEX
    requires e.subtype == PLAYERC_BLACKBOARD_DATA_SUBTYPE_STRING
    ensures s == e.data
  {
    e.data
  }

  /** playerc_unpack_blackboard_entry_int: data_count bytes copied over an
      int that starts at 0.  More than four bytes would overrun it. */
  function UnpackInt(e: Entry): (i: i32)
    requires e.msgType == PLAYERC_BLACKBOARD_DATA_TYPE_SIMPLE
    requires e.subtype == PLAYERC_BLACKBOARD_DATA_SUBTYPE_INT
    requires |e.data| <= SIZEOF_INT
    ensures i == AsInt(FromLe32(e.data + Zeros(SIZEOF_INT - |e.data|)))
    ensures |e.data| == 0 ==> i == 0
    ensures |e.data| == SIZEOF_INT ==> e.data == Le32(AsUInt(i))
  {
    var b := e.data + Zeros(SIZEOF_INT - |e.data|);
    assert |e.data| == 0 ==> b == [0, 0, 0, 0];
    assert |e.data| == SIZEOF_INT ==> b == e.data;
    FromLe32Bytes(b);
    UIntRoundTrip(FromLe32(b));
    AsInt(FromLe32(b))
  }

  /** playerc_unpack_blackboard_entry_double: data_count bytes copied over
      a double that starts at 0.0 (all zero bytes). */
  function UnpackDouble(e: Entry): (d: DoubleBytes)
    requires e.msgType == PLAYERC_BLACKBOARD_DATA_TYPE_SIMPLE
    requires e.subtype == PLAYERC_BLACKBOARD_DATA_SUBTYPE_DOUBLE
    requires |e.data| <= SIZEOF_DOUBLE
    ensures d[..|e.data|] == e.data
    ensures forall j :: |e.data| <= j < SIZEOF_DOUBLE ==> d[j] == 0
  {
    e.data + Zeros(SIZEOF_DOUBLE - |e.data|)
  }

  // ------------------------------------------------------------ tag tests

  /** playerc_check_blackboard_entry_is_string; a NULL entry is None. */
  function CheckIsString(e: Option<Entry>): (r: int)
    ensures r == 0 || r == -1
    ensures r == 0 <==> e.Some? && e.value.msgType == PLAYERC_BLACKBOARD_DATA_TYPE_COMPLEX &&
                        e.value.subtype == PLAYERC_BLACKBOARD_DATA_SUBTYPE_STRING
  {
    if e.Some? && e.value.msgType == PLAYERC_BLACKBOARD_DATA_TYPE_COMPLEX &&
       e.value.subtype == PLAYERC_BLACKBOARD_DATA_SUBTYPE_STRING then 0 else -1
  }

  /** playerc_check_blackboard_entry_is_int */
  function CheckIsInt(e: Option<Entry>): (r: int)
    ensures r == 0 || r == -1
    ensures r == 0 <==> e.Some? && e.value.msgType == PLAYERC_BLACKBOARD_DATA_TYPE_SIMPLE &&
                        e.value.subtype == PLAYERC_BLACKBOARD_DATA_SUBTYPE_INT
  {
    if e.Some? && e.value.msgType == PLAYERC_BLACKBOARD_DATA_TYPE_SIMPLE &&
       e.value.subtype == PLAYERC_BLACKBOARD_DATA_SUBTYPE_INT then 0 else -1
  }

  /** playerc_check_blackboard_entry_is_double */
  function CheckIsDouble(e: Option<Entry>): (r: int)
    ensures r == 0 || r == -1
    ensures r == 0 <==> e.Some? && e.value.msgType == PLAYERC_BLACKBOARD_DATA_TYPE_SIMPLE &&
                        e.value.subtype == PLAYERC_BLACKBOARD_DATA_SUBTYPE_DOUBLE
  {
    if e.Some? && e.value.msgType == PLAYERC_BLACKBOARD_DATA_TYPE_SIMPLE &&
       e.value.subtype == PLAYERC_BLACKBOARD_DATA_SUBTYPE_DOUBLE then 0 else -1
  }

  // ------------------------------------------------------------ properties

  /** Reading a string entry back gives the string's bytes and its NUL. */
  lemma StringRoundTrip(key: CString, groupId: u32, str: CString, now: Timeval)
    ensures var s := UnpackString(PackString(key, groupId, str, now));
      s == Terminated(str) && 0 in s
  {
  }

  /** Reading an int entry back gives the int. */
  lemma IntRoundTrip(key: CString, groupId: u32, i: i32, now: Timeval)
    ensures UnpackInt(PackInt(key, groupId, i, now)) == i
  {
    var e := PackInt(key, groupId, i, now);
    assert e.data + Zeros(0) == Le32(AsUInt(i));
    Le32RoundTrip(AsUInt(i));
    Wire.IntRoundTrip(i);
  }

  /** Reading a double entry back gives the same eight bytes. */
  lemma DoubleRoundTrip(key: CString, groupId: u32, d: DoubleBytes, now: Timeval)
    ensures UnpackDouble(PackDouble(key, groupId, d, now)) == d
  {
    assert d + Zeros(0) == d;
  }

  /** Exactly one tag test accepts what each builder produces, so a test
      that passes licenses the matching reader; NULL passes none. */
  lemma ChecksDiscriminate(key: CString, groupId: u32, str: CString, i: i32, d: DoubleBytes, now: Timeval)
    ensures var e := Some(PackString(key, groupId, str, now));
      CheckIsString(e) == 0 && CheckIsInt(e) == -1 && CheckIsDouble(e) == -1
    ensures var e := Some(PackInt(key, groupId, i, now));
      CheckIsString(e) == -1 && CheckIsInt(e) == 0 && CheckIsDouble(e) == -1
    ensures var e := Some(PackDouble(key, groupId, d, now));
      CheckIsString(e) == -1 && CheckIsInt(e) == -1 && CheckIsDouble(e) == 0
    ensures CheckIsString(None) == CheckIsInt(None) == CheckIsDouble(None) == -1
  {
  }

  /** The three tests never accept the same entry. */
  lemma ChecksExclusive(e: Option<Entry>)
    ensures !(CheckIsString(e) == 0 && CheckIsInt(e) == 0)
    ensures !(CheckIsString(e) == 0 && CheckIsDouble(e) == 0)
    ensures !(CheckIsInt(e) == 0 && CheckIsDouble(e) == 0)
  {
  }
}
