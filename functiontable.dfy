/**
 * The XDR dispatch table (libplayerxdr/functiontable.c): an append-only
 * table of (interface, message type, subtype) -> pack function, searched
 * front to back.  The interface and subtype codes live in player.h, which
 * is not part of this model; the values below are the model's choice and
 * the proofs only use that the message-type codes are distinct.
 *
 * The lookup's condition contains `type = PLAYER_MSGTYPE_RESP_ACK`, an
 * assignment.  FindFrom models it as written; FindIntended is the lookup
 * its comment describes.
 */
module XdrFunctionTable {
  import opened Wire
  import opened Protocol

  /** The pack functions the built-in table names; they are opaque here. */
  datatype PackFn =
    | DevlistPack | DriverinfoPack | DevReqPack | DataReqPack | DatamodeReqPack
    | DatafreqReqPack | AuthReqPack | NameserviceReqPack
    | LaserDataPack | SonarDataPack | SonarGeomPack
    | Position2dDataPack | Position2dCmdPack

  /** playerxdr_function_t; a NULL func is None. */
  datatype FuncEntry = FuncEntry(interf: u16, msgType: byte, subtype: byte, func: Option<PackFn>)

  const PLAYER_PLAYER_CODE: u16 := 1
  const PLAYER_POSITION2D_CODE: u16 := 4
  const PLAYER_SONAR_CODE: u16 := 5
  const PLAYER_LASER_CODE: u16 := 6

  /** init_ftable: thirteen built-in entries and the all-zero sentinel. */
  const INIT_FTABLE: seq<FuncEntry> := [
    FuncEntry(PLAYER_PLAYER_CODE, PLAYER_MSGTYPE_REQ, 1, Some(DevlistPack)),
    FuncEntry(PLAYER_PLAYER_CODE, PLAYER_MSGTYPE_REQ, 2, Some(DriverinfoPack)),
    FuncEntry(PLAYER_PLAYER_CODE, PLAYER_MSGTYPE_REQ, 3, Some(DevReqPack)),
    FuncEntry(PLAYER_PLAYER_CODE, PLAYER_MSGTYPE_REQ, 4, Some(DataReqPack)),
    FuncEntry(PLAYER_PLAYER_CODE, PLAYER_MSGTYPE_REQ, 5, Some(DatamodeReqPack)),
    FuncEntry(PLAYER_PLAYER_CODE, PLAYER_MSGTYPE_REQ, 6, Some(DatafreqReqPack)),
    FuncEntry(PLAYER_PLAYER_CODE, PLAYER_MSGTYPE_REQ, 7, Some(AuthReqPack)),
    FuncEntry(PLAYER_PLAYER_CODE, PLAYER_MSGTYPE_REQ, 8, Some(NameserviceReqPack)),
    FuncEntry(PLAYER_LASER_CODE, PLAYER_MSGTYPE_DATA, 1, Some(LaserDataPack)),
    FuncEntry(PLAYER_SONAR_CODE, PLAYER_MSGTYPE_DATA, 1, Some(SonarDataPack)),
    FuncEntry(PLAYER_SONAR_CODE, PLAYER_MSGTYPE_REQ, 1, Some(SonarGeomPack)),
    FuncEntry(PLAYER_POSITION2D_CODE, PLAYER_MSGTYPE_DATA, 1, Some(Position2dDataPack)),
    FuncEntry(PLAYER_POSITION2D_CODE, PLAYER_MSGTYPE_CMD, 1, Some(Position2dCmdPack)),
    FuncEntry(0, 0, 0, None)
  ]

  // ------------------------------------------------------------ the lookup as written

  /** One test of the loop's condition, as written: whether entry `e`
      matches, and the value `type` holds afterwards.  The assignment is
      reached only when the interface agrees, the types differ and the
      entry is REQ; it stores RESP_ACK, which is non-zero, so that
      disjunct is true. */
  function TestAsWritten(e: FuncEntry, interf: u16, msgType: byte, subtype: byte): (res: (bool, byte))
    ensures res.0 ==> e.interf == interf && e.subtype == subtype
    ensures res.1 == msgType || res.1 == PLAYER_MSGTYPE_RESP_ACK
  {
    if e.interf != interf then (false, msgType)
    else if e.msgType == msgType then (e.subtype == subtype, msgType)
    else if e.msgType == PLAYER_MSGTYPE_REQ then (e.subtype == subtype, PLAYER_MSGTYPE_RESP_ACK)
    else (false, msgType)
  }

  /** The index get_func's loop stops at when started at `i` with the
      current value `msgType` of its `type` variable. */
  function FindFrom(table: seq<FuncEntry>, i: nat, interf: u16, msgType: byte, subtype: byte): (r: Option<nat>)
    requires i <= |table|
    ensures r.Some? ==> i <= r.value < |table|
    ensures r.Some? ==> table[r.value].interf == interf && table[r.value].subtype == subtype
    decreases |table| - i
  {
    if i == |table| then None
    else
      var t := TestAsWritten(table[i], interf, msgType, subtype);
      if t.0 then Some(i) else FindFrom(table, i + 1, interf, t.1, subtype)
  }

  function FindAsWritten(table: seq<FuncEntry>, interf: u16, msgType: byte, subtype: byte): Option<nat>
  {
    FindFrom(table, 0, interf, msgType, subtype)
  }

  /** What a lookup result hands back: the entry's func, NULL when none. */
  function FuncAt(table: seq<FuncEntry>, r: Option<nat>): Option<PackFn>
    requires r.Some? ==> r.value < |table|
  {
    match r
    case None => None
    case Some(k) => table[k].func
  }

  // ------------------------------------------------------------ the lookup as intended

  /** The condition the comment describes: interface and subtype agree,
      and the type agrees or is RESP_ACK for a REQ registration. */
  predicate Matches(e: FuncEntry, interf: u16, msgType: byte, subtype: byte)
  {
    e.interf == interf && e.subtype == subtype &&
    (e.msgType == msgType || (e.msgType == PLAYER_MSGTYPE_REQ && msgType == PLAYER_MSGTYPE_RESP_ACK))
  }

  /** The first entry from `i` on that Matches. */
  function FindIntendedFrom(table: seq<FuncEntry>, i: nat, interf: u16, msgType: byte, subtype: byte): (r: Option<nat>)
    requires i <= |table|
    ensures r.Some? ==> i <= r.value < |table| && Matches(table[r.value], interf, msgType, subtype)
    ensures r.Some? ==> forall j :: i <= j < r.value ==> !Matches(table[j], interf, msgType, subtype)
    ensures r.None? ==> forall j :: i <= j < |table| ==> !Matches(table[j], interf, msgType, subtype)
    decreases |table| - i
  {
    if i == |table| then None
    else if Matches(table[i], interf, msgType, subtype) then Some(i)
    else FindIntendedFrom(table, i + 1, interf, msgType, subtype)
  }

  function FindIntended(table: seq<FuncEntry>, interf: u16, msgType: byte, subtype: byte): (r: Option<nat>)
    ensures r.Some? ==> r.value < |table|
  {
    FindIntendedFrom(table, 0, interf, msgType, subtype)
  }

  // ------------------------------------------------------------ properties

  /** For REQ and RESP_ACK queries the assignment is harmless: `type`
      never changes (for REQ the assigning branch is unreachable, for
      RESP_ACK it stores the value already held) and the lookup agrees
      with the intended one. */
  lemma {:induction false} AsWrittenAgreesOnReqAndAck(table: seq<FuncEntry>, i: nat, interf: u16, msgType: byte, subtype: byte)
    requires i <= |table|
    requires msgType == PLAYER_MSGTYPE_REQ || msgType == PLAYER_MSGTYPE_RESP_ACK
    ensures FindFrom(table, i, interf, msgType, subtype) == FindIntendedFrom(table, i, interf, msgType, subtype)
    decreases |table| - i
  {
    if i < |table| {
      AsWrittenAgreesOnReqAndAck(table, i + 1, interf, msgType, subtype);
    }
  }

  /** A REQ entry answers a RESP_ACK query with the same interface and
      subtype, unless an earlier entry already answers it. */
  lemma ReqAnswersRespAck(table: seq<FuncEntry>, k: nat, interf: u16, subtype: byte)
    requires k < |table|
    requires table[k].interf == interf && table[k].subtype == subtype && table[k].msgType == PLAYER_MSGTYPE_REQ
    ensures var r := FindAsWritten(table, interf, PLAYER_MSGTYPE_RESP_ACK, subtype); r.Some? && r.value <= k
  {
    AsWrittenAgreesOnReqAndAck(table, 0, interf, PLAYER_MSGTYPE_RESP_ACK, subtype);
  }

  /** As written, a REQ entry whose interface and subtype agree matches
      whatever the queried type is: the lookup stops there or earlier. */
  lemma {:induction false} AsWrittenReqMatchesAnyType(table: seq<FuncEntry>, i: nat, k: nat, interf: u16, msgType: byte, subtype: byte)
    requires i <= k < |table|
    requires table[k].interf == interf && table[k].subtype == subtype && table[k].msgType == PLAYER_MSGTYPE_REQ
    ensures var r := FindFrom(table, i, interf, msgType, subtype); r.Some? && r.value <= k
    decreases k - i
  {
    var t := TestAsWritten(table[i], interf, msgType, subtype);
    if !t.0 {
      AsWrittenReqMatchesAnyType(table, i + 1, k, interf, t.1, subtype);
    }
  }

  /** As written, once a REQ entry of the queried interface has been
      tested against another type, `type` holds RESP_ACK for the rest of
      the loop. */
  lemma AsWrittenOverwritesType(e: FuncEntry, interf: u16, msgType: byte, subtype: byte)
    requires e.interf == interf && e.msgType == PLAYER_MSGTYPE_REQ && msgType != PLAYER_MSGTYPE_REQ
    ensures TestAsWritten(e, interf, msgType, subtype).1 == PLAYER_MSGTYPE_RESP_ACK
  {
  }

  /** An entry registered with exactly the queried type matches, provided
      no earlier REQ entry of that interface has overwritten `type`. */
  lemma {:induction false} ExactTypeMatches(table: seq<FuncEntry>, i: nat, k: nat, interf: u16, msgType: byte, subtype: byte)
    requires i <= k < |table|
    requires table[k].interf == interf && table[k].subtype == subtype && table[k].msgType == msgType
    requires forall j :: i <= j < k && table[j].interf == interf ==> table[j].msgType != PLAYER_MSGTYPE_REQ || msgType == PLAYER_MSGTYPE_REQ
    ensures var r := FindFrom(table, i, interf, msgType, subtype); r.Some? && r.value <= k
    decreases k - i
  {
    var t := TestAsWritten(table[i], interf, msgType, subtype);
    if !t.0 {
      assert t.1 == msgType;
      ExactTypeMatches(table, i + 1, k, interf, msgType, subtype);
    }
  }

  /** Appending an entry never changes a lookup that already succeeded,
      in either reading of the condition. */
  lemma {:induction false} AddKeepsEarlierAnswers(table: seq<FuncEntry>, f: FuncEntry, i: nat, interf: u16, msgType: byte, subtype: byte)
    requires i <= |table|
    ensures FindFrom(table, i, interf, msgType, subtype).Some? ==>
      FindFrom(table + [f], i, interf, msgType, subtype) == FindFrom(table, i, interf, msgType, subtype)
    ensures FindIntendedFrom(table, i, interf, msgType, subtype).Some? ==>
      FindIntendedFrom(table + [f], i, interf, msgType, subtype) == FindIntendedFrom(table, i, interf, msgType, subtype)
    decreases |table| - i
  {
    if i < |table| {
      assert (table + [f])[i] == table[i];
      var t := TestAsWritten(table[i], interf, msgType, subtype);
      AddKeepsEarlierAnswers(table, f, i + 1, interf, t.1, subtype);
      AddKeepsEarlierAnswers(table, f, i + 1, interf, msgType, subtype);
    }
  }

  /** A REQ registration answers a DATA query for the same interface and
      subtype, which the intended lookup does not. */
  lemma AsWrittenAnswersWrongType()
    ensures var table := [FuncEntry(PLAYER_SONAR_CODE, PLAYER_MSGTYPE_REQ, 1, Some(SonarGeomPack))];
      FindAsWritten(table, PLAYER_SONAR_CODE, PLAYER_MSGTYPE_DATA, 1) == Some(0) &&
      FindIntended(table, PLAYER_SONAR_CODE, PLAYER_MSGTYPE_DATA, 1) == None
  {
  }

  /** A REQ registration with another subtype overwrites `type`, so a
      later exact DATA registration is missed; the intended lookup finds
      it. */
  lemma AsWrittenMissesLaterEntry()
    ensures var table := [FuncEntry(PLAYER_SONAR_CODE, PLAYER_MSGTYPE_REQ, 1, Some(SonarGeomPack)),
                          FuncEntry(PLAYER_SONAR_CODE, PLAYER_MSGTYPE_DATA, 2, Some(SonarDataPack))];
      FindAsWritten(table, PLAYER_SONAR_CODE, PLAYER_MSGTYPE_DATA, 2) == None &&
      FindIntended(table, PLAYER_SONAR_CODE, PLAYER_MSGTYPE_DATA, 2) == Some(1)
  {
    var table := [FuncEntry(PLAYER_SONAR_CODE, PLAYER_MSGTYPE_REQ, 1, Some(SonarGeomPack)),
                  FuncEntry(PLAYER_SONAR_CODE, PLAYER_MSGTYPE_DATA, 2, Some(SonarDataPack))];
    assert TestAsWritten(table[0], PLAYER_SONAR_CODE, PLAYER_MSGTYPE_DATA, 2) == (false, PLAYER_MSGTYPE_RESP_ACK);
    assert FindFrom(table, 1, PLAYER_SONAR_CODE, PLAYER_MSGTYPE_RESP_ACK, 2) == None;
    assert FindIntendedFrom(table, 1, PLAYER_SONAR_CODE, PLAYER_MSGTYPE_DATA, 2) == Some(1);
  }

  // ------------------------------------------------------------ the table

  /** The static `ftable` and `ftable_len`. */
  class FunctionTable {
    var ftable: seq<FuncEntry>
    var ftableLen: int

    ghost predicate Valid()
      reads this
    {
      ftableLen == |ftable|
    }

    /** Before initialisation: static storage is zero. */
    constructor ()
      ensures Valid() && ftable == []
    {
      ftable, ftableLen := [], 0;
    }

    /** playerxdr_ftable_init: counts the built-in entries up to the
        first NULL func and copies exactly those. */
    method Init()
      modifies this
      ensures Valid()
      ensures ftableLen < |INIT_FTABLE| && INIT_FTABLE[ftableLen].func.None?
      ensures forall i :: 0 <= i < ftableLen ==> INIT_FTABLE[i].func.Some?
      ensures ftable == INIT_FTABLE[..ftableLen]
      ensures ftableLen == 13
    {
      ftableLen := 0;
      while INIT_FTABLE[ftableLen].func.Some?
        invariant 0 <= ftableLen <= 13
        invariant forall i :: 0 <= i < ftableLen ==> INIT_FTABLE[i].func.Some?
        decreases 13 - ftableLen
      {
        ftableLen := ftableLen + 1;
      }
      ftable := INIT_FTABLE[..ftableLen];
    }

    /** playerxdr_ftable_add: the new entry goes at index ftable_len. */
    method Add(f: FuncEntry)
      requires Valid()
      modifies this
      ensures Valid()
      ensures ftableLen == old(ftableLen) + 1 && ftable[old(ftableLen)] == f
      ensures ftable[..old(ftableLen)] == old(ftable)
      ensures ftable == old(ftable) + [f]
    {
      ftable := ftable + [f];
      ftableLen := ftableLen + 1;
    }

    /** playerxdr_get_func, as written: the loop overwrites `type`. */
    method GetFunc(interf: u16, msgType: byte, subtype: byte) returns (r: Option<PackFn>)
      requires Valid()
      ensures r == FuncAt(ftable, FindAsWritten(ftable, interf, msgType, subtype))
    {
      var t := msgType;
      var i := 0;
      while i < ftableLen
        invariant 0 <= i <= ftableLen
        invariant FindAsWritten(ftable, interf, msgType, subtype) == FindFrom(ftable, i, interf, t, subtype)
        decreases ftableLen - i
      {
        var curr := ftable[i];
        // the condition, evaluated left to right with short-circuiting
        if curr.interf == interf {
          var typeOk := curr.msgType == t;
          if !typeOk && curr.msgType == PLAYER_MSGTYPE_REQ {
            t := PLAYER_MSGTYPE_RESP_ACK;
            typeOk := t != 0;
          }
          if typeOk && curr.subtype == subtype {
            return curr.func;
          }
        }
        i := i + 1;
      }
      return None;
    }

    /** The lookup with the comparison the comment describes. */
    method GetFuncIntended(interf: u16, msgType: byte, subtype: byte) returns (r: Option<PackFn>)
      requires Valid()
      ensures r == FuncAt(ftable, FindIntended(ftable, interf, msgType, subtype))
    {
      var i := 0;
      while i < ftableLen
        invariant 0 <= i <= ftableLen
        invariant FindIntended(ftable, interf, msgType, subtype) == FindIntendedFrom(ftable, i, interf, msgType, subtype)
        decreases ftableLen - i
      {
        var curr := ftable[i];
        if curr.interf == interf && (curr.msgType == msgType ||
            (curr.msgType == PLAYER_MSGTYPE_REQ && msgType == PLAYER_MSGTYPE_RESP_ACK)) &&
            curr.subtype == subtype {
          return curr.func;
        }
        i := i + 1;
      }
      return None;
    }
  }
}
