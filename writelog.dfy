/**
 * The log-writing driver (server/drivers/shell/writelog.cc): its
 * configuration-time defaults, its Setup, the configuration-request
 * handler PutConfig, and one pass of its Main loop, which writes a
 * device's data only when its timestamp changed.
 *
 * Formatting and file output are not modelled: opening the log file is
 * the result `openResult`, and a write is recorded as the device index
 * and timestamp it was made for.  Locating and subscribing to the
 * underlying devices in Setup is the result `devicesOk`.  The request
 * codes and structure sizes live in player.h, which is not part of this
 * model; the values below are the model's choice.
 */
module WriteLogDriver {
  import opened Wire
  import opened Protocol
  import Drivers

  const PLAYER_LOG_SET_WRITE_STATE_REQ: byte := 1
  const PLAYER_LOG_GET_STATE_REQ: byte := 3
  const PLAYER_LOG_SET_FILENAME: byte := 5
  const PLAYER_LOG_TYPE_WRITE: byte := 2

  /** sizeof(player_log_set_write_state_t): subtype and state. */
  const SET_WRITE_STATE_SIZE: nat := 2
  /** sizeof(player_log_get_state_t): subtype, type and state. */
  const GET_STATE_SIZE: nat := 3
  /** sizeof(player_log_set_filename_t): subtype and a 256-byte name. */
  const SET_FILENAME_SIZE: nat := 257
  /** sizeof(this->filename) and the capacity of this->devices. */
  const FILENAME_SIZE: nat := 1024
  const MAX_DEVICES: nat := 1024

  /** One PutReply: the reply type and its payload. */
  datatype LogReply = LogReply(msgType: byte, data: seq<byte>)

  const NACK := LogReply(PLAYER_MSGTYPE_RESP_NACK, [])
  const ACK := LogReply(PLAYER_MSGTYPE_RESP_ACK, [])

  /** WriteLogDevice, without the driver pointer and the sonar geometry. */
  datatype LogDevice = LogDevice(id: Drivers.DeviceId, time: Drivers.Timeval, cameraFrame: int)

  /** A Write call: which device, stamped with which time. */
  datatype LogRecord = LogRecord(device: nat, time: Drivers.Timeval)

  // ------------------------------------------------------------ configuration

  /** enable_default: cf->ReadInt(section, "autorecord", 1) > 0. */
  function EnableDefault(autorecord: Option<int>): (on: bool)
    ensures autorecord.None? ==> on
    ensures autorecord.Some? ==> (on <==> autorecord.value > 0)
  {
    var v := if autorecord.Some? then autorecord.value else 1;
    v > 0
  }

  /** How many `requires` tuples are read before the first unreadable one. */
  function ReadableCount(required: seq<Option<Drivers.DeviceId>>): (n: nat)
    ensures n <= |required|
    ensures forall i :: 0 <= i < n ==> required[i].Some?
    ensures n < |required| ==> required[n].None?
  {
    if required == [] || required[0].None? then 0 else 1 + ReadableCount(required[1..])
  }

  // ------------------------------------------------------------ requests

  /** The subtype PutConfig switches on.  With an empty request the
      handler has already NACKed but reads the byte anyway; `stray` is
      whatever that byte holds. */
  function Subtype(src: seq<byte>, stray: byte): byte
  {
    if |src| >= 1 then src[0] else stray
  }

  /** The NACK an empty request gets before the switch. */
  function EarlyReplies(src: seq<byte>): seq<LogReply>
  {
    if |src| < 1 then [NACK] else []
  }

  /** The conditions under which a filename change goes ahead. */
  predicate FilenameAccepted(src: seq<byte>, stray: byte, enable: bool)
  {
    Subtype(src, stray) == PLAYER_LOG_SET_FILENAME &&
    1 + 1 <= |src| <= SET_FILENAME_SIZE && !enable
  }

  /** The reply the switch sends. */
  function Answer(src: seq<byte>, stray: byte, enable: bool, openResult: int): LogReply
  {
    var st := Subtype(src, stray);
    if st == PLAYER_LOG_SET_WRITE_STATE_REQ then
      if |src| != SET_WRITE_STATE_SIZE then NACK else ACK
    else if st == PLAYER_LOG_GET_STATE_REQ then
      if |src| != 1 then NACK
      else LogReply(PLAYER_MSGTYPE_RESP_ACK, [st, PLAYER_LOG_TYPE_WRITE, if enable then 1 else 0])
    else if st == PLAYER_LOG_SET_FILENAME then
      if |src| < 1 + 1 || |src| > SET_FILENAME_SIZE || enable || openResult < 0 then NACK else ACK
    else NACK
  }

  /** `enable` after a request. */
  function EnableAfter(src: seq<byte>, stray: byte, enable: bool): bool
  {
    if Subtype(src, stray) == PLAYER_LOG_SET_WRITE_STATE_REQ && |src| == SET_WRITE_STATE_SIZE
    then src[1] != 0 else enable
  }

  /** A request is acknowledged exactly when it is a well-sized write-state
      change, a well-sized state query, or an accepted filename change
      whose file opens; everything else, unknown subtypes included, is
      refused.  Only a state query's reply carries data, and its state
      byte is 1 exactly when logging is enabled. */
  lemma AnswerAckIff(src: seq<byte>, stray: byte, enable: bool, openResult: int)
    ensures var a := Answer(src, stray, enable, openResult); var st := Subtype(src, stray);
      (a.msgType == PLAYER_MSGTYPE_RESP_ACK <==>
         (st == PLAYER_LOG_SET_WRITE_STATE_REQ && |src| == SET_WRITE_STATE_SIZE) ||
         (st == PLAYER_LOG_GET_STATE_REQ && |src| == 1) ||
         (FilenameAccepted(src, stray, enable) && openResult >= 0)) &&
      (a.msgType != PLAYER_MSGTYPE_RESP_ACK ==> a == NACK) &&
      (a.data != [] ==> st == PLAYER_LOG_GET_STATE_REQ && |a.data| == GET_STATE_SIZE &&
                        a.data[1] == PLAYER_LOG_TYPE_WRITE && (a.data[2] == 1 <==> enable))
  {
  }

  /** Only a well-sized write-state request moves `enable`; a filename
      change is refused while logging, so the file never changes under a
      running log. */
  lemma EnableChangesOnlyByWriteState(src: seq<byte>, stray: byte, enable: bool, openResult: int)
    ensures EnableAfter(src, stray, enable) != enable ==>
      Subtype(src, stray) == PLAYER_LOG_SET_WRITE_STATE_REQ &&
      Answer(src, stray, enable, openResult) == ACK
    ensures enable ==> !FilenameAccepted(src, stray, enable)
  {
  }

  // ------------------------------------------------------------ strncpy

  /** Byte `j` of strncpy's destination, for j below the count: the source
      byte up to and including the first NUL, NUL after it. */
  function StrncpyByte(src: seq<byte>, j: nat): (b: byte)
    requires j < |src|
    ensures (0 !in src[..j]) ==> b == src[j]
    ensures (0 in src[..j]) ==> b == 0
  {
    if 0 in src[..j] then 0 else src[j]
  }

  /** A copy keeps the name up to its first NUL, and is NUL from there on. */
  lemma StrncpyKeepsName(src: seq<byte>, k: nat)
    requires k < |src| && src[k] == 0
    ensures forall j :: 0 <= j < |src| && j < k && 0 !in src[..k] ==> StrncpyByte(src, j) == src[j]
    ensures forall j :: k <= j < |src| ==> StrncpyByte(src, j) == 0
  {
    forall j | k <= j < |src|
      ensures StrncpyByte(src, j) == 0
    {
      if j > k {
        assert src[..j][k] == 0;
      }
    }
    forall j | 0 <= j < |src| && j < k && 0 !in src[..k]
      ensures StrncpyByte(src, j) == src[j]
    {
      assert forall m :: 0 <= m < j ==> src[..j][m] == src[..k][m];
    }
  }

  // ------------------------------------------------------------ Main

  /** The writes one pass of Main makes over devices from index i on:
      one per device whose new timestamp differs from the stored one. */
  function FreshReadings(stored: seq<LogDevice>, readings: seq<Drivers.Timeval>, i: nat): (out: seq<LogRecord>)
    requires |readings| <= |stored| && i <= |readings|
    ensures |out| <= |readings| - i
    ensures forall r :: r in out ==> i <= r.device < |readings| && stored[r.device].time != r.time && readings[r.device] == r.time
    decreases |readings| - i
  {
    if i == |readings| then []
    else
      (if stored[i].time == readings[i] then [] else [LogRecord(i, readings[i])]) +
      FreshReadings(stored, readings, i + 1)
  }

  /** Every device whose timestamp changed is written. */
  lemma {:induction false} FreshReadingsComplete(stored: seq<LogDevice>, readings: seq<Drivers.Timeval>, i: nat, k: nat)
    requires |readings| <= |stored| && i <= k < |readings|
    requires stored[k].time != readings[k]
    ensures LogRecord(k, readings[k]) in FreshReadings(stored, readings, i)
    decreases k - i
  {
    if i < k {
      FreshReadingsComplete(stored, readings, i + 1, k);
    }
  }

  /** After a pass stores the readings, the same readings again write
      nothing. */
  lemma {:induction false} RepeatedReadingsWriteNothing(stored: seq<LogDevice>, readings: seq<Drivers.Timeval>, i: nat)
    requires |readings| <= |stored| && i <= |readings|
    requires forall j :: i <= j < |readings| ==> stored[j].time == readings[j]
    ensures FreshReadings(stored, readings, i) == []
    decreases |readings| - i
  {
    if i < |readings| {
      RepeatedReadingsWriteNothing(stored, readings, i + 1);
    }
  }

  // ------------------------------------------------------------ the driver

  class WriteLog {
    const devices: array<LogDevice>
    var deviceCount: int
    const filename: array<byte>
    var enable: bool
    var enableDefault: bool
    var fileOpen: bool
    /** Driver::SetError's target. */
    var error: int
    var replies: seq<LogReply>
    var logged: seq<LogRecord>

    ghost predicate Valid()
      reads this
    {
      devices.Length == MAX_DEVICES && filename.Length == FILENAME_SIZE &&
      0 <= deviceCount <= MAX_DEVICES
    }

    /** The constructor: the configured file name, enable_default from
        "autorecord" and one device slot, with a zero timestamp, per
        `requires` tuple up to the first that cannot be read (which sets
        the error and stops).  More than MAX_DEVICES readable tuples trip
        the source's assert; a bad tuple among the first MAX_DEVICES stops
        the loop before that.  `name` is the configured string's bytes
        before its NUL.  The constructor never assigns `enable`, so it
        holds whatever the object's storage held: that is `unsetEnable`. */
    constructor (name: seq<byte>, autorecord: Option<int>, required: seq<Option<Drivers.DeviceId>>, unsetEnable: bool)
      requires |name| < FILENAME_SIZE && 0 !in name && ReadableCount(required) <= MAX_DEVICES
      ensures Valid() && fresh(devices) && fresh(filename)
      ensures filename[..|name|] == name && filename[|name|] == 0
      ensures !fileOpen && enable == unsetEnable && replies == [] && logged == []
      ensures enableDefault == EnableDefault(autorecord)
      ensures deviceCount == ReadableCount(required)
      ensures error == (if deviceCount < |required| then -1 else 0)
      ensures forall i :: 0 <= i < deviceCount ==>
        devices[i] == LogDevice(required[i].value, Drivers.Timeval(0, 0), 0)
    {
      devices := new LogDevice[MAX_DEVICES](_ => LogDevice(Drivers.DeviceId(0, 0, 0), Drivers.Timeval(0, 0), 0));
      filename := new byte[FILENAME_SIZE](_ => 0);
      fileOpen, enable, replies, logged, error := false, unsetEnable, [], [], 0;
      enableDefault := EnableDefault(autorecord);
      deviceCount := 0;
      new;
      CopyName(name);
      ReadDevices(required);
    }

    /** strcpy(this->filename, name) into a zeroed buffer. */
    method CopyName(name: seq<byte>)
      requires Valid() && |name| < FILENAME_SIZE && 0 !in name
      requires forall j :: 0 <= j < FILENAME_SIZE ==> filename[j] == 0
      modifies filename
      ensures filename[..|name|] == name && filename[|name|] == 0
    {
      for i := 0 to |name|
        invariant filename[..i] == name[..i]
        invariant forall j :: i <= j < FILENAME_SIZE ==> filename[j] == 0
      {
        filename[i] := name[i];
      }
    }

    /** The constructor's loop over the `requires` tuples. */
    method ReadDevices(required: seq<Option<Drivers.DeviceId>>)
      requires Valid() && deviceCount == 0 && error == 0 && ReadableCount(required) <= MAX_DEVICES
      modifies this`deviceCount, this`error, devices
      ensures Valid()
      ensures deviceCount == ReadableCount(required)
      ensures error == (if deviceCount < |required| then -1 else 0)
      ensures forall i :: 0 <= i < deviceCount ==>
        devices[i] == LogDevice(required[i].value, Drivers.Timeval(0, 0), 0)
    {
      var i := 0;
      while i < |required|
        invariant 0 <= i <= |required| && deviceCount == i && error == 0
        invariant forall j :: 0 <= j < i ==> required[j].Some?
        invariant forall j :: 0 <= j < i ==> devices[j] == LogDevice(required[j].value, Drivers.Timeval(0, 0), 0)
        decreases |required| - i
      {
        if required[i].None? {
          error := -1;
          ReadableCountStops(required, i);
          return;
        }
        ReadableCountAtLeast(required, i + 1);
        devices[deviceCount] := LogDevice(required[i].value, Drivers.Timeval(0, 0), 0);
        deviceCount := deviceCount + 1;
        i := i + 1;
      }
      ReadableCountAll(required);
    }

    /** Setup: fails when the devices cannot be located and subscribed,
        or when the log file does not open; otherwise logging starts in
        its configured default state. */
    method Setup(devicesOk: bool, openResult: int) returns (r: int)
      modifies this`enable, this`fileOpen
      ensures !devicesOk ==> r == -1 && enable == old(enable) && fileOpen == old(fileOpen)
      ensures devicesOk && openResult < 0 ==> r == -1 && enable == old(enable) && !fileOpen
      ensures devicesOk && openResult >= 0 ==> r == 0 && enable == enableDefault && fileOpen
    {
      if !devicesOk {
        return -1;
      }
      var openedOk := OpenFile(openResult);
      if openedOk < 0 {
        return -1;
      }
      enable := enableDefault;
      return 0;
    }

    method OpenFile(openResult: int) returns (r: int)
      modifies this`fileOpen
      ensures r == (if openResult < 0 then -1 else 0) && fileOpen == (openResult >= 0)
    {
      if openResult < 0 {
        fileOpen := false;
        return -1;
      }
      fileOpen := true;
      return 0;
    }

    method CloseFile()
      modifies this`fileOpen
      ensures !fileOpen
    {
      fileOpen := false;
    }

    method PutReply(reply: LogReply)
      modifies this`replies
      ensures replies == old(replies) + [reply]
    {
      replies := replies + [reply];
    }

    /** strncpy(filename, src, n) */
    method Strncpy(src: seq<byte>, n: nat)
      requires Valid() && n <= |src| && n <= FILENAME_SIZE
      modifies filename
      ensures forall j :: 0 <= j < n ==> filename[j] == StrncpyByte(src, j)
      ensures forall j :: n <= j < FILENAME_SIZE ==> filename[j] == old(filename[j])
    {
      var i := 0;
      while i < n && src[i] != 0
        invariant 0 <= i <= n
        invariant 0 !in src[..i]
        invariant forall j :: 0 <= j < i ==> filename[j] == src[j]
        invariant forall j :: i <= j < FILENAME_SIZE ==> filename[j] == old(filename[j])
        decreases n - i
      {
        filename[i] := src[i];
        assert src[..i + 1] == src[..i] + [src[i]];
        i := i + 1;
      }
      ghost var stop := i;
      assert stop < n ==> src[stop] == 0;
      while i < n
        invariant stop <= i <= n
        invariant forall j :: 0 <= j < stop ==> filename[j] == src[j]
        invariant forall j :: stop <= j < i ==> filename[j] == 0
        invariant forall j :: i <= j < FILENAME_SIZE ==> filename[j] == old(filename[j])
        decreases n - i
      {
        filename[i] := 0;
        i := i + 1;
      }
      forall j | 0 <= j < n
        ensures filename[j] == StrncpyByte(src, j)
      {
        if j < stop {
          assert src[..j] == src[..stop][..j];
        } else if j > stop {
          assert src[..j][stop] == 0;
        }
      }
    }

    /** PutConfig: replies to a write-state change, a state query or a
        filename change, NACKs anything else, and always returns 0.  The
        new file name is copied only when the change is accepted, and the
        buffer's last byte is then forced to NUL. */
    method PutConfig(src: seq<byte>, stray: byte, openResult: int) returns (r: int)
      requires Valid()
      modifies this`enable, this`fileOpen, this`replies, filename
      ensures r == 0
      ensures replies == old(replies) + EarlyReplies(src) + [Answer(src, stray, old(enable), openResult)]
      ensures enable == EnableAfter(src, stray, old(enable))
      ensures FilenameAccepted(src, stray, old(enable)) ==>
        fileOpen == (openResult >= 0) &&
        (forall j :: 0 <= j < |src| - 1 ==> filename[j] == StrncpyByte(src[1..], j)) &&
        (forall j :: |src| - 1 <= j < FILENAME_SIZE - 1 ==> filename[j] == old(filename[j])) &&
        filename[FILENAME_SIZE - 1] == 0
      ensures !FilenameAccepted(src, stray, old(enable)) ==>
        fileOpen == old(fileOpen) && filename[..] == old(filename[..])
    {
      if |src| < 1 {
        PutReply(NACK);
      }
      var subtype := if |src| >= 1 then src[0] else stray;
      if subtype == PLAYER_LOG_SET_WRITE_STATE_REQ {
        if |src| != SET_WRITE_STATE_SIZE {
          PutReply(NACK);
        } else {
          enable := src[1] != 0;
          PutReply(ACK);
        }
      } else if subtype == PLAYER_LOG_GET_STATE_REQ {
        if |src| != 1 {
          PutReply(NACK);
        } else {
          PutReply(LogReply(PLAYER_MSGTYPE_RESP_ACK, [subtype, PLAYER_LOG_TYPE_WRITE, if enable then 1 else 0]));
        }
      } else if subtype == PLAYER_LOG_SET_FILENAME {
        if |src| < 1 + 1 {
          PutReply(NACK);
        } else if |src| > SET_FILENAME_SIZE {
          PutReply(NACK);
        } else if enable {
          PutReply(NACK);
        } else {
          CloseFile();
          Strncpy(src[1..], |src| - 1);
          filename[FILENAME_SIZE - 1] := 0;
          var openedOk := OpenFile(openResult);
          if openedOk < 0 {
            PutReply(NACK);
          } else {
            PutReply(ACK);
          }
        }
      } else {
        PutReply(NACK);
      }
      return 0;
    }

    /** One pass of Main's loop, after waking on the first device, with
        `readings` the timestamps GetData reports for each device: nothing
        while logging is disabled; otherwise each device whose timestamp
        changed has it stored and is written. */
    method MainPass(readings: seq<Drivers.Timeval>)
      requires Valid() && deviceCount > 0 && |readings| == deviceCount
      modifies this`logged, devices
      ensures !enable ==> logged == old(logged) && devices[..] == old(devices[..])
      ensures enable ==> logged == old(logged) + FreshReadings(old(devices[..]), readings, 0)
      ensures enable ==> forall i :: 0 <= i < deviceCount ==>
        devices[i] == old(devices[i]).(time := readings[i])
      ensures forall i :: deviceCount <= i < MAX_DEVICES ==> devices[i] == old(devices[i])
    {
      if !enable {
        return;
      }
      ghost var stored := devices[..];
      var i := 0;
      while i < deviceCount
        invariant 0 <= i <= deviceCount
        invariant old(logged) + FreshReadings(stored, readings, 0) == logged + FreshReadings(stored, readings, i)
        invariant forall j :: 0 <= j < i ==> devices[j] == stored[j].(time := readings[j])
        invariant forall j :: i <= j < MAX_DEVICES ==> devices[j] == stored[j]
        decreases deviceCount - i
      {
        var time := readings[i];
        ghost var before := logged;
        ghost var rest := FreshReadings(stored, readings, i + 1);
        if devices[i].time == time {
          assert FreshReadings(stored, readings, i) == rest;
        } else {
          devices[i] := devices[i].(time := time);
          logged := logged + [LogRecord(i, time)];
          AppendStep(before, [LogRecord(i, time)], rest);
        }
        i := i + 1;
      }
    }
  }

  lemma ReadableCountStops(required: seq<Option<Drivers.DeviceId>>, i: nat)
    requires i < |required| && required[i].None?
    requires forall j :: 0 <= j < i ==> required[j].Some?
    ensures ReadableCount(required) == i
  {
    if i > 0 {
      ReadableCountStops(required[1..], i - 1);
    }
  }

  /** When the first k tuples all read, at least k are counted. */
  lemma {:induction false} ReadableCountAtLeast(required: seq<Option<Drivers.DeviceId>>, k: nat)
    requires k <= |required| && forall j :: 0 <= j < k ==> required[j].Some?
    ensures ReadableCount(required) >= k
    decreases k
  {
    if k > 0 {
      assert forall j :: 0 <= j < k - 1 ==> required[1..][j] == required[j + 1];
      ReadableCountAtLeast(required[1..], k - 1);
    }
  }

  lemma ReadableCountAll(required: seq<Option<Drivers.DeviceId>>)
    requires forall j :: 0 <= j < |required| ==> required[j].Some?
    ensures ReadableCount(required) == |required|
  {
    if required != [] {
      ReadableCountAll(required[1..]);
    }
  }
}
