/**
 * The driver base class (server/driver.cc): construction and interface
 * registration, the reference-counted subscription state machine, the
 * tolerant PutMsg forwarding and the ProcessMessages pump.
 *
 * The device table and the client manager belong to other files, which
 * are not part of this model; they are given here as small classes with
 * the behaviour driver.cc relies on (a lookup by id, and a send that is
 * recorded).  Setup, Shutdown and ProcessMessage are virtual methods of
 * the concrete driver: their results are parameters.  GlobalTime is the
 * parameter `now`.
 */
module Drivers {
  import opened Wire
  import opened Protocol

  /** player_device_id_t */
  datatype DeviceId = DeviceId(code: int, index: int, port: int)

  /** struct timeval */
  datatype Timeval = Timeval(sec: int, usec: int)

  const INT_MAX: int := 0x7FFF_FFFF

  /** A connected client; only its port takes part here. */
  class ClientData {
    const port: int

    constructor (port: int)
      ensures this.port == port
    {
      this.port := port;
    }
  }

  /** One call of clientmanager->PutMsg. */
  datatype Outgoing = Outgoing(
    msgType: u16, code: int, index: int, sec: int, usec: int,
    data: seq<byte>, client: ClientData?)

  /** The client manager, reduced to the record of what it was asked to send. */
  class ClientManager {
    var sent: seq<Outgoing>

    constructor ()
      ensures sent == []
    {
      sent := [];
    }

    method PutMsg(o: Outgoing)
      modifies this
      ensures sent == old(sent) + [o]
    {
      sent := sent + [o];
    }
  }

  datatype DeviceEntry = DeviceEntry(access: byte, driver: Driver)

  /** The device table, reduced to a map from id to entry.  AddDevice
      refuses an id that is already registered. */
  class DeviceTable {
    var devices: map<DeviceId, DeviceEntry>

    constructor ()
      ensures devices == map[]
    {
      devices := map[];
    }

    method AddDevice(id: DeviceId, access: byte, driver: Driver) returns (r: int)
      modifies this
      ensures id in old(devices) ==> r == -1 && devices == old(devices)
      ensures id !in old(devices) ==> r == 0 && devices == old(devices)[id := DeviceEntry(access, driver)]
    {
      if id in devices {
        return -1;
      }
      devices := devices[id := DeviceEntry(access, driver)];
      return 0;
    }

    function GetDevice(id: DeviceId): (d: Option<DeviceEntry>)
      reads this
      ensures d.Some? <==> id in devices
      ensures d.Some? ==> d.value == devices[id]
    {
      if id in devices then Some(devices[id]) else None
    }
  }

  /** What one PutMsg forwards to the client manager: nothing when the id
      is not in the table, otherwise one message stamped with the given
      timestamp, or with the current time when none is given. */
  function Delivery(devices: map<DeviceId, DeviceEntry>, id: DeviceId, client: ClientData?,
                    msgType: u16, src: seq<byte>, timestamp: Option<Timeval>, now: Timeval): (out: seq<Outgoing>)
    ensures |out| <= 1
    ensures out == [] <==> id !in devices
    ensures out != [] ==>
      var ts := if timestamp.Some? then timestamp.value else now;
      out[0] == Outgoing(msgType, id.code, id.index, ts.sec, ts.usec, src, client)
  {
    if id !in devices then []
    else
      var ts := match timestamp case Some(t) => t case None => now;
      [Outgoing(msgType, id.code, id.index, ts.sec, ts.usec, src, client)]
  }

  /** A message waiting in the driver's inbound queue. */
  datatype Queued = Queued(hdr: MsgHeader, payload: seq<byte>, client: ClientData)

  /** What ProcessMessage hands back: its return value and the reply bytes
      it wrote into RespData (RespLen of them). */
  datatype Reply = Reply(ret: int, data: seq<byte>)

  /** Warnings ProcessMessages logs. */
  datatype Warning =
    | SizeMismatch(payloadSize: nat, declared: u32)
    | Unhandled(device: u16, index: u16, msgType: byte, size: u32)

  /** The id the header-based PutMsg builds: device and index from the
      header, port from the client. */
  function ReplyId(hdr: MsgHeader, client: ClientData): DeviceId
  {
    DeviceId(hdr.device, hdr.deviceIndex, client.port)
  }

  /** What ProcessMessages sends for one message: a reply, typed with the
      handler's result as an unsigned short, exactly when the handler
      returned a positive value (and the reply's device is registered). */
  function ReplyFor(m: Queued, handler: (ClientData, MsgHeader, seq<byte>) -> Reply,
                    devices: map<DeviceId, DeviceEntry>, now: Timeval): (out: seq<Outgoing>)
    ensures |out| <= 1
    ensures handler(m.client, m.hdr, m.payload).ret <= 0 ==> out == []
    ensures var rep := handler(m.client, m.hdr, m.payload);
      rep.ret > 0 ==>
        out == Delivery(devices, ReplyId(m.hdr, m.client), m.client, rep.ret % 0x1_0000, rep.data, None, now)
  {
    var rep := handler(m.client, m.hdr, m.payload);
    if rep.ret > 0 then
      Delivery(devices, ReplyId(m.hdr, m.client), m.client, rep.ret % 0x1_0000, rep.data, None, now)
    else []
  }

  /** The warnings logged for one message. */
  function WarningsFor(m: Queued, handler: (ClientData, MsgHeader, seq<byte>) -> Reply): seq<Warning>
  {
    (if |m.payload| != m.hdr.size then [SizeMismatch(|m.payload|, m.hdr.size)] else []) +
    (if handler(m.client, m.hdr, m.payload).ret < 0
     then [Unhandled(m.hdr.device, m.hdr.deviceIndex, m.hdr.msgType, m.hdr.size)] else [])
  }

  /** Everything the pump sends for a queue, in queue order. */
  function Pump(q: seq<Queued>, handler: (ClientData, MsgHeader, seq<byte>) -> Reply,
                devices: map<DeviceId, DeviceEntry>, now: Timeval): seq<Outgoing>
    decreases |q|
  {
    if q == [] then [] else ReplyFor(q[0], handler, devices, now) + Pump(q[1..], handler, devices, now)
  }

  function PumpWarnings(q: seq<Queued>, handler: (ClientData, MsgHeader, seq<byte>) -> Reply): seq<Warning>
    decreases |q|
  {
    if q == [] then [] else WarningsFor(q[0], handler) + PumpWarnings(q[1..], handler)
  }

  /** The pump sends at most one reply per message, and none at all when
      the handler never returns a positive value. */
  lemma {:induction false} PumpAtMostOnePerMessage(q: seq<Queued>, handler: (ClientData, MsgHeader, seq<byte>) -> Reply,
                                                   devices: map<DeviceId, DeviceEntry>, now: Timeval)
    ensures |Pump(q, handler, devices, now)| <= |q|
    ensures (forall i :: 0 <= i < |q| ==> handler(q[i].client, q[i].hdr, q[i].payload).ret <= 0) ==>
      Pump(q, handler, devices, now) == []
    decreases |q|
  {
    if q != [] {
      PumpAtMostOnePerMessage(q[1..], handler, devices, now);
      assert forall i :: 0 <= i < |q[1..]| ==> q[1..][i] == q[i + 1];
    }
  }

  /** When every reply has a registered device and every handler result is
      positive, the pump answers every message, in order, each reply typed
      with its handler's result. */
  lemma {:induction false} PumpAnswersEveryMessage(q: seq<Queued>, handler: (ClientData, MsgHeader, seq<byte>) -> Reply,
                                                   devices: map<DeviceId, DeviceEntry>, now: Timeval)
    requires forall i :: 0 <= i < |q| ==> handler(q[i].client, q[i].hdr, q[i].payload).ret > 0
    requires forall i :: 0 <= i < |q| ==> ReplyId(q[i].hdr, q[i].client) in devices
    ensures var out := Pump(q, handler, devices, now);
      |out| == |q| &&
      forall i :: 0 <= i < |q| ==> out[i].msgType == handler(q[i].client, q[i].hdr, q[i].payload).ret % 0x1_0000
    decreases |q|
  {
    if q != [] {
      assert forall i :: 0 <= i < |q[1..]| ==> q[1..][i] == q[i + 1];
      PumpAnswersEveryMessage(q[1..], handler, devices, now);
    }
  }

  // ------------------------------------------------------------ subscriptions

  /** The subscription count together with how often Setup and Shutdown
      were called and how often they succeeded. */
  datatype SubState = SubState(subscriptions: int, setupCalls: nat, setupOk: nat, shutdownCalls: nat, shutdownOk: nat)

  /** Subscribe, given what Setup would return.  Yields the new state and
      Subscribe's result. */
  function SubscribeStep(s: SubState, setupResult: int): (SubState, int)
  {
    if s.subscriptions == 0 then
      (s.(subscriptions := if setupResult == 0 then 1 else 0,
          setupCalls := s.setupCalls + 1,
          setupOk := s.setupOk + if setupResult == 0 then 1 else 0), setupResult)
    else (s.(subscriptions := s.subscriptions + 1), 0)
  }

  /** Unsubscribe, given what Shutdown would return. */
  function UnsubscribeStep(s: SubState, shutdownResult: int): (SubState, int)
  {
    if s.subscriptions == 0 then (s, -1)
    else if s.subscriptions == 1 then
      (s.(subscriptions := if shutdownResult == 0 then 0 else 1,
          shutdownCalls := s.shutdownCalls + 1,
          shutdownOk := s.shutdownOk + if shutdownResult == 0 then 1 else 0), shutdownResult)
    else (s.(subscriptions := s.subscriptions - 1), 0)
  }

  /** A client's subscribe or unsubscribe, with the result the driver's
      Setup or Shutdown gives. */
  datatype SubEvent = Sub(setupResult: int) | Unsub(shutdownResult: int)

  function Run(s: SubState, events: seq<SubEvent>): SubState
    decreases |events|
  {
    if events == [] then s
    else
      var next := match events[0]
        case Sub(r) => SubscribeStep(s, r).0
        case Unsub(r) => UnsubscribeStep(s, r).0;
      Run(next, events[1..])
  }

  /** The driver is set up (one more successful Setup than successful
      Shutdown) exactly while it has subscribers, and the count is never
      negative. */
  ghost predicate SubInv(s: SubState)
  {
    s.subscriptions >= 0 &&
    s.setupOk == s.shutdownOk + (if s.subscriptions > 0 then 1 else 0)
  }

  /** Each step keeps SubInv, calls Setup only on the first subscription
      and Shutdown only on the last unsubscription, and moves the count
      by at most one. */
  lemma StepsKeepSubInv(s: SubState, r: int)
    requires SubInv(s)
    ensures SubInv(SubscribeStep(s, r).0) && SubInv(UnsubscribeStep(s, r).0)
    ensures SubscribeStep(s, r).0.setupCalls == s.setupCalls + (if s.subscriptions == 0 then 1 else 0)
    ensures UnsubscribeStep(s, r).0.shutdownCalls == s.shutdownCalls + (if s.subscriptions == 1 then 1 else 0)
    ensures var t := SubscribeStep(s, r).0.subscriptions; t == s.subscriptions || t == s.subscriptions + 1
    ensures var t := UnsubscribeStep(s, r).0.subscriptions; t == s.subscriptions || t == s.subscriptions - 1
  {
  }

  /** Across any sequence of subscribes and unsubscribes from a freshly
      built driver, SubInv holds: the count stays >= 0 and the driver is
      set up exactly while somebody is subscribed. */
  lemma {:induction false} RunKeepsSubInv(s: SubState, events: seq<SubEvent>)
    requires SubInv(s)
    ensures SubInv(Run(s, events))
    decreases |events|
  {
    if events != [] {
      var next := match events[0]
        case Sub(r) => SubscribeStep(s, r).0
        case Unsub(r) => UnsubscribeStep(s, r).0;
      match events[0] {
        case Sub(r) => StepsKeepSubInv(s, r);
        case Unsub(r) => StepsKeepSubInv(s, r);
      }
      RunKeepsSubInv(next, events[1..]);
    }
  }

  /** Two clients that subscribe and then both unsubscribe, with Setup and
      Shutdown succeeding, cause exactly one Setup and one Shutdown. */
  lemma {:induction false} TwoClientsOneSetup(s: SubState)
    requires s.subscriptions == 0
    ensures var t := Run(s, [Sub(0), Sub(0), Unsub(0), Unsub(0)]);
      t.subscriptions == 0 && t.setupCalls == s.setupCalls + 1 && t.shutdownCalls == s.shutdownCalls + 1
  {
    var e := [Sub(0), Sub(0), Unsub(0), Unsub(0)];
    assert e[1..] == [Sub(0), Unsub(0), Unsub(0)];
    assert e[1..][1..] == [Unsub(0), Unsub(0)];
    assert e[1..][1..][1..] == [Unsub(0)];
  }

  // ------------------------------------------------------------ the driver

  class Driver {
    var subscriptions: int
    var entries: int
    var alwayson: bool
    var error: int
    var deviceId: DeviceId
    /** The inbound queue ProcessMessages drains, front first. */
    var InQueue: seq<Queued>
    /** The global device table and client manager. */
    const table: DeviceTable
    const clients: ClientManager

    ghost var setupCalls: nat
    ghost var setupOk: nat
    ghost var shutdownCalls: nat
    ghost var shutdownOk: nat
    /** DataAvailable broadcasts on the driver's condition variable. */
    ghost var broadcasts: nat
    ghost var warnings: seq<Warning>

    ghost function State(): SubState
      reads this
    {
      SubState(subscriptions, setupCalls, setupOk, shutdownCalls, shutdownOk)
    }

    /** The single-interface constructor.  `configured` is what
        ReadDeviceId finds in the configuration (None when it fails).
        On failure it sets error to -1 and returns before initialising
        the subscription fields. */
    constructor (configured: Option<DeviceId>, access: byte, table: DeviceTable, clients: ClientManager)
      modifies table
      ensures this.table == table && this.clients == clients && InQueue == []
      ensures setupCalls == setupOk == shutdownCalls == shutdownOk == broadcasts == 0 && warnings == []
      ensures configured.None? ==> error == -1 && table.devices == old(table.devices)
      ensures configured.Some? ==> deviceId == configured.value
      ensures configured.Some? && configured.value in old(table.devices) ==>
        error == -1 && table.devices == old(table.devices)
      ensures configured.Some? && configured.value !in old(table.devices) ==>
        error == 0 && subscriptions == 0 && entries == 0 && !alwayson &&
        table.devices == old(table.devices)[configured.value := DeviceEntry(access, this)]
    {
      this.table := table;
      this.clients := clients;
      InQueue := [];
      error := 0;
      setupCalls, setupOk, shutdownCalls, shutdownOk, broadcasts := 0, 0, 0, 0, 0;
      warnings := [];
      new;
      if configured.None? {
        error := -1;
        return;
      }
      deviceId := configured.value;
      var r := AddInterface(deviceId, access);
      if r != 0 {
        error := -1;
        return;
      }
      subscriptions := 0;
      entries := 0;
      alwayson := false;
    }

    /** The multi-interface constructor: no interface yet, device code
        INT_MAX. */
    constructor Multi(table: DeviceTable, clients: ClientManager)
      ensures this.table == table && this.clients == clients && InQueue == []
      ensures deviceId.code == INT_MAX
      ensures subscriptions == 0 && entries == 0 && !alwayson && error == 0
      ensures setupCalls == setupOk == shutdownCalls == shutdownOk == broadcasts == 0 && warnings == []
    {
      this.table := table;
      this.clients := clients;
      InQueue := [];
      deviceId := DeviceId(INT_MAX, 0, 0);
      subscriptions := 0;
      entries := 0;
      alwayson := false;
      error := 0;
      setupCalls, setupOk, shutdownCalls, shutdownOk, broadcasts := 0, 0, 0, 0, 0;
      warnings := [];
    }

    /** Registers this driver under `id`: -1 when the table refuses it,
        otherwise 0, and the id then leads to this driver. */
    method AddInterface(id: DeviceId, access: byte) returns (r: int)
      modifies table
      ensures id in old(table.devices) ==> r == -1 && table.devices == old(table.devices)
      ensures id !in old(table.devices) ==> r == 0 && table.devices == old(table.devices)[id := DeviceEntry(access, this)]
      ensures r == 0 ==> table.GetDevice(id) == Some(DeviceEntry(access, this))
    {
      var added := table.AddDevice(id, access, this);
      if added != 0 {
        return -1;
      }
      var device := table.GetDevice(id);
      assert device.Some?;
      return 0;
    }

    /** DataAvailable: wakes the drivers waiting on this one. */
    method DataAvailable()
      modifies this`broadcasts
      ensures broadcasts == old(broadcasts) + 1
    {
      broadcasts := broadcasts + 1;
    }

    /** Subscribe: the first subscription runs Setup (with result
        `setupResult`) and counts only if it succeeds; later ones just
        count. */
    method Subscribe(id: DeviceId, setupResult: int) returns (r: int)
      modifies this`subscriptions, this`setupCalls, this`setupOk
      ensures (State(), r) == SubscribeStep(old(State()), setupResult)
      ensures old(subscriptions) == 0 ==>
        r == setupResult && setupCalls == old(setupCalls) + 1 &&
        subscriptions == (if setupResult == 0 then 1 else 0)
      ensures old(subscriptions) != 0 ==>
        r == 0 && setupCalls == old(setupCalls) && subscriptions == old(subscriptions) + 1
    {
      if subscriptions == 0 {
        setupCalls := setupCalls + 1;
        r := setupResult;
        if r == 0 {
          setupOk := setupOk + 1;
          subscriptions := subscriptions + 1;
        }
      } else {
        subscriptions := subscriptions + 1;
        r := 0;
      }
    }

    /** Unsubscribe: -1 with no effect when nobody is subscribed; the last
        subscription runs Shutdown (result `shutdownResult`), always wakes
        waiters, and is dropped only if Shutdown succeeds; others just
        count down. */
    method Unsubscribe(id: DeviceId, shutdownResult: int) returns (r: int)
      modifies this`subscriptions, this`shutdownCalls, this`shutdownOk, this`broadcasts
      ensures (State(), r) == UnsubscribeStep(old(State()), shutdownResult)
      ensures old(subscriptions) == 0 ==> r == -1 && unchanged(this)
      ensures old(subscriptions) == 1 ==>
        r == shutdownResult && shutdownCalls == old(shutdownCalls) + 1 &&
        broadcasts == old(broadcasts) + 1 && subscriptions == (if shutdownResult == 0 then 0 else 1)
      ensures old(subscriptions) != 1 ==> shutdownCalls == old(shutdownCalls) && broadcasts == old(broadcasts)
      ensures old(subscriptions) > 1 ==> r == 0 && subscriptions == old(subscriptions) - 1
    {
      if subscriptions == 0 {
        r := -1;
      } else if subscriptions == 1 {
        shutdownCalls := shutdownCalls + 1;
        r := shutdownResult;
        DataAvailable();
        if r == 0 {
          shutdownOk := shutdownOk + 1;
          subscriptions := subscriptions - 1;
        }
      } else {
        subscriptions := subscriptions - 1;
        r := 0;
      }
    }

    /** PutMsg(id, client, type, src, len, timestamp): forwards one message
        when `id` is registered, nothing otherwise; always returns 0. */
    method PutMsg(id: DeviceId, client: ClientData?, msgType: u16, src: seq<byte>,
                  timestamp: Option<Timeval>, now: Timeval) returns (r: int)
      modifies clients
      ensures r == 0
      ensures clients.sent == old(clients.sent) + Delivery(table.devices, id, client, msgType, src, timestamp, now)
    {
      var ts := if timestamp.Some? then timestamp.value else now;
      var device := table.GetDevice(id);
      if device.None? {
        return 0;
      }
      clients.PutMsg(Outgoing(msgType, id.code, id.index, ts.sec, ts.usec, src, client));
      return 0;
    }

    /** PutMsg(hdr, client, ...): the same, addressed by the header's
        device and index and the client's port. */
    method PutMsgTo(hdr: MsgHeader, client: ClientData, msgType: u16, src: seq<byte>,
                    timestamp: Option<Timeval>, now: Timeval) returns (r: int)
      modifies clients
      ensures r == 0
      ensures clients.sent == old(clients.sent) + Delivery(table.devices, ReplyId(hdr, client), client, msgType, src, timestamp, now)
    {
      var id := DeviceId(hdr.device, hdr.deviceIndex, client.port);
      var ts := if timestamp.Some? then timestamp.value else now;
      var device := table.GetDevice(id);
      if device.None? {
        return 0;
      }
      clients.PutMsg(Outgoing(msgType, id.code, id.index, ts.sec, ts.usec, src, client));
      return 0;
    }

    /** One round of ProcessMessages' loop, for the message just popped. */
    method ProcessOne(el: Queued, handler: (ClientData, MsgHeader, seq<byte>) -> Reply, now: Timeval)
      modifies this`warnings, clients
      ensures clients.sent == old(clients.sent) + ReplyFor(el, handler, table.devices, now)
      ensures warnings == old(warnings) + WarningsFor(el, handler)
    {
      var hdr, data := el.hdr, el.payload;
      if |data| != hdr.size {
        warnings := warnings + [SizeMismatch(|data|, hdr.size)];
      }
      var rep := handler(el.client, hdr, data);
      if rep.ret > 0 {
        var _ := PutMsgTo(hdr, el.client, rep.ret % 0x1_0000, rep.data, None, now);
      } else if rep.ret < 0 {
        warnings := warnings + [Unhandled(hdr.device, hdr.deviceIndex, hdr.msgType, hdr.size)];
      }
    }

    /** ProcessMessages: pops every queued message, hands it to the
        driver's handler, replies when the handler's result is positive
        and warns when it is negative. */
    method ProcessMessages(handler: (ClientData, MsgHeader, seq<byte>) -> Reply, now: Timeval)
      modifies this`InQueue, this`warnings, clients
      ensures InQueue == []
      ensures clients.sent == old(clients.sent) + Pump(old(InQueue), handler, table.devices, now)
      ensures warnings == old(warnings) + PumpWarnings(old(InQueue), handler)
    {
      ghost var devices := table.devices;
      while InQueue != []
        invariant old(clients.sent) + Pump(old(InQueue), handler, devices, now) ==
                  clients.sent + Pump(InQueue, handler, devices, now)
        invariant old(warnings) + PumpWarnings(old(InQueue), handler) == warnings + PumpWarnings(InQueue, handler)
        decreases |InQueue|
      {
        var el := InQueue[0];
        ghost var sent, warned := clients.sent, warnings;
        InQueue := InQueue[1..];
        ProcessOne(el, handler, now);
        AppendStep(sent, ReplyFor(el, handler, devices, now), Pump(InQueue, handler, devices, now));
        AppendStep(warned, WarningsFor(el, handler), PumpWarnings(InQueue, handler));
      }
    }
  }
}
