/**
 * Messages and message queues (libplayercore/message.cc).
 *
 * A Message is a handle on a shared store: the buffer holding the header
 * followed by the payload, and the reference count that every copy of the
 * handle shares.  A MessageQueue is a bounded, doubly-linked FIFO of
 * elements, each holding its own copy of a message; in replace mode a
 * DATA or CMD push first drops the queued message of the same kind that
 * lies closest to the tail.
 */
module Messages {
  import opened Wire
  import opened Protocol

  /** A buffer large enough to hold a header. */
  type MsgBuffer = s: seq<byte> | |s| >= HDR_SIZE witness Zeros(HDR_SIZE)

  /** The kind of a message as the replace scan sees it: type, subtype and
      device; payload and timestamps do not take part. */
  predicate SameKind(a: MsgHeader, b: MsgHeader)
  {
    a.msgType == b.msgType && a.subtype == b.subtype &&
    a.device == b.device && a.deviceIndex == b.deviceIndex
  }

  /** The message types a replace-mode queue coalesces. */
  predicate Replaceable(t: byte)
  {
    t == PLAYER_MSGTYPE_DATA || t == PLAYER_MSGTYPE_CMD
  }

  /** What every copy of a message shares: its buffer (written once, when
      the first handle is built, and never changed), the header at the
      start of that buffer, the reference count and whether the storage
      has been released. */
  class MessageStore {
    const header: MsgHeader
    const data: MsgBuffer
    var refCount: nat
    var freed: bool

    ghost predicate Live()
      reads this
    {
      refCount > 0 && !freed
    }

    constructor (header: MsgHeader, payload: seq<byte>)
      ensures this.header == header && data == EncodeHeader(header) + payload
      ensures DecodeHeader(data) == header
      ensures refCount == 1 && !freed
    {
      this.header := header;
      data := EncodeHeader(header) + payload;
      refCount := 1;
      freed := false;
      new;
      DecodeEncodeHeader(header, payload);
    }
  }

  class Message {
    const store: MessageStore
    const size: nat
    const queue: MessageQueue?

    /** Message(Header, data, data_size, queue): a fresh buffer holding the
        header bytes followed by the first `dataSize` payload bytes. */
    constructor (header: MsgHeader, data: seq<byte>, dataSize: nat, queue: MessageQueue?)
      requires dataSize <= |data|
      ensures fresh(store) && store.refCount == 1 && !store.freed
      ensures size == HDR_SIZE + dataSize && size == |store.data|
      ensures store.data == EncodeHeader(header) + data[..dataSize]
      ensures Header() == header && Payload() == data[..dataSize]
      ensures this.queue == queue
    {
      this.queue := queue;
      size := HDR_SIZE + dataSize;
      store := new MessageStore(header, data[..dataSize]);
    }

    /** Message(const Message&): a second handle on the same store, which
        counts one more holder. */
    constructor Copy(rhs: Message)
      requires rhs.store.Live()
      modifies rhs.store
      ensures store == rhs.store && size == rhs.size && queue == rhs.queue
      ensures store.refCount == old(rhs.store.refCount) + 1 && !store.freed
    {
      store := rhs.store;
      size := rhs.size;
      queue := rhs.queue;
      new;
      store.refCount := store.refCount + 1;
    }

    /** Drops this handle; the storage is released when the last one goes. */
    method DecRef()
      requires store.Live()
      modifies store
      ensures store.refCount == old(store.refCount) - 1
      ensures store.freed <==> store.refCount == 0
    {
      store.refCount := store.refCount - 1;
      if store.refCount == 0 {
        store.freed := true;
      }
    }

    /** GetHeader: the header at the start of the buffer. */
    function Header(): MsgHeader
    {
      store.header
    }

    function Payload(): seq<byte>
    {
      store.data[HDR_SIZE..]
    }

    function Compare(other: Message): bool
    {
      SameKind(Header(), other.Header())
    }
  }

  /** Compare is an equivalence on messages, so the replace scan's notion
      of "the same kind" is well defined. */
  lemma CompareEquivalence(a: Message, b: Message, c: Message)
    ensures a.Compare(a)
    ensures a.Compare(b) ==> b.Compare(a)
    ensures a.Compare(b) && b.Compare(c) ==> a.Compare(c)
  {
  }

  /** Compare looks at type, subtype, device and index and at nothing
      else: headers that differ only in timestamps or size, over any
      payloads, compare equal. */
  lemma CompareIgnoresTimeAndPayload(a: Message, b: Message, sec: u32, usec: u32, sz: u32)
    ensures a.Compare(b) <==>
      (a.Header().msgType, a.Header().subtype, a.Header().device, a.Header().deviceIndex) ==
      (b.Header().msgType, b.Header().subtype, b.Header().device, b.Header().deviceIndex)
    ensures b.Header() == a.Header().(timestampSec := sec, timestampUsec := usec, size := sz) ==> a.Compare(b)
  {
  }

  // ------------------------------------------------------------ reference counts

  datatype RefOp = CopyOp | ReleaseOp

  function Copies(ops: seq<RefOp>): nat
  {
    if ops == [] then 0 else (if ops[0] == CopyOp then 1 else 0) + Copies(ops[1..])
  }

  function Releases(ops: seq<RefOp>): nat
  {
    if ops == [] then 0 else (if ops[0] == ReleaseOp then 1 else 0) + Releases(ops[1..])
  }

  /** Applies copies (Copy) and releases (DecRef) to a store that `count`
      handles share.  Yields the final count and how many times the storage
      was released, or None when an operation reaches storage that is
      already gone. */
  function RunRefOps(count: nat, ops: seq<RefOp>): Option<(nat, nat)>
    decreases |ops|
  {
    if ops == [] then Some((count, 0))
    else if count == 0 then None
    else if ops[0] == CopyOp then RunRefOps(count + 1, ops[1..])
    else
      match RunRefOps(count - 1, ops[1..])
      case None => None
      case Some((c, f)) => Some((c, f + if count == 1 then 1 else 0))
  }

  /** However copies and releases interleave, storage that starts live is
      released at most once, exactly when the count ends at zero, and the
      count is the start plus copies minus releases. */
  lemma {:induction false} RefCountReleasesOnce(count: nat, ops: seq<RefOp>)
    requires count > 0
    requires RunRefOps(count, ops).Some?
    ensures var (c, f) := RunRefOps(count, ops).value;
      f <= 1 && (f == 1 <==> c == 0) && c == count + Copies(ops) - Releases(ops)
    decreases |ops|
  {
    if ops != [] {
      if ops[0] == CopyOp {
        RefCountReleasesOnce(count + 1, ops[1..]);
      } else if count == 1 {
        // the release that frees must be the last operation
        assert RunRefOps(0, ops[1..]).Some?;
      } else {
        RefCountReleasesOnce(count - 1, ops[1..]);
      }
    }
  }

  // ------------------------------------------------------------ replace policy

  /** Index of the queued message nearest the tail that compares equal to
      `m`, or -1: the element the replace scan in Push stops at. */
  function LastMatch(ms: seq<Message>, m: Message): (t: int)
    ensures -1 <= t < |ms|
    ensures t >= 0 ==> ms[t].Compare(m)
    ensures forall j :: t < j < |ms| ==> !ms[j].Compare(m)
  {
    if |ms| == 0 then -1
    else if ms[|ms| - 1].Compare(m) then |ms| - 1
    else LastMatch(ms[..|ms| - 1], m)
  }

  /** The queue contents left once Push's replace step has run. */
  function Kept(ms: seq<Message>, m: Message, replace: bool): seq<Message>
  {
    if replace && Replaceable(m.Header().msgType) && LastMatch(ms, m) >= 0 then
      var t := LastMatch(ms, m);
      ms[..t] + ms[t + 1..]
    else ms
  }

  /** The replace step removes at most one message: the last one of the same
      kind, and only for DATA and CMD in replace mode; everything else keeps
      its order. */
  lemma KeptRemovesAtMostOne(ms: seq<Message>, m: Message, replace: bool)
    ensures var k := Kept(ms, m, replace);
      (k == ms || (|k| == |ms| - 1 && exists t :: 0 <= t < |ms| && ms[t].Compare(m) && (forall j :: t < j < |ms| ==> !ms[j].Compare(m)) &&
                                            k == ms[..t] + ms[t + 1..]))
    ensures !replace || !Replaceable(m.Header().msgType) ==> Kept(ms, m, replace) == ms
    ensures (forall j :: 0 <= j < |ms| ==> !ms[j].Compare(m)) ==> Kept(ms, m, replace) == ms
  {
    var t := LastMatch(ms, m);
    if replace && Replaceable(m.Header().msgType) && t >= 0 {
      assert ms[t].Compare(m);
    }
  }

  function CountKind(ms: seq<Message>, m: Message): nat
  {
    if ms == [] then 0 else CountKind(ms[..|ms| - 1], m) + if ms[|ms| - 1].Compare(m) then 1 else 0
  }

  lemma {:induction false} CountKindZero(ms: seq<Message>, m: Message)
    requires forall j :: 0 <= j < |ms| ==> !ms[j].Compare(m)
    ensures CountKind(ms, m) == 0
  {
    if ms != [] {
      CountKindZero(ms[..|ms| - 1], m);
    }
  }

  lemma {:induction false} CountKindConcat(a: seq<Message>, b: seq<Message>, m: Message)
    ensures CountKind(a + b, m) == CountKind(a, m) + CountKind(b, m)
    decreases |b|
  {
    if b == [] {
      assert a + b == a;
    } else {
      var n := |b|;
      assert (a + b)[..|a + b| - 1] == a + b[..n - 1];
      CountKindConcat(a, b[..n - 1], m);
    }
  }

  lemma CountKindRemoveLast(ms: seq<Message>, m: Message)
    requires LastMatch(ms, m) >= 0
    ensures var t := LastMatch(ms, m);
      CountKind(ms[..t] + ms[t + 1..], m) == CountKind(ms, m) - 1
  {
    var t := LastMatch(ms, m);
    assert ms == ms[..t] + ([ms[t]] + ms[t + 1..]);
    CountKindConcat(ms[..t], [ms[t]] + ms[t + 1..], m);
    CountKindConcat([ms[t]], ms[t + 1..], m);
    CountKindConcat(ms[..t], ms[t + 1..], m);
    assert CountKind([ms[t]], m) == 1 by {
      assert [ms[t]][..0] == [];
    }
  }

  lemma CountKindAppend(ms: seq<Message>, m: Message, x: Message)
    ensures CountKind(ms + [x], m) == CountKind(ms, m) + if x.Compare(m) then 1 else 0
  {
    assert (ms + [x])[..|ms|] == ms;
  }

  /** In replace mode a queue never holds two DATA or CMD messages of the
      same kind: if at most one was queued before an accepted push, then
      afterwards exactly one is, and it is the pushed one (which the queue
      appends last). */
  lemma ReplaceKeepsNewestOnly(ms: seq<Message>, m: Message, x: Message)
    requires Replaceable(m.Header().msgType)
    requires CountKind(ms, m) <= 1
    requires x.Compare(m)
    ensures CountKind(Kept(ms, m, true), m) == 0
    ensures CountKind(Kept(ms, m, true) + [x], m) == 1
  {
    var t := LastMatch(ms, m);
    if t >= 0 {
      CountKindRemoveLast(ms, m);
    } else {
      CountKindZero(ms, m);
    }
    CountKindAppend(Kept(ms, m, true), m, x);
  }

  // ------------------------------------------------------------ the queue

  /** No element occurs twice.  Stated recursively, so that the verifier
      only learns the consequence it is asked for (DistinctAt). */
  ghost predicate Distinct<T>(s: seq<T>)
    decreases |s|
  {
    |s| == 0 || (s[0] !in s[1..] && Distinct(s[1..]))
  }

  lemma {:induction false} DistinctAt<T>(s: seq<T>, i: nat, j: nat)
    requires Distinct(s) && i < |s| && j < |s| && i != j
    ensures s[i] != s[j]
    decreases |s|
  {
    if i == 0 {
      assert s[j] == s[1..][j - 1];
    } else if j == 0 {
      assert s[i] == s[1..][i - 1];
    } else {
      DistinctAt(s[1..], i - 1, j - 1);
    }
  }

  lemma {:induction false} DistinctRemoveAt<T>(s: seq<T>, k: nat)
    requires Distinct(s) && k < |s|
    ensures Distinct(s[..k] + s[k + 1..])
    decreases |s|
  {
    if k == 0 {
      assert s[..k] + s[k + 1..] == s[1..];
    } else {
      var t := s[1..];
      DistinctRemoveAt(t, k - 1);
      var r := s[..k] + s[k + 1..];
      assert r == [s[0]] + (t[..k - 1] + t[k..]);
      assert r[1..] == t[..k - 1] + t[k..];
      assert forall x :: x in r[1..] ==> x in t;
    }
  }

  lemma {:induction false} DistinctAppend<T>(s: seq<T>, x: T)
    requires Distinct(s) && x !in s
    ensures Distinct(s + [x])
    decreases |s|
  {
    if s != [] {
      DistinctAppend(s[1..], x);
      assert (s + [x])[1..] == s[1..] + [x];
    }
  }

  class MessageQueueElement {
    var msg: Message?
    var prev: MessageQueueElement?
    var next: MessageQueueElement?

    constructor ()
      ensures msg == null && prev == null && next == null
    {
      msg := null;
      prev := null;
      next := null;
    }

    /** An element holding its own fresh copy of `m` (Push's
        `newelt->msg = new Message(msg)`). */
    constructor Holding(m: Message)
      requires m.store.Live()
      modifies m.store
      ensures fresh(msg) && msg.store == m.store && prev == null && next == null
      ensures m.store.refCount == old(m.store.refCount) + 1 && !m.store.freed
    {
      msg := new Message.Copy(m);
      prev := null;
      next := null;
    }
  }

  /** The element at each position holds the message at that position. */
  ghost predicate Holds(sp: seq<MessageQueueElement>, cs: seq<Message>)
    reads sp`msg
  {
    |sp| == |cs| && forall i {:trigger sp[i].msg} :: 0 <= i < |sp| ==> sp[i].msg == cs[i]
  }

  /** Following `next` from `first` visits exactly the elements of sp. */
  ghost predicate Forward(sp: seq<MessageQueueElement>, first: MessageQueueElement?)
    reads sp`next
  {
    first == (if |sp| == 0 then null else sp[0]) &&
    forall i {:trigger sp[i].next} :: 0 <= i < |sp| ==> sp[i].next == (if i == |sp| - 1 then null else sp[i + 1])
  }

  /** Following `prev` from `last` visits exactly the elements of sp, backwards. */
  ghost predicate Backward(sp: seq<MessageQueueElement>, last: MessageQueueElement?)
    reads sp`prev
  {
    last == (if |sp| == 0 then null else sp[|sp| - 1]) &&
    forall i {:trigger sp[i].prev} :: 0 <= i < |sp| ==> sp[i].prev == (if i == 0 then null else sp[i - 1])
  }

  lemma HoldsRemoveAt(sp: seq<MessageQueueElement>, cs: seq<Message>, k: nat)
    requires Holds(sp, cs) && k < |sp|
    ensures Holds(sp[..k] + sp[k + 1..], cs[..k] + cs[k + 1..])
  {
    var ns, nc := sp[..k] + sp[k + 1..], cs[..k] + cs[k + 1..];
    forall i | 0 <= i < |ns|
      ensures ns[i].msg == nc[i]
    {
      var j := if i < k then i else i + 1;
      assert ns[i] == sp[j] && nc[i] == cs[j];
    }
  }

  lemma HoldsAppend(sp: seq<MessageQueueElement>, cs: seq<Message>, e: MessageQueueElement)
    requires Holds(sp, cs) && e.msg != null
    ensures Holds(sp + [e], cs + [e.msg])
  {
    var ns := sp + [e];
    forall i | 0 <= i < |ns|
      ensures ns[i].msg == (cs + [e.msg])[i]
    {
      if i < |sp| {
        assert ns[i] == sp[i];
      }
    }
  }

  /** The empty set or the one object: the frame of a write through a
      pointer that may be null. */
  function Opt(e: MessageQueueElement?): set<MessageQueueElement>
  {
    if e == null then {} else {e}
  }

  class MessageQueue {
    const Replace: bool
    const Maxlen: nat
    var head: MessageQueueElement?
    var tail: MessageQueueElement?
    var Length: nat

    /** The elements from head to tail. */
    ghost var spine: seq<MessageQueueElement>
    /** The message each element holds, from head to tail. */
    ghost var Contents: seq<Message>
    /** How many times DataAvailable has woken the waiters. */
    ghost var Broadcasts: nat

    ghost predicate Valid()
      reads this`spine, this`Contents, this`head, this`tail, this`Length, spine
    {
      |spine| == Length && Length <= Maxlen && Distinct(spine) &&
      Holds(spine, Contents) && Forward(spine, head) && Backward(spine, tail)
    }

    constructor (replace: bool, maxlen: nat)
      ensures Valid() && Contents == [] && spine == []
      ensures Replace == replace && Maxlen == maxlen && Broadcasts == 0
    {
      Replace := replace;
      Maxlen := maxlen;
      head, tail := null, null;
      Length := 0;
      spine, Contents := [], [];
      Broadcasts := 0;
    }

    function Empty(): (e: bool)
      reads this, spine
      requires Valid()
      ensures e <==> Contents == []
    {
      head == null
    }

    /** Wakes every thread blocked in Wait. */
    method DataAvailable()
      modifies this`Broadcasts
      ensures Broadcasts == old(Broadcasts) + 1
      ensures Valid() == old(Valid())
    {
      Broadcasts := Broadcasts + 1;
    }

    /** Wait's non-blocking path: it returns at once exactly when something
        is queued (false stands for the blocking wait). */
    method Wait() returns (immediate: bool)
      requires Valid()
      ensures immediate <==> Contents != []
    {
      immediate := !Empty();
    }

    /** Remove's first half: the predecessor (or head) skips el. */
    method BypassForward(el: MessageQueueElement, ghost sp: seq<MessageQueueElement>, ghost k: nat)
      requires k < |sp| && sp[k] == el && Distinct(sp)
      requires Forward(sp, head) && Backward(sp, tail)
      modifies this`head, Opt(el.prev)`next
      ensures Forward(sp[..k] + sp[k + 1..], head)
    {
      ghost var n := |sp|;
      ghost var ns := sp[..k] + sp[k + 1..];
      ghost var before := if k == 0 then null else sp[k - 1];
      assert sp[k].prev == before;
      assert sp[k].next == if k == n - 1 then null else sp[k + 1];
      assert k > 0 ==> old(head) == sp[0];
      if el.prev != null {
        el.prev.next := el.next;
      } else {
        head := el.next;
      }
      forall i | 0 <= i < n - 1
        ensures ns[i].next == (if i == n - 2 then null else ns[i + 1])
      {
        var j := if i < k then i else i + 1;
        assert ns[i] == sp[j];
        assert old(sp[j].next) == (if j == n - 1 then null else sp[j + 1]);
        if k > 0 && j != k - 1 {
          DistinctAt(sp, j, k - 1);
        }
      }
    }

    /** Remove's second half: the successor (or tail) skips el. */
    method BypassBackward(el: MessageQueueElement, ghost sp: seq<MessageQueueElement>, ghost k: nat)
      requires k < |sp| && sp[k] == el && Distinct(sp) && Backward(sp, tail)
      requires el.next == if k == |sp| - 1 then null else sp[k + 1]
      modifies this`tail, Opt(el.next)`prev
      ensures Backward(sp[..k] + sp[k + 1..], tail)
    {
      ghost var n := |sp|;
      ghost var ns := sp[..k] + sp[k + 1..];
      ghost var after := if k == n - 1 then null else sp[k + 1];
      assert sp[k].prev == if k == 0 then null else sp[k - 1];
      assert k < n - 1 ==> old(tail) == sp[n - 1];
      if el.next != null {
        el.next.prev := el.prev;
      } else {
        tail := el.prev;
      }
      forall i | 0 <= i < n - 1
        ensures ns[i].prev == (if i == 0 then null else ns[i - 1])
      {
        var j := if i < k then i else i + 1;
        assert ns[i] == sp[j];
        assert old(sp[j].prev) == (if j == 0 then null else sp[j - 1]);
        if k < n - 1 && j != k + 1 {
          DistinctAt(sp, j, k + 1);
        }
      }
    }

    /** Unlinks the element at position k. */
    method Remove(el: MessageQueueElement, ghost k: nat)
      requires Valid() && k < |spine| && spine[k] == el
      modifies this, el.prev, el.next
      ensures Valid()
      ensures spine == old(spine[..k] + spine[k + 1..])
      ensures Contents == old(Contents[..k] + Contents[k + 1..])
      ensures Length == old(Length) - 1 && Broadcasts == old(Broadcasts)
    {
      ghost var sp := spine;
      assert sp[k].next == if k == |sp| - 1 then null else sp[k + 1];
      if k > 0 {
        DistinctAt(sp, k - 1, k);
      }
      HoldsRemoveAt(sp, Contents, k);
      DistinctRemoveAt(sp, k);
      Length, spine, Contents := Length - 1, sp[..k] + sp[k + 1..], Contents[..k] + Contents[k + 1..];
      BypassForward(el, sp, k);
      BypassBackward(el, sp, k);
    }

    /** The pointer updates of Push's accepting branch: `newelt` becomes
        the new tail. */
    method Link(newelt: MessageQueueElement)
      requires Distinct(spine) && newelt !in spine
      requires Forward(spine, head) && Backward(spine, tail)
      modifies this`head, this`tail, Opt(tail)`next, newelt`prev, newelt`next
      ensures Forward(spine + [newelt], head) && Backward(spine + [newelt], tail)
    {
      ghost var sp, n := spine, |spine|;
      assert n > 0 ==> tail == sp[n - 1];
      if tail == null {
        head, tail := newelt, newelt;
        newelt.prev, newelt.next := null, null;
      } else {
        tail.next := newelt;
        newelt.prev := tail;
        newelt.next := null;
        tail := newelt;
      }
      ghost var ns := sp + [newelt];
      forall i | 0 <= i < n
        ensures ns[i].prev == (if i == 0 then null else ns[i - 1])
        ensures ns[i].next == ns[i + 1]
      {
        assert ns[i] == sp[i];
        assert old(sp[i].prev) == (if i == 0 then null else sp[i - 1]);
        if i < n - 1 {
          assert old(sp[i].next) == sp[i + 1];
          DistinctAt(sp, i, n - 1);
        }
      }
    }

    /** Push's accepting branch: a fresh element holding a copy of `msg`,
        linked in after the tail. */
    method Append(msg: Message) returns (newelt: MessageQueueElement)
      requires Valid() && Length < Maxlen && msg.store.Live()
      modifies this, Opt(tail)`next, msg.store
      ensures Valid() && fresh(newelt) && fresh(newelt.msg)
      ensures spine == old(spine) + [newelt] && Contents == old(Contents) + [newelt.msg]
      ensures newelt.msg.store == msg.store && msg.store.refCount == old(msg.store.refCount) + 1
      ensures Broadcasts == old(Broadcasts)
    {
      newelt := new MessageQueueElement.Holding(msg);
      Link(newelt);
      HoldsAppend(spine, Contents, newelt);
      DistinctAppend(spine, newelt);
      Length, spine, Contents := Length + 1, spine + [newelt], Contents + [newelt.msg];
    }

    /** Push's replace step: in replace mode, a DATA or CMD message first
        drops the queued message of the same kind nearest the tail.  The
        scan walks from the tail along `prev`; the element it stops at is
        removed once the scan is over. */
    method DropLastMatch(msg: Message)
      requires Valid()
      modifies this, spine
      ensures Valid() && Contents == Kept(old(Contents), msg, Replace)
      ensures Broadcasts == old(Broadcasts)
      ensures forall i :: 0 <= i < |spine| ==> spine[i] in old(spine)
    {
      var hdr := msg.Header();
      if Replace && (hdr.msgType == PLAYER_MSGTYPE_DATA || hdr.msgType == PLAYER_MSGTYPE_CMD) {
        var el := tail;
        ghost var k: int := |spine| - 1;
        while el != null && !el.msg.Compare(msg)
          invariant -1 <= k < |spine|
          invariant el == (if k >= 0 then spine[k] else null)
          invariant forall j :: k < j < |spine| ==> !Contents[j].Compare(msg)
          decreases k + 1
        {
          assert spine[k].prev == (if k == 0 then null else spine[k - 1]);
          el := el.prev;
          k := k - 1;
        }
        assert k == LastMatch(Contents, msg);
        if el != null {
          Remove(el, k);
        }
      }
    }

    /** Queues a copy of `msg`.  Returns the new element, or null when the
        queue is still full after the replace step. */
    method Push(msg: Message) returns (r: MessageQueueElement?)
      requires Valid() && msg.store.Live()
      modifies this, spine, msg.store
      ensures Valid()
      ensures var kept := Kept(old(Contents), msg, Replace);
        (r == null <==> |kept| >= Maxlen) &&
        (r == null ==> Contents == kept && msg.store.refCount == old(msg.store.refCount)) &&
        (r != null ==> fresh(r) && fresh(r.msg) && Contents == kept + [r.msg] &&
                       r.msg.store == msg.store && msg.store.refCount == old(msg.store.refCount) + 1)
      ensures Broadcasts == old(Broadcasts) + 1
    {
      DropLastMatch(msg);
      if Length >= Maxlen {
        DataAvailable();
        return null;
      }
      r := Append(msg);
      DataAvailable();
    }

    /** Takes the head message out of the queue, or returns null. */
    method Pop() returns (m: Message?)
      requires Valid()
      modifies this, spine
      ensures Valid() && Broadcasts == old(Broadcasts)
      ensures old(Contents) == [] ==> m == null && Contents == []
      ensures old(Contents) != [] ==> m == old(Contents[0]) && Contents == old(Contents[1..])
      ensures spine == if old(spine) == [] then [] else old(spine[1..])
    {
      if Empty() {
        return null;
      }
      var el := head;
      assert spine[0].next == (if |spine| == 1 then null else spine[1]);
      Remove(el, 0);
      m := el.msg;
    }

    /** ~MessageQueue's drain: pop until empty. */
    method Clear()
      requires Valid()
      modifies this, spine
      ensures Valid() && Contents == [] && Broadcasts == old(Broadcasts)
    {
      var m := Pop();
      while m != null
        invariant Valid() && Broadcasts == old(Broadcasts)
        invariant |spine| <= |old(spine)| && spine == old(spine)[|old(spine)| - |spine|..]
        invariant m == null ==> Contents == []
        decreases |Contents| + (if m == null then 0 else 1)
      {
        m := Pop();
      }
    }
  }
}
