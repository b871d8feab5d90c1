/**
 * The transmit queue (wsm/mesh_extern.c:36-104): a ring of twenty frame slots, one index behind the other. Until the
 * first frame is sent its front index is -1, and then it can neither say that it is full nor stop an overrun.
 */
module TransmitRing {
  import opened Prelude

  const MAX_QUEUE: nat := 20
  const MAX_FRAME_LEN: nat := 2048

  type Byte = b: int | 0 <= b < 256

  /** What one slot holds: the frame's bytes, whether it is unicast, and the interface it goes out on. */
  datatype Frame = Frame(payload: seq<Byte>, unicast: nat, ifNum: nat)

  // ------------------------------------------------------------------ the ring as a value

  /** Front and rear indices and the twenty slots. */
  datatype Ring = Ring(front: int, rear: int, slots: seq<Frame>)

  const START: Ring := Ring(-1, -1, seq(MAX_QUEUE, _ => Frame([], 0, 0)))

  predicate RingOk(r: Ring) {
    |r.slots| == MAX_QUEUE && -1 <= r.front < MAX_QUEUE && -1 <= r.rear < MAX_QUEUE && (r.rear == -1 ==> r.front == -1)
  }

  predicate Empty(r: Ring) { r.front == r.rear }

  predicate Full(r: Ring) { (r.rear + 1) % MAX_QUEUE == r.front }

  function Put(r: Ring, f: Frame): Ring requires RingOk(r) {
    if Full(r) then r else
    var k := (r.rear + 1) % MAX_QUEUE;
    r.(rear := k, slots := r.slots[k := f])
  }

  function Advance(r: Ring): Ring {
    if Empty(r) then r else r.(front := (r.front + 1) % MAX_QUEUE)
  }

  datatype Op = Add(f: Frame) | Send

  /**
   * One operation; Send is the transmit timer: if the ring is not empty it advances and reads the slot at the front.
   */
  function Do(r: Ring, op: Op): (s: Ring)
    requires RingOk(r)
    ensures RingOk(s)
  {
    match op case Add(f) => Put(r, f) case Send => Advance(r)
  }

  function Emits(r: Ring, op: Op): seq<Frame> requires RingOk(r) {
    if op.Send? && !Empty(r) then [r.slots[(r.front + 1) % MAX_QUEUE]] else []
  }

  function After(r: Ring, ops: seq<Op>): (s: Ring)
    requires RingOk(r)
    ensures RingOk(s)
  {
    if ops == [] then r else Do(After(r, ops[..|ops| - 1]), ops[|ops| - 1])
  }

  /** The frames that go out on air. */
  function Sent(r: Ring, ops: seq<Op>): seq<Frame> requires RingOk(r) {
    if ops == [] then [] else
    Sent(r, ops[..|ops| - 1]) + Emits(After(r, ops[..|ops| - 1]), ops[|ops| - 1])
  }

  // ------------------------------------------------------------------ the bounded FIFO

  /**
   * What the ring should be: a queue that drops when full. It holds twenty until the first frame is sent, then
   * nineteen.
   */
  datatype Fifo = Fifo(q: seq<Frame>, started: bool)

  function Room(s: Fifo): nat { if s.started then MAX_QUEUE - 1 else MAX_QUEUE }

  function FifoDo(s: Fifo, op: Op): Fifo {
    match op
    case Add(f) => if |s.q| < Room(s) then s.(q := s.q + [f]) else s
    case Send => if s.q == [] then s else Fifo(s.q[1..], true)
  }

  function FifoEmits(s: Fifo, op: Op): seq<Frame> {
    if op.Send? && s.q != [] then [s.q[0]] else []
  }

  function FifoAfter(ops: seq<Op>): Fifo {
    if ops == [] then Fifo([], false) else FifoDo(FifoAfter(ops[..|ops| - 1]), ops[|ops| - 1])
  }

  function FifoSent(ops: seq<Op>): seq<Frame> {
    if ops == [] then [] else FifoSent(ops[..|ops| - 1]) + FifoEmits(FifoAfter(ops[..|ops| - 1]), ops[|ops| - 1])
  }

  // ------------------------------------------------------------------ refinement

  /** Calls of addq before the first frame is sent. */
  function AddsBeforeFirstSend(ops: seq<Op>): nat {
    if ops == [] then 0 else
    var rest := ops[..|ops| - 1];
    AddsBeforeFirstSend(rest) + if ops[|ops| - 1].Add? && !FifoAfter(rest).started then 1 else 0
  }

  /** The i-th slot behind the front. */
  function Slot(front: int, i: nat): int
    requires -1 <= front < MAX_QUEUE && i <= MAX_QUEUE
  {
    if front + 1 + i < MAX_QUEUE then front + 1 + i else front + 1 + i - MAX_QUEUE
  }

  lemma SlotIsMod(front: int, i: nat)
    requires -1 <= front < MAX_QUEUE && i <= MAX_QUEUE && front + 1 + i < 2 * MAX_QUEUE
    ensures 0 <= Slot(front, i) < MAX_QUEUE && Slot(front, i) == (front + 1 + i) % MAX_QUEUE
  {
  }

  /** The queued frames stand behind the front, in order, and fill exactly the stretch up to the rear. */
  ghost predicate Holds(r: Ring, s: Fifo) {
    && RingOk(r) && (s.started <==> r.front >= 0) && |s.q| <= Room(s)
    && (s.q == [] ==> r.rear == r.front) && (s.q != [] ==> r.rear == Slot(r.front, |s.q| - 1))
    && forall i :: 0 <= i < |s.q| ==> s.q[i] == r.slots[Slot(r.front, i)]
  }

  /** Before the first frame is sent there must still be room; afterwards the ring looks after itself. */
  predicate Safe(s: Fifo, op: Op) {
    op.Add? && !s.started ==> |s.q| < MAX_QUEUE
  }

  /** The slot addq would write, and when it declines. */
  lemma PutPlace(r: Ring, s: Fifo)
    requires Holds(r, s)
    ensures (r.rear + 1) % MAX_QUEUE == Slot(r.front, |s.q|) % MAX_QUEUE
    ensures s.started ==> (Full(r) <==> |s.q| == Room(s))
    ensures !s.started ==> !Full(r)
    ensures |s.q| < Room(s) ==> 0 <= Slot(r.front, |s.q|) < MAX_QUEUE && Slot(r.front, |s.q|) != r.front
  {
    if s.q != [] { assert r.rear == Slot(r.front, |s.q| - 1); }
  }

  lemma PutStep(r: Ring, s: Fifo, f: Frame)
    requires Holds(r, s) && Safe(s, Add(f))
    ensures Holds(Put(r, f), FifoDo(s, Add(f)))
  {
    PutPlace(r, s);
    if |s.q| < Room(s) {
      var k := Slot(r.front, |s.q|);
      assert Put(r, f) == r.(rear := k, slots := r.slots[k := f]);
      forall i | 0 <= i < |s.q| ensures Slot(r.front, i) != k { }
    }
  }

  lemma SendStep(r: Ring, s: Fifo)
    requires Holds(r, s)
    ensures Holds(Advance(r), FifoDo(s, Send)) && Emits(r, Send) == FifoEmits(s, Send)
  {
    if s.q != [] {
      assert r.rear == Slot(r.front, |s.q| - 1);
      assert !Empty(r);
      SlotIsMod(r.front, 0);
      var r' := Advance(r);
      assert r'.front == Slot(r.front, 0);
      forall i | 0 <= i < |s.q| - 1 ensures Slot(r'.front, i) == Slot(r.front, i + 1) { }
    }
  }

  /**
   * What addq writes is never a frame still queued, nor the slot at the front, which the sender may still be reading.
   */
  lemma PutOverwritesNothing(r: Ring, s: Fifo, f: Frame, k: nat)
    requires Holds(r, s) && Safe(s, Add(f)) && k < MAX_QUEUE && Put(r, f).slots[k] != r.slots[k]
    ensures k != r.front && forall i :: 0 <= i < |s.q| ==> k != Slot(r.front, i)
  {
    PutPlace(r, s);
    if |s.q| < Room(s) {
      forall i | 0 <= i < |s.q| ensures k != Slot(r.front, i) { }
    }
  }

  lemma {:induction false} Simulates(ops: seq<Op>)
    requires AddsBeforeFirstSend(ops) <= MAX_QUEUE
    ensures Holds(After(START, ops), FifoAfter(ops)) && Sent(START, ops) == FifoSent(ops)
    ensures !FifoAfter(ops).started ==> |FifoAfter(ops).q| == AddsBeforeFirstSend(ops)
  {
    if ops != [] {
      var rest, op := ops[..|ops| - 1], ops[|ops| - 1];
      Simulates(rest);
      match op
      case Add(f) => PutStep(After(START, rest), FifoAfter(rest), f);
      case Send => SendStep(After(START, rest), FifoAfter(rest));
    }
  }

  /** The frames handed to addq, in order. */
  function Offered(ops: seq<Op>): seq<Frame> {
    if ops == [] then [] else
    Offered(ops[..|ops| - 1]) + if ops[|ops| - 1].Add? then [ops[|ops| - 1].f] else []
  }

  /** The frame in the first slot after n additions without a send: every twentieth lands there. */
  function Latest(n: nat): nat requires n > 0 { (n - 1) / MAX_QUEUE * MAX_QUEUE }

  lemma LatestStep(n: nat)
    requires n > 0
    ensures Latest(n) <= n - 1 < Latest(n) + MAX_QUEUE
    ensures (n - 1) % MAX_QUEUE == n - 1 - Latest(n)
    ensures Latest(n + 1) == if n - Latest(n) == MAX_QUEUE then n else Latest(n)
  {
    var q, r := (n - 1) / MAX_QUEUE, (n - 1) % MAX_QUEUE;
    assert n - 1 == q * MAX_QUEUE + r;
    if r == MAX_QUEUE - 1 { Quotient(n, q + 1, 0); } else { Quotient(n, q, r + 1); }
  }

  lemma Quotient(a: nat, k: nat, r: nat)
    requires a == k * MAX_QUEUE + r && r < MAX_QUEUE
    ensures a / MAX_QUEUE == k && a % MAX_QUEUE == r
  {
  }

  /** The ring before the first frame is sent: it takes whatever it is offered, over and over. */
  ghost predicate Waiting(r: Ring, fs: seq<Frame>) {
    && RingOk(r) && r.front == -1
    && (fs == [] ==> r.rear == -1)
    && (fs != [] ==> r.rear == (|fs| - 1) % MAX_QUEUE && Latest(|fs|) < |fs| && r.slots[0] == fs[Latest(|fs|)])
  }

  lemma WaitingAdd(r: Ring, fs: seq<Frame>, f: Frame)
    requires Waiting(r, fs)
    ensures Waiting(Put(r, f), fs + [f])
  {
    var n := |fs|;
    LatestStep(n + 1);
    if n > 0 { LatestStep(n); }
  }

  /** The FIFO before the first frame is sent. */
  lemma {:induction false} FifoBefore(ops: seq<Op>)
    requires !FifoAfter(ops).started
    ensures var n := |Offered(ops)|; FifoAfter(ops).q == Offered(ops)[..if n <= MAX_QUEUE then n else MAX_QUEUE]
    ensures AddsBeforeFirstSend(ops) == |Offered(ops)| && FifoSent(ops) == []
  {
    if ops != [] { FifoBefore(ops[..|ops| - 1]); }
  }

  /** Before the first frame is sent a send finds nothing queued. */
  lemma {:induction false} RingBefore(ops: seq<Op>)
    requires !FifoAfter(ops).started
    ensures Waiting(After(START, ops), Offered(ops)) && Sent(START, ops) == []
  {
    if ops != [] {
      var rest, op := ops[..|ops| - 1], ops[|ops| - 1];
      RingBefore(rest);
      if op.Add? { WaitingAdd(After(START, rest), Offered(rest), op.f); } else { FifoBefore(rest); }
    }
  }

  /**
   * Main theorem. With at most twenty additions before the first frame is sent, the frames that go out are those of
   * the bounded FIFO, whatever comes later.
   */
  lemma RefinesFifo(ops: seq<Op>)
    requires AddsBeforeFirstSend(ops) <= MAX_QUEUE
    ensures Sent(START, ops) == FifoSent(ops)
  {
    Simulates(ops);
  }

  lemma {:induction false} Continued(a: seq<Op>, b: seq<Op>)
    ensures Sent(START, a) <= Sent(START, a + b) && FifoSent(a) <= FifoSent(a + b)
    ensures FifoAfter(a).started ==>
              FifoAfter(a + b).started && AddsBeforeFirstSend(a + b) == AddsBeforeFirstSend(a)
  {
    if b == [] {
      assert a + b == a;
    } else {
      Continued(a, b[..|b| - 1]);
      assert (a + b)[..|a + b| - 1] == a + b[..|b| - 1];
    }
  }

  /** Where the first frame is sent. */
  lemma {:induction false} FirstSend(ops: seq<Op>) returns (j: nat)
    requires FifoAfter(ops).started
    ensures j < |ops| && !FifoAfter(ops[..j]).started && ops[j].Send? && FifoAfter(ops[..j]).q != []
    ensures ops == ops[..j] + [Send] + ops[j + 1..]
  {
    var n := |ops| - 1;
    if FifoAfter(ops[..n]).started {
      j := FirstSend(ops[..n]);
      assert ops[..n][..j] == ops[..j];
    } else {
      j := n;
    }
  }

  lemma LastOp(ops: seq<Op>, op: Op)
    ensures Sent(START, ops + [op]) == Sent(START, ops) + Emits(After(START, ops), op)
    ensures FifoSent(ops + [op]) == FifoSent(ops) + FifoEmits(FifoAfter(ops), op)
    ensures FifoAfter(ops + [op]) == FifoDo(FifoAfter(ops), op)
    ensures op.Send? ==> AddsBeforeFirstSend(ops + [op]) == AddsBeforeFirstSend(ops)
  {
    assert (ops + [op])[..|ops|] == ops;
  }

  lemma WaitingSends(r: Ring, fs: seq<Frame>)
    requires Waiting(r, fs) && fs != []
    ensures Emits(r, Send) == [fs[Latest(|fs|)]]
  {
    LatestStep(|fs|);
    assert (r.front + 1) % MAX_QUEUE == 0;
  }

  /** The ring sends the frame in its first slot, the FIFO the oldest. */
  lemma FirstOut(ops: seq<Op>)
    requires !FifoAfter(ops).started && FifoAfter(ops).q != []
    ensures var fs := Offered(ops);
            && fs != [] && Latest(|fs|) < |fs|
            && Sent(START, ops + [Send]) == [fs[Latest(|fs|)]] && FifoSent(ops + [Send]) == [fs[0]]
    ensures FifoAfter(ops + [Send]).started && AddsBeforeFirstSend(ops + [Send]) == |Offered(ops)|
  {
    FifoBefore(ops);
    RingBefore(ops);
    WaitingSends(After(START, ops), Offered(ops));
    LastOp(ops, Send);
  }

  lemma {:induction false} OfferedPrefix(a: seq<Op>, b: seq<Op>)
    ensures Offered(a) <= Offered(a + b)
  {
    if b == [] {
      assert a + b == a;
    } else {
      OfferedPrefix(a, b[..|b| - 1]);
      assert (a + b)[..|a + b| - 1] == a + b[..|b| - 1];
    }
  }

  lemma Differ<T>(a: seq<T>, b: seq<T>, x: T, y: T)
    requires [x] <= a && [y] <= b && x != y
    ensures a != b
  {
    assert a[0] == [x][0] && b[0] == [y][0];
  }

  lemma LatestDiffers(fs: seq<Frame>, all: seq<Frame>)
    requires |fs| > MAX_QUEUE && fs <= all && Distinct(all)
    ensures Latest(|fs|) < |fs| && fs[Latest(|fs|)] != fs[0]
  {
    LatestStep(|fs|);
    assert all[0] == fs[0] && all[Latest(|fs|)] == fs[Latest(|fs|)];
  }

  /** Whatever comes later, that is how the two go on. */
  lemma Firsts(ops: seq<Op>, tail: seq<Op>, all: seq<Op>)
    requires !FifoAfter(ops).started && FifoAfter(ops).q != [] && all == ops + [Send] + tail
    ensures var fs := Offered(ops);
            && fs != [] && Latest(|fs|) < |fs|
            && [fs[Latest(|fs|)]] <= Sent(START, all) && [fs[0]] <= FifoSent(all)
            && AddsBeforeFirstSend(all) == |fs|
  {
    FirstOut(ops);
    Continued(ops + [Send], tail);
  }

  /** More than twenty frames before the first is sent: the wrong one goes out first. */
  lemma Overtaken(ops: seq<Op>, tail: seq<Op>, all: seq<Op>)
    requires !FifoAfter(ops).started && FifoAfter(ops).q != [] && all == ops + [Send] + tail
    requires Distinct(Offered(all)) && AddsBeforeFirstSend(all) > MAX_QUEUE
    ensures Sent(START, all) != FifoSent(all)
  {
    var fs := Offered(ops);
    OfferedPrefix(ops, [Send] + tail);
    assert all == ops + ([Send] + tail);
    Firsts(ops, tail, all);
    LatestDiffers(fs, Offered(all));
    Differ(Sent(START, all), FifoSent(all), fs[Latest(|fs|)], fs[0]);
  }

  /**
   * The bound is exact, in every run with different frames: the ring sends what the bounded FIFO sends if and only if
   * no frame has been sent yet, or at most twenty were queued before the first one was.
   */
  lemma TwentyIsExact(ops: seq<Op>)
    requires Distinct(Offered(ops))
    ensures Sent(START, ops) == FifoSent(ops) <==> !FifoAfter(ops).started || AddsBeforeFirstSend(ops) <= MAX_QUEUE
  {
    if !FifoAfter(ops).started {
      FifoBefore(ops);
      RingBefore(ops);
    } else if AddsBeforeFirstSend(ops) <= MAX_QUEUE {
      RefinesFifo(ops);
    } else {
      var j := FirstSend(ops);
      Overtaken(ops[..j], ops[j + 1..], ops);
    }
  }

  // ------------------------------------------------------------------ the code

  /** The queue in the form of the source: parallel buffers and two indices. */
  class TxQueue {
    const buff: array2<Byte>
    const len: array<nat>
    const unicast: array<nat>
    const ifNum: array<nat>
    var front: int
    var rear: int

    ghost predicate Valid()
      reads this, len
    {
      && buff.Length0 == MAX_QUEUE && buff.Length1 == MAX_FRAME_LEN
      && len.Length == MAX_QUEUE && unicast.Length == MAX_QUEUE && ifNum.Length == MAX_QUEUE
      && len != unicast && len != ifNum && unicast != ifNum
      && -1 <= front < MAX_QUEUE && -1 <= rear < MAX_QUEUE && (rear == -1 ==> front == -1)
      && forall i :: 0 <= i < MAX_QUEUE ==> len[i] <= MAX_FRAME_LEN
    }

    ghost function FrameAt(i: nat): Frame
      requires Valid() && i < MAX_QUEUE
      reads this, buff, len, unicast, ifNum
    {
      var n := len[i];
      Frame(seq(n, j requires 0 <= j < n <= buff.Length1 && i < buff.Length0 reads buff => buff[i, j]),
            unicast[i], ifNum[i])
    }

    ghost function State(): Ring
      requires Valid()
      reads this, buff, len, unicast, ifNum
    {
      Ring(front, rear, FramesTo(MAX_QUEUE))
    }

    ghost function FramesTo(n: nat): (fs: seq<Frame>)
      requires Valid() && n <= MAX_QUEUE
      reads this, buff, len, unicast, ifNum
      ensures |fs| == n && forall i :: 0 <= i < n ==> fs[i] == FrameAt(i)
    {
      if n == 0 then [] else FramesTo(n - 1) + [FrameAt(n - 1)]
    }

    /** A queue as Init_Q leaves it. */
    constructor ()
      ensures Valid() && State() == START && fresh(buff) && fresh(len) && fresh(unicast) && fresh(ifNum)
    {
      buff := new Byte[MAX_QUEUE, MAX_FRAME_LEN];
      len := new nat[MAX_QUEUE](_ => 0);
      unicast := new nat[MAX_QUEUE];
      ifNum := new nat[MAX_QUEUE];
      front, rear := -1, -1;
      new;
      InitQ();
    }

    method InitQ()
      requires Valid()
      modifies this, buff, len, unicast, ifNum
      ensures Valid() && State() == START
    {
      front, rear := -1, -1;
      var i := 0;
      while i < MAX_QUEUE
        invariant 0 <= i <= MAX_QUEUE && Valid() && front == rear == -1
        invariant forall k :: 0 <= k < i ==> len[k] == 0 && unicast[k] == 0 && ifNum[k] == 0
      {
        var j := 0;
        while j < MAX_FRAME_LEN
          modifies buff
        {
          buff[i, j] := 0;
          j := j + 1;
        }
        len[i], unicast[i], ifNum[i] := 0, 0, 0;
        i := i + 1;
      }
      assert State().slots == START.slots by {
        forall k | 0 <= k < MAX_QUEUE ensures FrameAt(k) == Frame([], 0, 0) { }
      }
    }

    method IsEmpty() returns (b: bool)
      requires Valid()
      ensures b == Empty(State())
    {
      return front == rear;
    }

    method IsFull() returns (b: bool)
      requires Valid()
      ensures b == Full(State())
    {
      var tmp := (rear + 1) % MAX_QUEUE;
      return tmp == front;
    }

    /** memcpy of n bytes into slot k. */
    method CopyIn(k: nat, n: nat, pBuf: seq<Byte>)
      requires Valid() && k < MAX_QUEUE && n <= |pBuf| && n <= MAX_FRAME_LEN
      modifies buff
      ensures forall j :: 0 <= j < n ==> buff[k, j] == pBuf[j]
      ensures forall i, j :: 0 <= i < MAX_QUEUE && 0 <= j < MAX_FRAME_LEN && i != k ==> buff[i, j] == old(buff[i, j])
    {
      var j := 0;
      while j < n
        invariant 0 <= j <= n
        invariant forall m :: 0 <= m < j ==> buff[k, m] == pBuf[m]
        invariant forall i, m :: 0 <= i < MAX_QUEUE && 0 <= m < MAX_FRAME_LEN && i != k ==>
                    buff[i, m] == old(buff[i, m])
      {
        buff[k, j] := pBuf[j];
        j := j + 1;
      }
    }

    method AddQ(n: nat, pBuf: seq<Byte>, uniType: nat, ifChan: nat)
      requires Valid() && n <= |pBuf| && n <= MAX_FRAME_LEN
      modifies this`rear, buff, len, unicast, ifNum
      ensures Valid() && State() == Put(old(State()), Frame(pBuf[..n], uniType, ifChan))
    {
      ghost var r := State();
      var full := IsFull();
      if !full {
        rear := (rear + 1) % MAX_QUEUE;
        len[rear] := n;
        CopyIn(rear, n, pBuf);
        unicast[rear] := uniType;
        ifNum[rear] := ifChan;
        assert FrameAt(rear).payload == pBuf[..n];
        forall i | 0 <= i < MAX_QUEUE && i != rear ensures FrameAt(i) == r.slots[i] { }
        assert State().slots == r.slots[rear := Frame(pBuf[..n], uniType, ifChan)];
      }
    }

    method DeleteQ()
      requires Valid()
      modifies this`front
      ensures Valid() && State() == Advance(old(State()))
    {
      ghost var r := State();
      var empty := IsEmpty();
      if !empty {
        front := (front + 1) % MAX_QUEUE;
        forall i | 0 <= i < MAX_QUEUE ensures FrameAt(i) == r.slots[i] { }
        assert State().slots == r.slots;
      }
    }

    /** The transmit timer's use of the queue: take the frame off first, then copy it out of the front slot. */
    method TxTimer() returns (sent: seq<Frame>)
      requires Valid()
      modifies this`front
      ensures Valid() && State() == Do(old(State()), Send) && sent == Emits(old(State()), Send)
    {
      var empty := IsEmpty();
      sent := [];
      if !empty {
        DeleteQ();
        var payload: seq<Byte> := [];
        var i := 0;
        while i < len[front]
          invariant 0 <= i <= len[front] && |payload| == i && forall j :: 0 <= j < i ==> payload[j] == buff[front, j]
        {
          payload := payload + [buff[front, i]];
          i := i + 1;
        }
        sent := [Frame(payload, unicast[front], ifNum[front])];
        assert payload == FrameAt(front).payload;
      }
    }
  }
}
