/**
 * Why uplink loop freedom needs its condition: a run from power-on, with one root and three nodes, in which two
 * replies for the same originator overlap and leave two nodes pointing at each other.
 */
module CrossedReplies {
  import opened Prelude
  import opened Messages
  import opened RouteTable
  import opened Handlers
  import opened NodeInvariants
  import opened Network
  import opened Uplinks
  import opened LoopFreedom
  import opened Replies

  const ROOT: Addr := 1
  const C: Config := Config({1, 2, 3, 4}, ROOT)
  const NOTHING: Stored := Stored(false, Preq(0, 0, 0, 0, 0, 0, 0, []))
  const IP: nat := 9
  const CALM: Env := Env(0, 0, [])

  function Start(x: Addr): Node {
    Node(x, x == ROOT, IP, seq(SLOTS, _ => EMPTY), seq(SLOTS, _ => NOTHING), seq(SLOTS, _ => false),
         if x == ROOT then ROOT else 0, 0, 7, 1, 12, 172, 0)
  }

  /** The originator after k announcements. */
  function Asking(k: nat): Node { if k == 0 then Start(2) else Start(2).(order := k, rootAddr := ROOT) }

  ghost predicate LeadsTo(r: Run, net: Net) { IsRun(r) && Init(r.states[0]) && r.states[|r.steps|] == net }

  ghost predicate Reached(net: Net) { exists r: Run :: LeadsTo(r, net) }

  predicate Is(net: Net, x: Addr, n: Node) { x in net.nodes && net.nodes[x] == n }

  /** The root is n, the originator has asked k times, the two relays know nothing yet. */
  ghost predicate At(net: Net, n: Node, k: nat) {
    net.c == C && net.rid == 7 && Is(net, 1, n) && Is(net, 2, Asking(k)) && Is(net, 3, Start(3)) && Is(net, 4, Start(4))
  }

  lemma Extend(a: Net, st: Step, b: Net)
    requires Reached(a) && Next(a, st, b)
    ensures Reached(b)
  {
    var r: Run :| LeadsTo(r, a);
    var q := Run(r.states + [b], r.steps + [st]);
    forall k | 0 <= k < |q.steps| ensures Next(q.states[k], q.steps[k], q.states[k + 1]) {
      if k < |r.steps| { assert Next(r.states[k], r.steps[k], r.states[k + 1]); }
    }
    assert q.states[0] == r.states[0] && LeadsTo(q, b);
  }

  lemma ReachedOk(net: Net)
    requires Reached(net)
    ensures NetOk(net) && Shape(net)
  {
    var r: Run :| LeadsTo(r, net);
    AlwaysOk(r, |r.steps|);
    ShapeOk(net);
  }

  lemma {:induction false} CopyFor(ids: set<Addr>, src: Addr, m: Msg, z: Addr)
    requires z in ids && z != src
    ensures Packet(src, z, m, []) in Copies(ids, src, m)
    decreases |ids|
  {
    var x := Pick(ids);
    if x != z { CopyFor(ids - {x}, src, m, z); }
  }

  lemma {:induction false} SentOne(c: Config, src: Addr, outs: seq<Out>, trail: seq<Addr>, k: nat, pk: Packet)
    requires k < |outs| && pk in Send(c, src, outs[k], trail)
    ensures pk in SendAll(c, src, outs, trail)
  {
    if k > 0 { SentOne(c, src, outs[1..], trail, k - 1, pk); }
  }

  lemma SentTo(c: Config, src: Addr, m: Msg, z: Addr)
    requires z in c.ids && z != src
    ensures Packet(src, z, m, []) in SendAll(c, src, [Broadcast(m)], [])
  {
    CopyFor(c.ids, src, m, z);
    SentOne(c, src, [Broadcast(m)], [], 0, Packet(src, z, m, []));
  }

  lemma Stays(bag: seq<Packet>, i: nat, p: Packet)
    requires i < |bag| && p in bag && p != bag[i]
    ensures p in Without(bag, i)
  {
    var m :| 0 <= m < |bag| && bag[m] == p;
    assert Without(bag, i)[if m < i then m else m - 1] == p;
  }

  /** Another state of the run, in which node x has become n. */
  ghost predicate Evolves(a: Net, b: Net, x: Addr, n: Node) {
    Reached(b) && b.c == a.c && b.rid == a.rid && b.nodes == a.nodes[x := n]
  }

  ghost predicate Holds(b: Net, sent: seq<Packet>) { forall p :: p in sent ==> p in b.bag }

  /** One step of the run: everything in flight stays so but the message delivered. */
  lemma Go(a: Net, st: Step, x: Addr, n: Node, outs: seq<Out>) returns (b: Net)
    requires Reached(a) && Can(a, st) && !st.Lose? && Actor(a, st) == x && Turn(a, st) == (n, outs)
    ensures Evolves(a, b, x, n) && Holds(b, SendAll(a.c, x, outs, TrailOf(a, st)))
    ensures forall p :: p in a.bag && !(st.Deliver? && p == a.bag[st.i]) ==> p in b.bag
  {
    b := Apply(a, st);
    Extend(a, st, b);
    forall p | p in a.bag && !(st.Deliver? && p == a.bag[st.i]) ensures p in b.bag {
      if st.Deliver? { Stays(a.bag, st.i, p); }
    }
  }

  /** Packet pk, which is not a reply, is delivered to node o, which becomes n. */
  lemma Give(a: Net, pk: Packet, o: Node, n: Node, outs: seq<Out>, env: Env) returns (b: Net)
    requires Reached(a) && pk in a.bag && !pk.msg.PrepMsg? && Is(a, pk.dst, o) && |o.rt| == |o.tmp| == |o.armed|
    requires Ready(o, pk.msg) && Receive(o, pk.src, pk.msg, env) == (n, outs)
    ensures Evolves(a, b, pk.dst, n) && Holds(b, SendAll(a.c, pk.dst, outs, []))
    ensures forall p :: p in a.bag && p != pk ==> p in b.bag
  {
    ReachedOk(a);
    var i :| 0 <= i < |a.bag| && a.bag[i] == pk;
    b := Go(a, Deliver(i, env), pk.dst, n, outs);
  }

  lemma RootAnnounces(a: Net, n: Node) returns (b: Net)
    requires Reached(a) && a.c == C && Is(a, ROOT, n) && n.order + 1 < TWO32
    ensures Evolves(a, b, ROOT, RannSend(n).0) && Holds(b, SendAll(C, ROOT, RannSend(n).1, []))
    ensures forall p :: p in a.bag ==> p in b.bag
  {
    ReachedOk(a);
    b := Go(a, RannTimer, ROOT, RannSend(n).0, RannSend(n).1);
  }

  lemma RootAnswers(a: Net, o: Node, n: Node, outs: seq<Out>) returns (b: Net)
    requires Reached(a) && a.c == C && Is(a, ROOT, o) && |o.rt| == |o.tmp| == |o.armed| == SLOTS && o.armed[0]
    requires 1 <= o.tmp[0].preq.hcnt <= |o.tmp[0].preq.ext| && PrepFire(o, 0) == (n, outs)
    ensures Evolves(a, b, ROOT, n) && Holds(b, SendAll(C, ROOT, outs, []))
    ensures forall p :: p in a.bag ==> p in b.bag
  {
    ReachedOk(a);
    b := Go(a, PrepTimer(0), ROOT, n, outs);
  }

  /** The root announces. */
  lemma Announce(a: Net, n: Node, k: nat) returns (b: Net)
    requires Reached(a) && At(a, n, k) && n.me == ROOT && n.order + 1 < TWO32
    ensures Reached(b) && At(b, n.(order := n.order + 1, reset := 0), k)
    ensures Packet(1, 2, RannMsg(Rann(1, n.order + 1, 3, n.metric, n.rate, n.channel, n.reset, n.rid)), []) in b.bag
    ensures forall p :: p in a.bag ==> p in b.bag
  {
    b := RootAnnounces(a, n);
    SentTo(C, 1, RannMsg(Rann(1, n.order + 1, 3, n.metric, n.rate, n.channel, n.reset, n.rid)), 2);
  }

  function Announcement(k: nat): Rann { Rann(1, k, 3, 1, 12, 172, 0, 7) }

  function Request(k: nat): Preq { Preq(1, 1, 2, 4, k, IP, 0, [2]) }

  lemma AskTurn(k: nat)
    ensures RannProcess(Asking(k), Announcement(k + 1)).0 == Asking(k + 1)
    ensures var outs := RannProcess(Asking(k), Announcement(k + 1)).1;
            |outs| == 2 && outs[1] == Broadcast(PreqMsg(Request(k + 1)))
  {
    var n := Asking(k);
    assert JoinEpoch(n, 7) == n;
    assert Adopt(n, Announcement(k + 1)) == Asking(k + 1);
  }

  lemma Broadcasts(c: Config, src: Addr, outs: seq<Out>, k: nat, m: Msg, z: Addr)
    requires k < |outs| && outs[k] == Broadcast(m) && z in c.ids && z != src
    ensures Packet(src, z, m, []) in SendAll(c, src, outs, [])
  {
    CopyFor(c.ids, src, m, z);
    SentOne(c, src, outs, [], k, Packet(src, z, m, []));
  }

  /** The originator hears the (k+1)-st announcement and asks for a path. */
  lemma Ask(a: Net, n: Node, k: nat, z: Addr) returns (b: Net)
    requires Reached(a) && At(a, n, k) && z in {3, 4} && Packet(1, 2, RannMsg(Announcement(k + 1)), []) in a.bag
    ensures Reached(b) && At(b, n, k + 1) && Packet(2, z, PreqMsg(Request(k + 1)), []) in b.bag
    ensures forall p :: p in a.bag && !p.msg.RannMsg? ==> p in b.bag
  {
    AskTurn(k);
    var outs := RannProcess(Asking(k), Announcement(k + 1)).1;
    b := Give(a, Packet(1, 2, RannMsg(Announcement(k + 1)), []), Asking(k), Asking(k + 1), outs, CALM);
    Broadcasts(C, 2, outs, 1, PreqMsg(Request(k + 1)), z);
  }

  function Longer(q: Preq, x: Addr): Preq requires q.ttl > 0 {
    q.(ttl := q.ttl - 1, hcnt := q.hcnt + 1, ext := q.ext + [x])
  }

  lemma NoRepeat(x: Addr, q: Preq)
    requires x != 0 && q.hcnt == |q.ext| <= 2 && x !in q.ext
    ensures !RepeatHit(x, q, [])
  {
    assert Probe(0) == 0 && Probe(1) == 1;
  }

  /** A table without routes leaves a request's metric as it is, and the next budget is one less. */
  lemma Onward(n: Node, src: Addr, q: Preq)
    requires n.rt == seq(SLOTS, _ => EMPTY) && 2 <= q.ttl <= 4 && q.hcnt <= 2
    ensures AddLink(n, src, q) == q && PreqForward(n.me, q) == [Broadcast(PreqMsg(Longer(q, n.me)))]
  {
    assert First(n.rt, ByDest(src)).None?;
  }

  lemma PassedOn(n: Node, src: Addr, q: Preq)
    requires |n.rt| == |n.tmp| == |n.armed| && n.me != q.dest && AddLink(n, src, q) == q
    requires n.me != 0 && q.hcnt == |q.ext| <= 2 && n.me !in q.ext
    ensures PreqReady(n, q)
    ensures PreqProcess(n, src, q, CALM).0 == n
    ensures PreqProcess(n, src, q, CALM).1 == PreqForward(n.me, q)
  {
    NoRepeat(n.me, q);
  }

  lemma RelayTurn(x: Addr, src: Addr, q: Preq)
    requires x in {3, 4} && q.dest == ROOT && 2 <= q.ttl <= 4 && q.hcnt == |q.ext| <= 2 && x !in q.ext
    ensures PreqReady(Start(x), q)
    ensures PreqProcess(Start(x), src, q, CALM).0 == Start(x)
    ensures PreqProcess(Start(x), src, q, CALM).1 == [Broadcast(PreqMsg(Longer(q, x)))]
  {
    var n := Start(x);
    Onward(n, src, q);
    PassedOn(n, src, q);
  }

  /** A relay passes a request on. */
  lemma Relay(a: Net, n: Node, k: nat, src: Addr, x: Addr, z: Addr, q: Preq) returns (b: Net)
    requires Reached(a) && At(a, n, k) && x in {3, 4} && z in C.ids && z != x && Packet(src, x, PreqMsg(q), []) in a.bag
    requires q.dest == ROOT && 2 <= q.ttl <= 4 && q.hcnt == |q.ext| <= 2 && x !in q.ext
    ensures Reached(b) && At(b, n, k) && Packet(x, z, PreqMsg(Longer(q, x)), []) in b.bag
    ensures forall p :: p in a.bag && p != Packet(src, x, PreqMsg(q), []) ==> p in b.bag
  {
    RelayTurn(x, src, q);
    var outs := [Broadcast(PreqMsg(Longer(q, x)))];
    b := Give(a, Packet(src, x, PreqMsg(q), []), Start(x), Start(x), outs, CALM);
    Broadcasts(C, x, outs, 0, PreqMsg(Longer(q, x)), z);
  }

  // ------------------------------------------------------------------ the root

  /** The root after k announcements, with route e and request q in slot 0; the slot's timer runs when `used`. */
  function Holding(k: nat, e: Route, q: Preq, used: bool): Node {
    Start(ROOT).(order := k, rt := Start(ROOT).rt[0 := e], tmp := Start(ROOT).tmp[0 := Stored(used, q)],
                 armed := Start(ROOT).armed[0 := used])
  }

  function RouteFrom(src: Addr, q: Preq): Route {
    EMPTY.(dest := q.orig, destIP := IP, next := src, source := ROOT, hcnt := q.hcnt, valid := true,
           alm := q.alm, seqno := q.seqno)
  }

  lemma FirstTurn(src: Addr, q: Preq)
    requires q.orig == 2 && q.dest == ROOT && q.ip == IP && src != 0
    ensures PreqReady(Start(ROOT).(order := 1), q)
    ensures PreqProcess(Start(ROOT).(order := 1), src, q, CALM) == (Holding(1, RouteFrom(src, q), q, true), [])
  {
    var n := Start(ROOT).(order := 1);
    assert First(n.rt, ByDest(src)).None? && First(n.rt, ByDest(2)).None?;
    assert Matches(n.rt[0], Free) && First(n.rt, Free) == Some(0);
    assert Insert(n.rt, Fresh(2, src, ROOT, None, q.hcnt, IP, 0, q.alm, q.seqno), 0) == n.rt[0 := RouteFrom(src, q)];
  }

  /** A later request replaces an earlier one that has been answered, even if it is no shorter. */
  lemma NextTurn(src: Addr, e: Route, p: Preq, q: Preq)
    requires q.orig == 2 && q.dest == ROOT && src in {3, 4} && p.orig == 2
    requires e.valid && e.dest == 2 && e.hcnt != 1 && e.seqno < q.seqno
    ensures PreqReady(Holding(2, e, p, false), q)
    ensures PreqProcess(Holding(2, e, p, false), src, q, CALM) ==
            (Holding(2, Refresh(e, src, q.hcnt, q.alm, q.seqno, 0), q, true), [])
  {
    var n := Holding(2, e, p, false);
    assert First(n.rt, ByDest(src)).None?;
    assert Matches(n.rt[0], ByDest(2)) && First(n.rt, ByDest(2)) == Some(0);
    assert Last(n.rt, ByDest(2), SLOTS) == Some(0);
    var t := Start(ROOT);
    Overwrite(t.rt, e, Refresh(e, src, q.hcnt, q.alm, q.seqno, 0));
    Overwrite(t.tmp, Stored(false, p), Stored(true, q));
    Overwrite(t.armed, false, true);
  }

  lemma Overwrite<T>(s: seq<T>, x: T, y: T)
    requires s != []
    ensures s[0 := x][0 := y] == s[0 := y]
  {
  }

  /** The root takes a request without sending anything. */
  lemma Take(a: Net, n: Node, k: nat, src: Addr, q: Preq, n': Node) returns (b: Net)
    requires Reached(a) && At(a, n, k) && Packet(src, 1, PreqMsg(q), []) in a.bag && |n.rt| == |n.tmp| == |n.armed|
    requires PreqReady(n, q) && PreqProcess(n, src, q, CALM) == (n', [])
    ensures Reached(b) && At(b, n', k) && forall p :: p in a.bag && p.msg.PrepMsg? ==> p in b.bag
  {
    b := Give(a, Packet(src, 1, PreqMsg(q), []), n, n', [], CALM);
  }

  function Reply(q: Preq): Packet requires |q.ext| > 0 && q.hcnt == |q.ext| {
    Packet(ROOT, q.ext[q.hcnt - 1], PrepMsg(Prep(1, 2, ROOT, IP, IP, q.seqno, q.ext[..q.hcnt - 1])), [])
  }

  lemma FireTurn(k: nat, e: Route, q: Preq)
    requires e.valid && e.dest == q.orig == 2 && q.ip == IP && q.seqno < 256 && 0 < q.hcnt == |q.ext|
    ensures PrepFire(Holding(k, e, q, true), 0) == (Holding(k, e, q, false), [Unicast(Reply(q).dst, Reply(q).msg)])
  {
    var n := Holding(k, e, q, true);
    assert Matches(n.rt[0], ByDest(2)) && Last(n.rt, ByDest(2), SLOTS) == Some(0);
    Overwrite(Start(ROOT).tmp, Stored(true, q), Stored(false, q));
    Overwrite(Start(ROOT).armed, true, false);
  }

  /** The selection timer fires and the request kept is answered. */
  lemma Fire(a: Net, k: nat, e: Route, q: Preq) returns (b: Net)
    requires Reached(a) && At(a, Holding(k, e, q, true), k) && e.valid && e.dest == q.orig == 2 && q.ip == IP
    requires q.seqno < 256 && 0 < q.hcnt == |q.ext| && q.ext[q.hcnt - 1] in {3, 4}
    ensures Reached(b) && At(b, Holding(k, e, q, false), k) && Reply(q) in b.bag
    ensures forall p :: p in a.bag ==> p in b.bag
  {
    FireTurn(k, e, q);
    var outs := [Unicast(Reply(q).dst, Reply(q).msg)];
    b := RootAnswers(a, Holding(k, e, q, true), Holding(k, e, q, false), outs);
    SentOne(C, 1, outs, [], 0, Reply(q));
  }

  // ------------------------------------------------------------------ the run

  /** What reaches the root of the (k+1)-st request by way of x and y. */
  function Via(k: nat, x: Addr, y: Addr): Preq { Preq(3, 1, 2, 2, k, IP, 0, [2, x, y]) }

  /** The root announces and the originator asks. */
  lemma Asked(a: Net, n: Node, k: nat, x: Addr) returns (b: Net)
    requires Reached(a) && At(a, n, k) && n.order == k && n.me == ROOT && k < 2 && x in {3, 4}
    requires n.metric == 1 && n.rate == 12 && n.channel == 172 && n.reset == 0 && n.rid == 7
    ensures Reached(b) && At(b, n.(order := k + 1), k + 1) && Packet(2, x, PreqMsg(Request(k + 1)), []) in b.bag
    ensures forall p :: p in a.bag && p.msg.PrepMsg? ==> p in b.bag
  {
    var b1 := Announce(a, n, k);
    b := Ask(b1, n.(order := k + 1), k, x);
  }

  /** The request reaches the root by way of x and y. */
  lemma Relayed(a: Net, n: Node, k: nat, x: Addr, y: Addr) returns (b: Net)
    requires Reached(a) && At(a, n, k) && {x, y} == {3, 4} && Packet(2, x, PreqMsg(Request(k)), []) in a.bag
    ensures Reached(b) && At(b, n, k) && Packet(y, 1, PreqMsg(Via(k, x, y)), []) in b.bag
    ensures forall p :: p in a.bag && p.msg.PrepMsg? ==> p in b.bag
  {
    var q := Request(k);
    var b1 := Relay(a, n, k, 2, x, y, q);
    assert Longer(Longer(q, x), y) == Via(k, x, y);
    b := Relay(b1, n, k, x, y, 1, Longer(q, x));
  }

  lemma Round(a: Net, n: Node, k: nat, x: Addr, y: Addr) returns (b: Net)
    requires Reached(a) && At(a, n, k) && n.order == k && n.me == ROOT && k < 2 && {x, y} == {3, 4}
    requires n.metric == 1 && n.rate == 12 && n.channel == 172 && n.reset == 0 && n.rid == 7
    ensures Reached(b) && At(b, n.(order := k + 1), k + 1) && Packet(y, 1, PreqMsg(Via(k + 1, x, y)), []) in b.bag
    ensures forall p :: p in a.bag && p.msg.PrepMsg? ==> p in b.bag
  {
    var b1 := Asked(a, n, k, x);
    b := Relayed(b1, n.(order := k + 1), k + 1, x, y);
  }

  /** A reply for node 2 is on its way from src to x. */
  ghost predicate Flies(net: Net, src: Addr, x: Addr, ext: seq<Addr>) {
    exists i :: 0 <= i < |net.bag| && Fits(net.bag[i], src, x, ext)
  }

  predicate Fits(pk: Packet, src: Addr, x: Addr, ext: seq<Addr>) {
    pk.src == src && pk.dst == x && pk.msg.PrepMsg? && pk.msg.prep.dest == 2 && pk.msg.prep.ext == ext
  }

  predicate Points(net: Net, x: Addr, y: Addr) {
    x in net.nodes && Hop(net.nodes[x].rt, ROOT, 2).Some? && Hop(net.nodes[x].rt, ROOT, 2).value.0 == y
  }

  /** The newest message is the reply that node x has passed on. */
  ghost predicate OnItsWay(net: Net, x: Addr, ext: seq<Addr>) {
    ext != [] ==> |net.bag| > 0 && Fits(net.bag[|net.bag| - 1], x, ext[|ext| - 1], ext[..|ext| - 1])
  }

  lemma OnlyTable(n: Node, src: Addr, p: Prep, env: Env)
    requires PrepReady(n, p)
    ensures PrepProcess(n, src, p, env).0 == n.(rt := PrepProcess(n, src, p, env).0.rt)
  {
  }

  /** A reply is delivered to a node with room, which then points to where it came from. */
  lemma Hand(a: Net, i: nat, x: Addr) returns (b: Net)
    requires Reached(a) && a.c == C && i < |a.bag| && a.bag[i].msg.PrepMsg? && a.bag[i].msg.prep.dest == 2
    requires a.bag[i].dst == x && x in a.nodes && Room(C, a.nodes[x], 2)
    ensures Reached(b) && b.c == C && OnItsWay(b, x, a.bag[i].msg.prep.ext)
    ensures Points(b, x, a.bag[i].src) && b.nodes == a.nodes[x := b.nodes[x]]
    ensures b.nodes[x] == a.nodes[x].(rt := b.nodes[x].rt)
    ensures forall p :: p in a.bag && p != a.bag[i] ==> p in b.bag
  {
    ReachedOk(a);
    assert PacketOk(a.c, a.bag[i]);
    PrepStepOk(C, a.nodes[x], a.bag[i].src, a.bag[i].msg.prep, a.bag[i].trail, CALM);
    OnlyTable(a.nodes[x], a.bag[i].src, a.bag[i].msg.prep, CALM);
    b := Apply(a, Deliver(i, CALM));
    Extend(a, Deliver(i, CALM), b);
    ReplyActor(a, i, CALM, b);
    ReplyMovesOn(a, i, CALM, b);
    forall p | p in a.bag && p != a.bag[i] ensures p in b.bag { Stays(a.bag, i, p); }
  }

  lemma OthersFly(a: Net, i: nat, b: Net, src: Addr, x: Addr, ext: seq<Addr>)
    requires i < |a.bag| && Fits(a.bag[i], src, x, ext) && forall p :: p in a.bag && p != a.bag[i] ==> p in b.bag
    ensures forall s, y, e {:trigger Flies(a, s, y, e)} ::
              (s != src || y != x) && Flies(a, s, y, e) ==> Flies(b, s, y, e)
  {
    forall s, y, e | (s != src || y != x) && Flies(a, s, y, e) ensures Flies(b, s, y, e) {
      var j :| 0 <= j < |a.bag| && Fits(a.bag[j], s, y, e);
      assert a.bag[j] in a.bag && a.bag[j] in b.bag;
    }
  }

  /** It then moves on, and no other reply is disturbed. */
  lemma Arrive(a: Net, src: Addr, x: Addr, ext: seq<Addr>) returns (b: Net)
    requires Reached(a) && a.c == C && Flies(a, src, x, ext) && x in a.nodes && Room(C, a.nodes[x], 2)
    ensures Reached(b) && b.c == C && b.nodes.Keys == a.nodes.Keys
    ensures Points(b, x, src) && b.nodes[x] == a.nodes[x].(rt := b.nodes[x].rt)
    ensures forall z :: z in a.nodes && z != x ==> b.nodes[z] == a.nodes[z]
    ensures forall s, y, e {:trigger Flies(a, s, y, e)} ::
              (s != src || y != x) && Flies(a, s, y, e) ==> Flies(b, s, y, e)
    ensures |ext| > 0 ==> Flies(b, x, ext[|ext| - 1], ext[..|ext| - 1])
  {
    var i :| 0 <= i < |a.bag| && Fits(a.bag[i], src, x, ext);
    b := Hand(a, i, x);
    OthersFly(a, i, b, src, x, ext);
  }

  lemma RoomAt(n: Node)
    ensures First(n.rt, Free).Some? || Hop(n.rt, ROOT, 2).Some? ==> Room(C, n, 2)
  {
  }

  /**
   * The two replies are delivered in turn: each relay first learns the way to the root, then forgets it for the other.
   */
  lemma Cross(a: Net) returns (b: Net)
    requires Reached(a) && a.c == C && Is(a, 3, Start(3)) && Is(a, 4, Start(4))
    requires Flies(a, 1, 4, [2, 3]) && Flies(a, 1, 3, [2, 4])
    ensures Reached(b) && b.c == C && b.nodes.Keys == a.nodes.Keys && Points(b, 3, 4) && Points(b, 4, 3)
    ensures b.nodes[3] == Start(3).(rt := b.nodes[3].rt) && b.nodes[4] == Start(4).(rt := b.nodes[4].rt)
    ensures forall z :: z in a.nodes && z != 3 && z != 4 ==> b.nodes[z] == a.nodes[z]
  {
    assert [2, 3][..1] == [2] == [2, 4][..1];
    assert Matches(Start(3).rt[0], Free) && Matches(Start(4).rt[0], Free);
    RoomAt(a.nodes[4]);
    var b1 := Arrive(a, 1, 4, [2, 3]);
    RoomAt(b1.nodes[3]);
    var b2 := Arrive(b1, 1, 3, [2, 4]);
    RoomAt(b2.nodes[3]);
    var b3 := Arrive(b2, 4, 3, [2]);
    RoomAt(b3.nodes[4]);
    b := Arrive(b3, 3, 4, [2]);
  }

  function Early(): Route { RouteFrom(4, Via(1, 3, 4)) }

  function Late(): Route { Refresh(Early(), 3, 3, 0, 2, 0) }

  lemma PowerOn() returns (a: Net)
    ensures Reached(a) && At(a, Start(1), 0)
  {
    a := Net(C, 7, map[1 := Start(1), 2 := Start(2), 3 := Start(3), 4 := Start(4)], [], []);
    assert LeadsTo(Run([a], []), a);
  }

  /** The first request is taken and answered. */
  lemma FirstAnswered() returns (b: Net)
    ensures Reached(b) && At(b, Holding(1, Early(), Via(1, 3, 4), false), 1) && Reply(Via(1, 3, 4)) in b.bag
  {
    var a := PowerOn();
    var q := Via(1, 3, 4);
    var b1 := Round(a, Start(1), 0, 3, 4);
    FirstTurn(4, q);
    var b2 := Take(b1, Start(1).(order := 1), 1, 4, q, Holding(1, Early(), q, true));
    b := Fire(b2, 1, Early(), q);
  }

  lemma SecondAnswered(a: Net) returns (b: Net)
    requires Reached(a) && At(a, Holding(2, Early(), Via(1, 3, 4), false), 2)
    requires Packet(3, 1, PreqMsg(Via(2, 4, 3)), []) in a.bag
    ensures Reached(b) && At(b, Holding(2, Late(), Via(2, 4, 3), false), 2) && Reply(Via(2, 4, 3)) in b.bag
    ensures forall p :: p in a.bag && p.msg.PrepMsg? ==> p in b.bag
  {
    var q1, q2 := Via(1, 3, 4), Via(2, 4, 3);
    NextTurn(3, Early(), q1, q2);
    var a1 := Take(a, Holding(2, Early(), q1, false), 2, 3, q2, Holding(2, Late(), q2, true));
    b := Fire(a1, 2, Late(), q2);
  }

  /** So is the second, before either reply is delivered. */
  lemma BothAnswered() returns (b: Net)
    ensures Reached(b) && At(b, Holding(2, Late(), Via(2, 4, 3), false), 2)
    ensures Flies(b, 1, 4, [2, 3]) && Flies(b, 1, 3, [2, 4])
  {
    var q1, q2 := Via(1, 3, 4), Via(2, 4, 3);
    var b3 := FirstAnswered();
    var b4 := Round(b3, Holding(1, Early(), q1, false), 1, 4, 3);
    b := SecondAnswered(b4);
    assert Fits(Reply(q1), 1, 4, [2, 3]) && Fits(Reply(q2), 1, 3, [2, 4]);
  }

  /** Nodes 3 and 4 send each other what node 2 sends to the root. */
  ghost predicate PointAtEachOther(net: Net) {
    var g := Ups(net, 2);
    3 in g && 4 in g && g[3] == 4 && g[4] == 3
  }

  lemma Crossed() returns (r: Run)
    ensures IsRun(r) && Init(r.states[0]) && PointAtEachOther(r.states[|r.steps|])
  {
    var a := BothAnswered();
    var b := Cross(a);
    r :| LeadsTo(r, b);
  }

  lemma PointersLoop(net: Net)
    requires PointAtEachOther(net)
    ensures !Acyclic(Ups(net, 2))
  {
    var g := Ups(net, 2);
    assert Walk(g, 4, 1) == Some(3) && Walk(g, 3, 2) == Some(3);
  }

  /**
   * From power-on, one originator and two overlapping replies suffice for an uplink loop: the run ends with two nodes
   * that point at each other, and somewhere in it two replies for the originator are in flight.
   */
  lemma OverlappingRepliesLoop() returns (r: Run, k: nat)
    ensures IsRun(r) && Init(r.states[0]) && PointAtEachOther(r.states[|r.steps|])
    ensures !Acyclic(Ups(r.states[|r.steps|], 2)) && k < |r.steps| && !OneReply(r.states[k], 2)
  {
    r := Crossed();
    PointersLoop(r.states[|r.steps|]);
    if forall j :: 0 <= j < |r.steps| ==> OneReply(r.states[j], 2) {
      UplinksNeverLoop(r, 2, |r.steps|, 3);
      assert false;
    } else {
      k :| 0 <= k < |r.steps| && !OneReply(r.states[k], 2);
    }
  }
}
