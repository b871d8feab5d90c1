/**
 * The run of module CrossedReplies goes on: once the relays have heard another announcement, an error report of the
 * originator is caught between them.
 */
module TrappedReport {
  import opened Prelude
  import opened Messages
  import opened RouteTable
  import opened Handlers
  import opened NodeInvariants
  import opened Network
  import opened Uplinks
  import opened LoopFreedom
  import opened CrossedReplies
  import opened Reports

  /** The four nodes as values. */
  datatype Mesh = Mesh(root: Node, orig: Node, left: Node, right: Node)

  ghost predicate Now(net: Net, m: Mesh) {
    net.c == C && Is(net, 1, m.root) && Is(net, 2, m.orig) && Is(net, 3, m.left) && Is(net, 4, m.right)
  }

  // ------------------------------------------------------------------ announcements reach the relays

  /** The root announces to both relays. */
  lemma Proclaim(a: Net, m: Mesh) returns (b: Net)
    requires Reached(a) && Now(a, m) && m.root.me == ROOT && m.root.order == 2
    requires m.root.metric == 1 && m.root.rate == 12 && m.root.channel == 172 && m.root.reset == 0 && m.root.rid == 7
    ensures Reached(b) && Now(b, m.(root := m.root.(order := 3)))
    ensures Packet(1, 3, RannMsg(Announcement(3)), []) in b.bag && Packet(1, 4, RannMsg(Announcement(3)), []) in b.bag
  {
    b := RootAnnounces(a, m.root);
    SentTo(C, 1, RannMsg(Announcement(3)), 3);
    SentTo(C, 1, RannMsg(Announcement(3)), 4);
  }

  /** A relay takes note of the root and keeps its table. */
  function Informed(n: Node): Node { n.(order := 3, rootAddr := ROOT) }

  lemma InformedTurn(x: Addr, rt: seq<Route>)
    requires x in {3, 4} && |rt| == SLOTS
    ensures RannProcess(Start(x).(rt := rt), Announcement(3)).0 == Informed(Start(x).(rt := rt))
  {
  }

  lemma Hear(a: Net, m: Mesh, x: Addr) returns (b: Net)
    requires Reached(a) && Now(a, m) && x in {3, 4} && Packet(1, x, RannMsg(Announcement(3)), []) in a.bag
    requires var n := if x == 3 then m.left else m.right; |n.rt| == SLOTS && n == Start(x).(rt := n.rt)
    ensures Reached(b) && Now(b, if x == 3 then m.(left := Informed(m.left)) else m.(right := Informed(m.right)))
    ensures forall p :: p in a.bag && p != Packet(1, x, RannMsg(Announcement(3)), []) ==> p in b.bag
  {
    var n := if x == 3 then m.left else m.right;
    InformedTurn(x, n.rt);
    b := Give(a, Packet(1, x, RannMsg(Announcement(3)), []), n, Informed(n), RannProcess(n, Announcement(3)).1, CALM);
  }

  // ---------------------------------------------------------------- the originator meets two neighbours and loses one

  lemma Beckon(a: Net, m: Mesh, x: Addr) returns (b: Net)
    requires Reached(a) && Now(a, m) && x in {1, 3} && (if x == 1 then m.root else m.left).ip == IP
    ensures Reached(b) && Now(b, m) && Packet(x, 2, HelloMsg(Hello(x, IP)), []) in b.bag
  {
    ReachedOk(a);
    b := Go(a, HelloSend(x), x, if x == 1 then m.root else m.left, [Broadcast(HelloMsg(Hello(x, IP)))]);
    SentTo(C, x, HelloMsg(Hello(x, IP)), 2);
  }

  lemma Meet(a: Net, m: Mesh, x: Addr, t: int) returns (b: Net)
    requires Reached(a) && Now(a, m) && Packet(x, 2, HelloMsg(Hello(x, IP)), []) in a.bag
    requires |m.orig.rt| == |m.orig.tmp| == |m.orig.armed|
    ensures Reached(b) && Now(b, m.(orig := HelloProcess(m.orig, Hello(x, IP), t)))
  {
    b := Give(a, Packet(x, 2, HelloMsg(Hello(x, IP)), []), m.orig, HelloProcess(m.orig, Hello(x, IP), t), [],
              Env(t, 0, []));
  }

  function Neighbour(x: Addr, t: int): Route {
    EMPTY.(dest := x, destIP := IP, source := 2, next := x, hcnt := 1, valid := true, firstHello := t, lastHello := t,
           helloCnt := 1)
  }

  /** Node 3 was heard at 0, the root at 100. */
  function Met(): Node { Asking(2).(rt := Asking(2).rt[0 := Neighbour(3, 0)][1 := Neighbour(1, 100)]) }

  lemma MeetTwo()
    ensures HelloProcess(HelloProcess(Asking(2), Hello(3, IP), 0), Hello(1, IP), 100) == Met()
  {
    var t := Asking(2).rt;
    assert First(t, ByDest(3)).None? && Matches(t[0], Free) && First(t, Free) == Some(0);
    assert HelloProcess(Asking(2), Hello(3, IP), 0).rt == t[0 := Neighbour(3, 0)];
    var t1 := t[0 := Neighbour(3, 0)];
    assert First(t1, ByDest(1)).None? && Matches(t1[1], Free) && First(t1, Free) == Some(1);
  }

  lemma Skip(n: Node, now: int, limit: int, i: nat)
    requires |n.rt| == |n.tmp| && i < |n.rt| && !Expired(n.rt[i], now, limit)
    ensures HelloTimeout(n, now, limit, i) == HelloTimeout(n, now, limit, i + 1)
  {
    var o := HelloTimeout(n, now, limit, i + 1).1;
    assert [] + o == o;
  }

  lemma {:induction false} NoneExpired(n: Node, now: int, limit: int, i: nat)
    requires |n.rt| == |n.tmp| && i <= |n.rt| && forall j :: i <= j < |n.rt| ==> !Expired(n.rt[j], now, limit)
    ensures HelloTimeout(n, now, limit, i) == (n, [])
    decreases |n.rt| - i
  {
    if i < |n.rt| {
      Skip(n, now, limit, i);
      NoneExpired(n, now, limit, i + 1);
    }
  }

  /** The originator once it has missed node 3: it still has its own way to the root. */
  function Left(): Node { Purge(Met(), 0) }

  /** Slot k is the last one overdue. */
  lemma LastExpired(n: Node, now: int, limit: int, k: nat)
    requires |n.rt| == |n.tmp| && k < |n.rt| && Expired(n.rt[k], now, limit)
    requires forall j :: k < j < |n.rt| ==> !Expired(n.rt[j], now, limit)
    ensures HelloTimeout(n, now, limit, k).0 == Purge(n, k) && HelloTimeout(n, now, limit, k).1 == TimeoutOuts(n, k)
  {
    forall j | k < j < |n.rt| ensures !Expired(Purge(n, k).rt[j], now, limit) {
      assert Purge(n, k).rt[j] in {EMPTY, n.rt[j]};
    }
    NoneExpired(Purge(n, k), now, limit, k + 1);
  }

  lemma Misses(n: Node, now: int, limit: int)
    requires |n.rt| == |n.tmp| == SLOTS && now == 100 && limit == 10
    requires n.rt[0] == Neighbour(3, 0) && n.rt[1] == Neighbour(1, now)
    requires forall j :: 1 < j < SLOTS ==> n.rt[j] == EMPTY
    ensures HelloTimeout(n, now, limit).0 == Purge(n, 0) && HelloTimeout(n, now, limit).1 == TimeoutOuts(n, 0)
  {
    LastExpired(n, now, limit, 0);
  }

  lemma Tells(n: Node)
    requires n == Met()
    ensures var outs := TimeoutOuts(n, 0); |outs| > 0 && outs[|outs| - 1] == Broadcast(PerrUniMsg(3, 2))
  {
    LeftOk();
  }

  predicate To(n: Node, y: Addr) { Hop(n.rt, ROOT, 2).Some? && Hop(n.rt, ROOT, 2).value.0 == y }

  lemma LeftOk()
    ensures To(Left(), 1) && Left().rootAddr == ROOT
  {
    assert Matches(Left().rt[1], ByKey(ROOT, 2));
  }

  /** The last thing node x broadcasts in a step of its own reaches z. */
  lemma LastSent(x: Addr, outs: seq<Out>, m: Msg, z: Addr)
    requires |outs| > 0 && outs[|outs| - 1] == Broadcast(m) && z in C.ids && z != x
    ensures Packet(x, z, m, []) in SendAll(C, x, outs, [])
  {
    CopyFor(C.ids, x, m, z);
    SentOne(C, x, outs, [], |outs| - 1, Packet(x, z, m, []));
  }

  lemma Miss(a: Net, m: Mesh, now: int, limit: int) returns (b: Net)
    requires Reached(a) && Now(a, m) && m.orig == Met() && now == 100 && limit == 10
    ensures Reached(b) && Now(b, m.(orig := Left())) && Packet(2, 3, PerrUniMsg(3, 2), []) in b.bag
  {
    Misses(m.orig, now, limit);
    Tells(m.orig);
    b := Check(a, m, now, limit, Left(), TimeoutOuts(m.orig, 0));
  }

  lemma Check(a: Net, m: Mesh, now: int, limit: int, n': Node, outs: seq<Out>) returns (b: Net)
    requires Reached(a) && Now(a, m) && |m.orig.rt| == |m.orig.tmp| && HelloTimeout(m.orig, now, limit) == (n', outs)
    requires |outs| > 0 && outs[|outs| - 1] == Broadcast(PerrUniMsg(3, 2))
    ensures Reached(b) && Now(b, m.(orig := n')) && Packet(2, 3, PerrUniMsg(3, 2), []) in b.bag
  {
    ReachedOk(a);
    b := Go(a, HelloCheck(2, now, limit), 2, n', outs);
    LastSent(2, outs, PerrUniMsg(3, 2), 3);
  }

  // ------------------------------------------------------------------ the trap

  lemma {:induction false} TwoCycle(g: Graph, x: Addr, y: Addr, n: nat)
    requires x in g && y in g && g[x] == y && g[y] == x
    ensures Walk(g, x, n).Some?
    decreases n
  {
    if n > 0 { TwoCycle(g, y, x, n - 1); }
  }

  lemma PassesOn(net: Net, n: Node, m: Msg, x: Addr, y: Addr)
    requires m == PerrUniMsg(3, 2) && Is(net, x, n) && To(n, y) && n.rootAddr == ROOT
    requires !n.isRoot && y in net.c.ids && y != x
    ensures x in Way(net, m) && Way(net, m)[x] == y
  {
    assert NextHop(n, 2) == Some(y);
  }

  lemma Trap(net: Net, m: Mesh, i: nat)
    requires NetOk(net) && Now(net, m) && To(m.left, 4) && To(m.right, 3) && i < |net.bag|
    requires m.left.rootAddr == m.right.rootAddr == ROOT && net.bag[i] == Packet(2, 3, PerrUniMsg(3, 2), [])
    ensures Stuck(net, i)
  {
    var g := Way(net, net.bag[i].msg);
    assert NodeOk(C, net.nodes[3]) && NodeOk(C, net.nodes[4]);
    PassesOn(net, m.left, net.bag[i].msg, 3, 4);
    PassesOn(net, m.right, net.bag[i].msg, 4, 3);
    forall n: nat ensures Walk(g, 3, n).Some? { TwoCycle(g, 3, 4, n); }
  }

  /** After the crossing the relays hear of the root. */
  lemma Told() returns (b: Net, m: Mesh)
    ensures Reached(b) && Now(b, m) && To(m.left, 4) && To(m.right, 3) && m.root.ip == m.left.ip == IP
    ensures m.orig == Asking(2) && m.left.rootAddr == m.right.rootAddr == ROOT
  {
    var a := BothAnswered();
    var b0 := Cross(a);
    ReachedOk(b0);
    m := Mesh(b0.nodes[1], b0.nodes[2], b0.nodes[3], b0.nodes[4]);
    var b1 := Proclaim(b0, m);
    m := m.(root := m.root.(order := 3));
    var b2 := Hear(b1, m, 3);
    m := m.(left := Informed(m.left));
    b := Hear(b2, m, 4);
    m := m.(right := Informed(m.right));
  }

  /** And the originator of two neighbours. */
  lemma Prepared() returns (b: Net, m: Mesh)
    ensures Reached(b) && Now(b, m) && To(m.left, 4) && To(m.right, 3)
    ensures m.orig == Met() && m.left.rootAddr == m.right.rootAddr == ROOT
  {
    b, m := Told();
    b := Beckon(b, m, 3);
    b := Meet(b, m, 3, 0);
    m := m.(orig := HelloProcess(m.orig, Hello(3, IP), 0));
    b := Beckon(b, m, 1);
    b := Meet(b, m, 1, 100);
    m := m.(orig := HelloProcess(m.orig, Hello(1, IP), 100));
    MeetTwo();
  }

  /** Then it misses one of them and reports it. */
  lemma Reported() returns (b: Net, m: Mesh)
    ensures Reached(b) && Now(b, m) && To(m.left, 4) && To(m.right, 3)
    ensures m.left.rootAddr == m.right.rootAddr == ROOT && Packet(2, 3, PerrUniMsg(3, 2), []) in b.bag
  {
    var a, m0 := Prepared();
    b := Miss(a, m0, 100, 10);
    m := m0.(orig := Left());
  }

  /** From power-on, a mesh of four nodes can come to a state in which an error report travels for ever. */
  lemma ReportTrapped() returns (r: Run, i: nat)
    ensures IsRun(r) && Init(r.states[0]) && Stuck(r.states[|r.steps|], i)
  {
    var b, m := Reported();
    ReachedOk(b);
    i :| 0 <= i < |b.bag| && b.bag[i] == Packet(2, 3, PerrUniMsg(3, 2), []);
    Trap(b, m, i);
    r :| LeadsTo(r, b);
  }
}
