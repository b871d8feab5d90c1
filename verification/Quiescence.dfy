/**
 * Between timer events floods die out: hellos, announcement floods, request floods, replies and the error cascade
 * together cause only finitely many deliveries, with a bound computed from the state. (Acknowledgements and unicast
 * error reports, which follow uplinks, are the subject of module Reports.)
 */
module Quiescence {
  import opened Prelude
  import opened Messages
  import opened RouteTable
  import opened Handlers
  import opened NodeInvariants
  import opened Network

  function Pow(b: nat, e: nat): (p: nat)
    ensures b > 0 ==> p > 0
  {
    if e == 0 then 1 else b * Pow(b, e - 1)
  }

  lemma {:induction false} PowGrows(b: nat, d: nat, e: nat)
    requires b > 0 && d <= e
    ensures Pow(b, d) <= Pow(b, e)
    decreases e
  {
    if d < e {
      PowGrows(b, d, e - 1);
      assert Pow(b, e) == b * Pow(b, e - 1) >= Pow(b, e - 1);
    }
  }

  // ------------------------------------------------------------------ weights

  /** The most a copy of the message can still cause in a network of n nodes. */
  function Weight(n: nat, m: Msg): (w: nat) {
    match m
    case HelloMsg(_) => n + 1
    case SchHelloMsg(_) => 1
    case RannMsg(r) => Pow(n + 1, r.ttl + 5)
    case PreqMsg(q) => Pow(n + 1, q.ttl + 1)
    case PrepMsg(p) => (|p.ext| + 1) * (2 * n + 1)
    case PerrMsg(_) => 1
    case RannAckMsg(_, _) => 1
    case PerrUniMsg(_, _) => 1
  }

  function BagWeight(n: nat, bag: seq<Packet>): nat {
    if bag == [] then 0 else Weight(n, bag[0].msg) + BagWeight(n, bag[1..])
  }

  function OutWeight(n: nat, o: Out): nat {
    if o.Broadcast? then n * Weight(n, o.msg) else Weight(n, o.msg)
  }

  function OutsWeight(n: nat, outs: seq<Out>): nat {
    if outs == [] then 0 else OutWeight(n, outs[0]) + OutsWeight(n, outs[1..])
  }

  /** Routes in use in the given nodes. */
  ghost function Routes(nodes: map<Addr, Node>, ids: set<Addr>): nat
    requires ids <= nodes.Keys
    decreases |ids|
  {
    if ids == {} then 0 else
    var x := Pick(ids);
    Used(nodes[x].rt, |nodes[x].rt|) + Routes(nodes, ids - {x})
  }

  /** Every route in use pays for one error message to each node. */
  ghost function Energy(net: Net): nat
    requires net.c.ids <= net.nodes.Keys
  {
    |net.c.ids| * Routes(net.nodes, net.c.ids) + BagWeight(|net.c.ids|, net.bag)
  }

  lemma {:induction false} BagWeightConcat(n: nat, a: seq<Packet>, b: seq<Packet>)
    ensures BagWeight(n, a + b) == BagWeight(n, a) + BagWeight(n, b)
  {
    if a == [] {
      assert a + b == b;
    } else {
      assert (a + b)[1..] == a[1..] + b;
      BagWeightConcat(n, a[1..], b);
    }
  }

  lemma BagWeightWithout(n: nat, bag: seq<Packet>, i: nat)
    requires i < |bag|
    ensures BagWeight(n, bag) == BagWeight(n, Without(bag, i)) + Weight(n, bag[i].msg)
  {
    assert bag == bag[..i] + ([bag[i]] + bag[i + 1..]);
    BagWeightConcat(n, bag[..i], [bag[i]] + bag[i + 1..]);
    BagWeightConcat(n, bag[..i], bag[i + 1..]);
    assert ([bag[i]] + bag[i + 1..])[1..] == bag[i + 1..];
  }

  lemma {:induction false} CopiesWeight(n: nat, ids: set<Addr>, src: Addr, m: Msg)
    ensures BagWeight(n, Copies(ids, src, m)) <= |ids| * Weight(n, m)
    decreases |ids|
  {
    if ids != {} {
      var x := Pick(ids);
      var w, rest := Weight(n, m), Copies(ids - {x}, src, m);
      CopiesWeight(n, ids - {x}, src, m);
      MulStep(|ids| - 1, w);
      var head := if x != src then [Packet(src, x, m, [])] else [];
      BagWeightConcat(n, head, rest);
      OneCopy(n, Packet(src, x, m, []));
    }
  }

  lemma MulStep(k: nat, w: nat)
    ensures (k + 1) * w == k * w + w
  {
  }

  lemma OneCopy(n: nat, pk: Packet)
    ensures BagWeight(n, [pk]) == Weight(n, pk.msg)
  {
    assert BagWeight(n, [pk][1..]) == 0;
  }

  lemma {:induction false} SendAllWeight(c: Config, src: Addr, outs: seq<Out>, trail: seq<Addr>)
    ensures BagWeight(|c.ids|, SendAll(c, src, outs, trail)) <= OutsWeight(|c.ids|, outs)
  {
    if outs != [] {
      SendAllWeight(c, src, outs[1..], trail);
      BagWeightConcat(|c.ids|, Send(c, src, outs[0], trail), SendAll(c, src, outs[1..], trail));
      if outs[0].Broadcast? { CopiesWeight(|c.ids|, c.ids, src, outs[0].msg); }
    }
  }

  // ------------------------------------------------------------------ one node

  lemma {:induction false} UsedThinned(t: seq<Route>, t': seq<Route>, k: nat)
    requires Thinned(t, t') && k <= |t|
    ensures Used(t', k) <= Used(t, k)
  {
    if k > 0 { UsedThinned(t, t', k - 1); }
  }

  lemma UsedInsert(t: seq<Route>, f: Fresh, now: int)
    ensures |Insert(t, f, now)| == |t| && Used(Insert(t, f, now), |t|) <= Used(t, |t|) + 1
  {
    if First(t, Free).Some? {
      var i := First(t, Free).value;
      UsedUpdate(t, i, Fill(t[i], f, now), |t|);
    }
  }

  /** Each error message passed on is paid for by a route that is deleted. */
  lemma {:induction false} EchoesPaid(t: seq<Route>, rootAddr: Addr, p: Perr, t': seq<Route>, k: nat)
    requires p.dest != 0 && |t'| == |t| && k <= |t| && forall i :: 0 <= i < |t| ==> SlotOk(t[i])
    requires forall i :: 0 <= i < |t| ==> t'[i] == if PerrKills(t[i], rootAddr, p) then EMPTY else t[i]
    ensures Used(t', k) + EchoCount(t, rootAddr, p, k) <= Used(t, k)
  {
    if k > 0 {
      EchoesPaid(t, rootAddr, p, t', k - 1);
      assert SlotOk(t[k - 1]);
    }
  }

  lemma {:induction false} RepeatWeight(n: nat, o: Out, k: nat)
    ensures OutsWeight(n, Repeat(o, k)) == k * OutWeight(n, o)
  {
    if k > 0 {
      assert Repeat(o, k)[1..] == Repeat(o, k - 1);
      RepeatWeight(n, o, k - 1);
      assert k * OutWeight(n, o) == OutWeight(n, o) + (k - 1) * OutWeight(n, o);
    }
  }

  lemma OutsWeightConcat(n: nat, a: seq<Out>, b: seq<Out>)
    requires |a| <= 1 && |b| <= 1
    ensures OutsWeight(n, a + b) == OutsWeight(n, a) + OutsWeight(n, b)
  {
    if a == [] { assert a + b == b; } else { assert (a + b)[1..] == b; }
  }

  /** Handling a message costs less than the message weighs. */
  ghost predicate Cheaper(n: nat, before: Node, m: Msg, after: Node, outs: seq<Out>) {
    |after.rt| == |before.rt| &&
    n * Used(after.rt, |after.rt|) + OutsWeight(n, outs) < n * Used(before.rt, |before.rt|) + Weight(n, m)
  }

  lemma Scale(n: nat, a: nat, b: nat, d: nat)
    requires a <= b + d
    ensures n * a <= n * b + n * d
  {
    assert n * (b + d) == n * b + n * d;
    assert n * a <= n * (b + d);
  }

  lemma HelloCheap(c: Config, n: Node, h: Hello, now: int, size: nat)
    requires NodeOk(c, n)
    ensures Cheaper(size, n, HelloMsg(h), HelloProcess(n, h, now), [])
    ensures Cheaper(size, n, SchHelloMsg(h), SchHelloProcess(n, h, now), [])
  {
    var n1, n2 := HelloProcess(n, h, now), SchHelloProcess(n, h, now);
    match First(n.rt, ByDest(h.orig)) {
      case None =>
        UsedInsert(n.rt, Fresh(h.orig, h.orig, n.me, None, 1, h.ip, 1, 0, 0), now);
      case Some(i) =>
        UsedUpdate(n.rt, i, n1.rt[i], |n.rt|);
        UsedUpdate(n.rt, i, n2.rt[i], |n.rt|);
    }
    Scale(size, Used(n1.rt, |n1.rt|), Used(n.rt, |n.rt|), 1);
  }

  lemma RannWeights(size: nat, t: nat)
    requires 1 <= size && 1 <= t
    ensures (if t > 1 then size * Pow(size + 1, t + 4) else 0) + size * Pow(size + 1, 5) < Pow(size + 1, t + 5)
    ensures 1 <= size * Pow(size + 1, 5)
  {
    var b := size + 1;
    assert Pow(b, 6) == size * Pow(b, 5) + Pow(b, 5);
    assert size * Pow(b, 5) >= Pow(b, 5);
    if t > 1 {
      PowGrows(b, 6, t + 4);
      assert Pow(b, t + 5) == size * Pow(b, t + 4) + Pow(b, t + 4);
    }
  }

  lemma AnswerWeight(n: Node, size: nat)
    requires 1 <= size
    ensures |AnswerRann(n)| <= 1 && OutsWeight(size, AnswerRann(n)) <= size * Pow(size + 1, 5)
  {
    RannWeights(size, 1);
    if First(n.rt, ByKey(n.rootAddr, n.me)).None? {
      assert OutsWeight(size, AnswerRann(n)) == size * Pow(size + 1, 4 + 1);
    }
  }

  lemma RannCheap(c: Config, n: Node, src: Addr, r: Rann, size: nat)
    requires ConfigOk(c) && NodeOk(c, n) && MsgOk(c, src, RannMsg(r)) && 1 <= size
    ensures Cheaper(size, n, RannMsg(r), RannProcess(n, r).0, RannProcess(n, r).1)
  {
    var (n', outs) := RannProcess(n, r);
    RannWeights(size, r.ttl);
    JoinOk(c, n, r.id);
    if Accepts(n, r) {
      AdoptOk(c, JoinEpoch(n, r.id), r);
      var fwd := if r.ttl > 1 then [Broadcast(RannMsg(r.(ttl := r.ttl - 1)))] else [];
      AnswerWeight(n', size);
      OutsWeightConcat(size, fwd, AnswerRann(n'));
      assert OutsWeight(size, fwd) == if r.ttl > 1 then size * Pow(size + 1, r.ttl + 4) else 0;
    }
    UsedThinned(n.rt, n'.rt, |n.rt|);
    Scale(size, Used(n'.rt, |n'.rt|), Used(n.rt, |n.rt|), 0);
  }

  lemma PreqCheap(c: Config, n: Node, src: Addr, q: Preq, env: Env, size: nat)
    requires ConfigOk(c) && NodeOk(c, n) && PreqOk(c, src, q) && PreqReady(n, q)
    ensures Cheaper(size, n, PreqMsg(q), PreqProcess(n, src, q, env).0, PreqProcess(n, src, q, env).1)
  {
    var (n', outs) := PreqProcess(n, src, q, env);
    var q1 := AddLink(n, src, q);
    PowGrows(size + 1, 1, q.ttl + 1);
    assert Pow(size + 1, 1) == size + 1;
    if n.me == q.dest {
      RootUsed(n, src, q1, env);
      Scale(size, Used(n'.rt, |n'.rt|), Used(n.rt, |n.rt|), 1);
    } else {
      ForwardCheap(n.me, q1, size);
    }
  }

  /** A forward to every node weighs less than the request itself. */
  lemma ForwardCheap(me: Addr, q: Preq, size: nat)
    requires 0 < q.ttl <= 5
    ensures OutsWeight(size, PreqForward(me, q)) < Weight(size, PreqMsg(q))
  {
    PowStep(size, q.ttl);
    if PreqForward(me, q) != [] { OneOut(size, PreqForward(me, q)[0]); }
  }

  lemma PowStep(size: nat, e: nat)
    ensures Pow(size + 1, e + 1) == size * Pow(size + 1, e) + Pow(size + 1, e)
  {
  }

  lemma OneOut(n: nat, o: Out)
    ensures OutsWeight(n, [o]) == OutWeight(n, o)
  {
    assert OutsWeight(n, [o][1..]) == 0;
  }

  lemma RootUsed(n: Node, src: Addr, q: Preq, env: Env)
    requires |n.rt| == |n.tmp| == |n.armed| && (First(n.rt, ByDest(q.orig)).None? ==> First(n.rt, Free).Some?)
    ensures var n' := RootPreq(n, src, q, env);
            |n'.rt| == |n.rt| && Used(n'.rt, |n.rt|) <= Used(n.rt, |n.rt|) + 1
  {
    match First(n.rt, ByDest(q.orig)) {
      case None => UsedInsert(n.rt, Fresh(q.orig, src, n.me, None, q.hcnt, q.ip, 0, q.alm, q.seqno), env.now);
      case Some(i) => UsedUpdate(n.rt, i, Refresh(n.rt[i], src, q.hcnt, q.alm, q.seqno, env.junk), |n.rt|);
    }
  }

  lemma UplinkCheap(n: Node, src: Addr, p: Prep, env: Env)
    requires PrepReady(n, p)
    ensures var t' := Uplink(n, src, p, env).rt; |t'| == |n.rt| && Used(t', |t'|) <= Used(n.rt, |n.rt|) + 1
  {
    match First(n.rt, ByKey(p.orig, p.dest))
    case None =>
      var prev := if |p.ext| > 0 then Some(p.ext[|p.ext| - 1]) else None;
      UsedInsert(n.rt, Fresh(p.orig, src, p.dest, prev, p.hcnt, p.origIP, 0, 0, p.seqno), env.now);
    case Some(i) => UsedUpdate(n.rt, i, Refresh(n.rt[i], src, p.hcnt, 0, p.seqno, env.junk), |n.rt|);
  }

  lemma PrepCheap(n: Node, src: Addr, p: Prep, env: Env, size: nat)
    requires PrepReady(n, p)
    ensures Cheaper(size, n, PrepMsg(p), PrepProcess(n, src, p, env).0, PrepProcess(n, src, p, env).1)
  {
    var (n', outs) := PrepProcess(n, src, p, env);
    var n1 := Uplink(n, src, p, env);
    UplinkCheap(n, src, p, env);
    if |p.ext| > 0 {
      UsedInsert(n1.rt, Fresh(p.dest, ExtAt(p.ext, env.past, 2 * (|p.ext| - 1)), p.orig, Some(src),
                              |p.ext|, p.destIP, 0, 0, 0), env.now);
      assert OutsWeight(size, outs) <= |p.ext| * (2 * size + 1);
    }
    assert (|p.ext| + 1) * (2 * size + 1) == |p.ext| * (2 * size + 1) + 2 * size + 1;
    Scale(size, Used(n'.rt, |n'.rt|), Used(n.rt, |n.rt|), 2);
  }

  lemma PerrUsed(c: Config, n: Node, src: Addr, p: Perr)
    requires NodeOk(c, n) && MsgOk(c, src, PerrMsg(p))
    ensures var t' := PerrProcess(n, p).0.rt;
            |t'| == |n.rt| && Used(t', |n.rt|) + EchoCount(n.rt, n.rootAddr, p, |n.rt|) <= Used(n.rt, |n.rt|)
  {
    EchoesPaid(n.rt, n.rootAddr, p, PerrProcess(n, p).0.rt, |n.rt|);
  }

  lemma PerrCheap(c: Config, n: Node, src: Addr, p: Perr, size: nat)
    requires NodeOk(c, n) && MsgOk(c, src, PerrMsg(p))
    ensures Cheaper(size, n, PerrMsg(p), PerrProcess(n, p).0, PerrProcess(n, p).1)
  {
    var o := Broadcast(PerrMsg(Perr(p.timeout, n.me)));
    PerrUsed(c, n, src, p);
    RepeatWeight(size, o, EchoCount(n.rt, n.rootAddr, p, |n.rt|));
    Paid(size, Used(PerrProcess(n, p).0.rt, |n.rt|), EchoCount(n.rt, n.rootAddr, p, |n.rt|), Used(n.rt, |n.rt|),
         OutWeight(size, o));
  }

  lemma Paid(size: nat, after: nat, echoes: nat, before: nat, w: nat)
    requires after + echoes <= before && w == size * 1
    ensures size * after + echoes * w <= size * before
  {
    Scale(size, after + echoes, before, 0);
    assert size * (after + echoes) == size * after + size * echoes;
  }

  /** Messages that are passed on along the uplinks of one originator. */
  predicate Report(m: Msg) { m.RannAckMsg? || m.PerrUniMsg? }

  function Origin(m: Msg): Addr requires Report(m) { if m.RannAckMsg? then m.orig else m.reporter }

  lemma ReceiveCheap(c: Config, n: Node, pk: Packet, env: Env)
    requires ConfigOk(c) && NodeOk(c, n) && PacketOk(c, pk) && pk.dst == n.me && Ready(n, pk.msg) && !Report(pk.msg)
    ensures Cheaper(|c.ids|, n, pk.msg, Receive(n, pk.src, pk.msg, env).0, Receive(n, pk.src, pk.msg, env).1)
  {
    match pk.msg {
      case HelloMsg(h) => HelloCheap(c, n, h, env.now, |c.ids|);
      case SchHelloMsg(h) => HelloCheap(c, n, h, env.now, |c.ids|);
      case RannMsg(r) => RannCheap(c, n, pk.src, r, |c.ids|);
      case PreqMsg(q) => PreqCheap(c, n, pk.src, q, env, |c.ids|);
      case PrepMsg(p) => PrepCheap(n, pk.src, p, env, |c.ids|);
      case PerrMsg(p) => PerrCheap(c, n, pk.src, p, |c.ids|);
    }
  }

  /** Node n passes report m on. Of an acknowledgement it must be the node named, and know the originator. */
  predicate Passes(n: Node, m: Msg) requires Report(m) {
    && !n.isRoot && NextHop(n, Origin(m)).Some?
    && (m.RannAckMsg? ==> n.me == m.next && First(n.rt, ByDest(m.orig)).Some?)
  }

  /** The report as it goes on to y. */
  function Onward(m: Msg, y: Addr): (m': Msg)
    requires Report(m)
    ensures Report(m') && Origin(m') == Origin(m)
  {
    if m.RannAckMsg? then RannAckMsg(m.orig, y) else m
  }

  /** A report changes nothing and goes to the next hop of its originator, if it is passed on. */
  lemma ReportMovesOn(n: Node, src: Addr, m: Msg, env: Env)
    requires |n.rt| == |n.tmp| == |n.armed| && Ready(n, m) && Report(m)
    ensures Receive(n, src, m, env).0 == n
    ensures Receive(n, src, m, env).1 ==
            if Passes(n, m) then [Unicast(NextHop(n, Origin(m)).value, Onward(m, NextHop(n, Origin(m)).value))] else []
  {
  }

  // ------------------------------------------------------------------ the network

  lemma {:induction false} RoutesUpdate(nodes: map<Addr, Node>, x: Addr, n: Node, ids: set<Addr>)
    requires ids <= nodes.Keys && x in nodes
    ensures Routes(nodes[x := n], ids) == Routes(nodes, ids) +
              if x in ids then Used(n.rt, |n.rt|) - Used(nodes[x].rt, |nodes[x].rt|) else 0
    decreases |ids|
  {
    if ids != {} { RoutesUpdate(nodes, x, n, ids - {Pick(ids)}); }
  }

  lemma BagChange(a: Net, s: Step, b: Net)
    requires Next(a, s, b) && (s.Deliver? || s.Lose?)
    ensures var n := |a.c.ids|;
            BagWeight(n, b.bag) + Weight(n, a.bag[s.i].msg) <= BagWeight(n, a.bag) + OutsWeight(n, Turn(a, s).1)
  {
    var n := |a.c.ids|;
    BagWeightWithout(n, a.bag, s.i);
    BagWeightConcat(n, Rest(a, s), SendAll(a.c, Actor(a, s), Turn(a, s).1, TrailOf(a, s)));
    SendAllWeight(a.c, Actor(a, s), Turn(a, s).1, TrailOf(a, s));
  }

  /** The step delivers a report. */
  predicate Carries(a: Net, s: Step) requires s.Deliver? || s.Lose? {
    s.Deliver? && s.i < |a.bag| && Report(a.bag[s.i].msg)
  }

  lemma TurnCheap(a: Net, s: Step)
    requires NetOk(a) && Can(a, s) && (s.Deliver? || s.Lose?) && !Carries(a, s)
    ensures Actor(a, s) in a.nodes
            && Cheaper(|a.c.ids|, a.nodes[Actor(a, s)], a.bag[s.i].msg, Turn(a, s).0, Turn(a, s).1)
  {
    assert NodeOk(a.c, a.nodes[Actor(a, s)]);
    if s.Deliver? {
      assert PacketOk(a.c, a.bag[s.i]);
      ReceiveCheap(a.c, a.nodes[Actor(a, s)], a.bag[s.i], s.env);
    } else {
      WeightPositive(|a.c.ids|, a.bag[s.i].msg);
    }
  }

  lemma WeightPositive(n: nat, m: Msg)
    ensures Weight(n, m) > 0
  {
    if m.PrepMsg? { MulStep(|m.prep.ext|, 2 * n + 1); }
  }

  lemma Balance(n: nat, ra: nat, rb: nat, ua: nat, ub: nat)
    requires rb == ra + ub - ua
    ensures n * rb == n * ra + n * ub - n * ua
  {
    assert n * (rb + ua) == n * (ra + ub);
  }

  /** The delivery of a report changes nothing but the bag: the report is gone, or has moved to its next hop. */
  lemma ReportStep(a: Net, i: nat, env: Env, b: Net)
    requires NetOk(a) && Next(a, Deliver(i, env), b) && Report(a.bag[i].msg)
    ensures a.bag[i].dst in a.nodes && b == a.(bag := b.bag)
    ensures var pk := a.bag[i]; var n := a.nodes[pk.dst]; var y := NextHop(n, Origin(pk.msg));
            if Passes(n, pk.msg) && y.value in a.c.ids && y.value != pk.dst
            then b.bag == Without(a.bag, i) + [Packet(pk.dst, y.value, Onward(pk.msg, y.value), [])]
            else b.bag == Without(a.bag, i)
  {
    var pk := a.bag[i];
    var n := a.nodes[pk.dst];
    assert NodeOk(a.c, n);
    ReportMovesOn(n, pk.src, pk.msg, env);
    assert a.nodes[pk.dst := n] == a.nodes;
    if Passes(n, pk.msg) {
      var y := NextHop(n, Origin(pk.msg)).value;
      SendOne(a.c, pk.dst, Unicast(y, Onward(pk.msg, y)));
    }
  }

  lemma SendOne(c: Config, src: Addr, o: Out)
    ensures SendAll(c, src, [o], []) == Send(c, src, o, [])
  {
    assert [o][1..] == [];
  }

  /** If it is passed on the energy may stay, else it falls. */
  lemma ReportEnergy(a: Net, i: nat, env: Env, b: Net)
    requires NetOk(a) && Next(a, Deliver(i, env), b) && Report(a.bag[i].msg)
    ensures b.c.ids <= b.nodes.Keys && Energy(b) <= Energy(a) && (|b.bag| < |a.bag| ==> Energy(b) < Energy(a))
  {
    var n := |a.c.ids|;
    ReportStep(a, i, env, b);
    BagWeightWithout(n, a.bag, i);
    if |b.bag| == |a.bag| {
      var last := b.bag[|b.bag| - 1];
      BagWeightConcat(n, Without(a.bag, i), [last]);
      OneCopy(n, last);
    }
  }

  lemma FloodEnergy(a: Net, s: Step, b: Net)
    requires NetOk(a) && Next(a, s, b) && (s.Deliver? || s.Lose?) && !Carries(a, s)
    ensures b.c == a.c && b.c.ids <= b.nodes.Keys && Energy(b) < Energy(a)
  {
    var x, n := Actor(a, s), |a.c.ids|;
    TurnOk(a, s);
    RoutesUpdate(a.nodes, x, Turn(a, s).0, a.c.ids);
    BagChange(a, s, b);
    TurnCheap(a, s);
    Balance(n, Routes(a.nodes, a.c.ids), Routes(b.nodes, a.c.ids),
            Used(a.nodes[x].rt, |a.nodes[x].rt|), Used(b.nodes[x].rt, |b.nodes[x].rt|));
  }

  /** Every delivery and every loss lowers the energy, unless a report is passed on. */
  lemma EnergyDrops(a: Net, s: Step, b: Net)
    requires NetOk(a) && Next(a, s, b) && (s.Deliver? || s.Lose?)
    ensures NetOk(b) && b.c == a.c && Energy(b) <= Energy(a)
    ensures !Carries(a, s) || |b.bag| < |a.bag| ==> Energy(b) < Energy(a)
  {
    NextOk(a, s, b);
    if Carries(a, s) {
      ReportStep(a, s.i, s.env, b);
      ReportEnergy(a, s.i, s.env, b);
    } else {
      FloodEnergy(a, s, b);
    }
  }

  /** How many of the first k steps are anything but the delivery of a report. */
  function FloodSteps(r: Run, k: nat): (n: nat)
    requires k <= |r.steps| && k <= |r.states|
    ensures n <= k
  {
    if k == 0 then 0 else
    FloodSteps(r, k - 1) +
      if r.steps[k - 1].Deliver? && r.steps[k - 1].i < |r.states[k - 1].bag| &&
         Report(r.states[k - 1].bag[r.steps[k - 1].i].msg) then 0 else 1
  }

  /** A run of deliveries and losses only. */
  ghost predicate Quiet(r: Run) {
    IsRun(r) && forall k :: 0 <= k < |r.steps| ==> r.steps[k].Deliver? || r.steps[k].Lose?
  }

  lemma {:induction false} RunOk(r: Run, k: nat)
    requires IsRun(r) && NetOk(r.states[0]) && k < |r.states|
    ensures NetOk(r.states[k]) && r.states[k].c == r.states[0].c
  {
    if k > 0 {
      RunOk(r, k - 1);
      NextOk(r.states[k - 1], r.steps[k - 1], r.states[k]);
    }
  }

  /** No step changes the energy by less than its share. */
  lemma FloodStep(r: Run, k: nat)
    requires Quiet(r) && NetOk(r.states[0]) && k < |r.steps|
    ensures NetOk(r.states[k]) && NetOk(r.states[k + 1])
    ensures FloodSteps(r, k + 1) + Energy(r.states[k + 1]) <= FloodSteps(r, k) + Energy(r.states[k])
  {
    RunOk(r, k);
    EnergyDrops(r.states[k], r.steps[k], r.states[k + 1]);
  }

  /** Flood steps made and energy left, state by state. */
  ghost function Ledger(r: Run): (v: seq<nat>)
    requires IsRun(r) && NetOk(r.states[0])
    ensures |v| == |r.states| && forall t :: 0 <= t < |v| ==>
              NetOk(r.states[t]) && v[t] == FloodSteps(r, t) + Energy(r.states[t])
  {
    forall t | 0 <= t < |r.states| ensures NetOk(r.states[t]) { RunOk(r, t); }
    seq(|r.states|, t requires 0 <= t < |r.states| => FloodSteps(r, t) + Energy(r.states[t]))
  }

  /**
   * Main theorem: in a run of deliveries and losses only, from any state in order, all but the deliveries of reports
   * are no more than the energy of that state. Floods die out, replies arrive and error cascades end, on any number
   * of nodes and any topology, whatever the uplinks look like.
   */
  lemma FloodsEnd(r: Run, k: nat)
    requires Quiet(r) && NetOk(r.states[0]) && k <= |r.steps|
    ensures NetOk(r.states[k])
    ensures FloodSteps(r, k) + Energy(r.states[k]) <= Energy(r.states[0])
  {
    var v := Ledger(r);
    forall t | 0 <= t < k ensures NoHigher(v, t) { FloodStep(r, t); }
    NeverHigher(v, k);
  }
}
