/**
 * The root's selection window: from the first request of an originator until the slot's timer fires, the root keeps
 * the best request it has seen, and answers along its route.
 */
module SelectionWindow {
  import opened Prelude
  import opened Messages
  import opened RouteTable
  import opened Handlers
  import opened NodeInvariants
  import opened Network
  import opened Effects

  function Root(net: Net): Node requires net.c.root in net.nodes { net.nodes[net.c.root] }

  /** Slot j's window is open. */
  ghost predicate Open(net: Net, j: nat) {
    net.c.root in net.nodes && j < |Root(net).tmp| && Root(net).tmp[j].used
  }

  function Kept(net: Net, j: nat): Preq requires net.c.root in net.nodes && j < |Root(net).tmp| {
    Root(net).tmp[j].preq
  }

  /** The step brings the root a request of originator s. */
  predicate Brings(net: Net, st: Step, s: Addr) {
    && st.Deliver? && st.i < |net.bag| && net.bag[st.i].dst == net.c.root
    && net.bag[st.i].msg.PreqMsg? && net.bag[st.i].msg.preq.orig == s
  }

  /** The request as the root reads it: only its metric is another, grown by the link it arrived on. */
  function Brought(net: Net, st: Step): (p: Preq)
    requires st.Deliver? && st.i < |net.bag| && net.bag[st.i].msg.PreqMsg? && net.c.root in net.nodes
    ensures Arrives(net, st, p.alm) && p == net.bag[st.i].msg.preq.(alm := p.alm)
  {
    AddLink(Root(net), net.bag[st.i].src, net.bag[st.i].msg.preq)
  }

  /**
   * The request arrives with metric v: what it carries and the quality of the root's first slot for the radio sender,
   * if there is one, modulo 2^32.
   */
  predicate Arrives(net: Net, st: Step, v: nat)
    requires st.Deliver? && st.i < |net.bag| && net.bag[st.i].msg.PreqMsg? && net.c.root in net.nodes
  {
    Grown(Root(net).rt, net.bag[st.i].src, net.bag[st.i].msg.preq.alm, v)
  }

  lemma OneMetric(net: Net, st: Step, v: nat)
    requires st.Deliver? && st.i < |net.bag| && net.bag[st.i].msg.PreqMsg? && net.c.root in net.nodes
    requires Arrives(net, st, v)
    ensures v == Brought(net, st).alm
  {
    GrownIs(Root(net), net.bag[st.i].src, net.bag[st.i].msg.preq, v);
  }

  // ------------------------------------------------------------------ one step

  ghost predicate SameStore(n: Node, n': Node) {
    |n'.tmp| == |n.tmp| && forall j :: 0 <= j < |n.tmp| ==> n'.tmp[j].preq == n.tmp[j].preq
  }

  lemma {:induction false} TimeoutStore(n: Node, now: int, limit: int, i: nat)
    requires |n.rt| == |n.tmp| && i <= |n.rt|
    ensures SameStore(n, HelloTimeout(n, now, limit, i).0)
    decreases |n.rt| - i
  {
    if i < |n.rt| { TimeoutStore(if Expired(n.rt[i], now, limit) then Purge(n, i) else n, now, limit, i + 1); }
  }

  lemma RannStore(n: Node, r: Rann)
    requires |n.rt| == |n.tmp|
    ensures SameStore(n, RannProcess(n, r).0)
  {
    var n0 := JoinEpoch(n, r.id);
    assert SameStore(n, n0);
    if Accepts(n, r) {
      var n1 := n0.(order := r.order, rootAddr := r.orig);
      assert SameStore(n1, AdoptMetric(n1, r.metric));
      assert SameStore(n1, AdoptChannel(AdoptMetric(n1, r.metric), r.channel));
      assert SameStore(n0, Adopt(n0, r));
    }
  }

  lemma ReceiveStore(n: Node, src: Addr, m: Msg, env: Env)
    requires |n.rt| == |n.tmp| == |n.armed| && Ready(n, m) && !m.PreqMsg?
    ensures SameStore(n, Receive(n, src, m, env).0)
  {
    if m.RannMsg? { RannStore(n, m.rann); }
  }

  /** Only a request changes what is stored. */
  lemma StoreKept(a: Net, s: Step)
    requires Can(a, s) && !(s.Deliver? && a.bag[s.i].msg.PreqMsg?)
    ensures SameStore(a.nodes[Actor(a, s)], Turn(a, s).0)
  {
    if s.Deliver? { ReceiveStore(a.nodes[Actor(a, s)], a.bag[s.i].src, a.bag[s.i].msg, s.env); }
    if s.HelloCheck? { TimeoutStore(a.nodes[s.x], s.now, s.limit, 0); }
  }

  /** Is request p at least as good as q under the metric, where e is the route p was to be compared with? */
  predicate AsGood(metric: nat, hcnt: nat, p: Preq, q: Preq) {
    && (metric == 1 ==> p.hcnt <= q.hcnt)
    && (metric == 2 && hcnt != 1 ==> p.alm >= q.alm)
  }

  /** One request, at the root, with slot j's window open. */
  lemma WindowPreq(c: Config, n: Node, src: Addr, q: Preq, env: Env, j: nat)
    requires NodeOk(c, n) && n.isRoot && PreqOk(c, src, q) && j < SLOTS && n.tmp[j].used
    requires First(n.rt, ByDest(q.orig)).None? ==> First(n.rt, Free).Some?
    ensures var n' := RootPreq(n, src, q, env); var p := n.tmp[j].preq; var p' := n'.tmp[j].preq;
            && p'.orig == p.orig && p' in {p, q}
            && (n.metric == 1 ==> p'.hcnt <= p.hcnt) && (n.metric == 2 ==> p'.alm >= p.alm)
            && (n.rt[j].hcnt == 1 ==> p' == p)
            && (q.orig == p.orig ==> AsGood(n.metric, n.rt[j].hcnt, p', q))
            && (q.orig != p.orig ==> p' == p)
  {
    assert Agrees(n, j);
    assert Matches(n.rt[j], ByDest(n.tmp[j].preq.orig));
    if First(n.rt, ByDest(q.orig)).Some? {
      FirstIsLast(n.rt, q.orig);
    }
  }

  /** What a step may do to an open window: keep the request, or take over a better one of the same originator. */
  ghost predicate Held(a: Net, s: Step, b: Net, j: nat)
    requires Open(a, j) && Open(b, j)
  {
    var n := Root(a);
    var p, p' := Kept(a, j), Kept(b, j);
    && j < |n.rt| && p'.orig == p.orig && (p' == p || (Brings(a, s, p.orig) && p' == Brought(a, s)))
    && (n.metric == 1 ==> p'.hcnt <= p.hcnt) && (n.metric == 2 ==> p'.alm >= p.alm)
    && (n.rt[j].hcnt == 1 ==> p' == p)
    && (Brings(a, s, p.orig) ==> AsGood(n.metric, n.rt[j].hcnt, p', Brought(a, s)))
  }

  lemma RequestStep(a: Net, s: Step, b: Net, j: nat)
    requires NetOk(a) && Next(a, s, b) && Open(a, j) && Open(b, j)
    requires s.Deliver? && a.bag[s.i].msg.PreqMsg? && a.bag[s.i].dst == a.c.root
    ensures Held(a, s, b, j)
  {
    var n, pk := Root(a), a.bag[s.i];
    assert NodeOk(a.c, n) && PacketOk(a.c, pk);
    WindowPreq(a.c, n, pk.src, Brought(a, s), s.env, j);
  }

  lemma OtherStep(a: Net, s: Step, b: Net, j: nat)
    requires NetOk(a) && Next(a, s, b) && Open(a, j) && Open(b, j)
    requires !(s.Deliver? && a.bag[s.i].msg.PreqMsg? && a.bag[s.i].dst == a.c.root)
    ensures Held(a, s, b, j)
  {
    assert NodeOk(a.c, Root(a));
    if !(s.Deliver? && a.bag[s.i].msg.PreqMsg?) { StoreKept(a, s); }
  }

  lemma WindowStep(a: Net, s: Step, b: Net, j: nat)
    requires NetOk(a) && Next(a, s, b) && Open(a, j) && Open(b, j)
    ensures Held(a, s, b, j)
  {
    if s.Deliver? && a.bag[s.i].msg.PreqMsg? && a.bag[s.i].dst == a.c.root {
      RequestStep(a, s, b, j);
    } else {
      OtherStep(a, s, b, j);
    }
  }

  // ------------------------------------------------------------------ runs

  ghost predicate OpenUnder(net: Net, j: nat, metric: nat) { Open(net, j) && Root(net).metric == metric }

  /** The window of slot j stays open, under one metric, from state i to state k. */
  ghost predicate Window(r: Run, i: nat, k: nat, j: nat, metric: nat) {
    && IsRun(r) && Init(r.states[0]) && i <= k < |r.states|
    && forall t :: i <= t <= k ==> OpenUnder(r.states[t], j, metric)
  }

  /** Request q of originator s reached the root between states i and k. */
  ghost predicate Came(r: Run, i: nat, k: nat, q: Preq, s: Addr) {
    exists m :: i <= m < k && CameAt(r, m, q, s)
  }

  predicate CameAt(r: Run, m: nat, q: Preq, s: Addr) {
    && m < |r.steps| && m < |r.states| && r.states[m].c.root in r.states[m].nodes
    && Brings(r.states[m], r.steps[m], s) && Arrives(r.states[m], r.steps[m], q.alm)
    && q == r.states[m].bag[r.steps[m].i].msg.preq.(alm := q.alm)
  }

  /** An open window's request and route agree, in every state of every run: originator, hop count, next hop, metric. */
  lemma WindowAgrees(r: Run, k: nat, j: nat)
    requires IsRun(r) && Init(r.states[0]) && k < |r.states| && Open(r.states[k], j)
    ensures var n := Root(r.states[k]);
            |n.rt| == |n.tmp| == |n.armed| && Agrees(n, j) && PathOk(r.states[k].c, n.tmp[j].preq)
  {
    AlwaysOk(r, k);
    assert NodeOk(r.states[k].c, Root(r.states[k]));
  }

  /** Request p may be followed by p' in a window under the metric. */
  predicate Follows(metric: nat, p: Preq, p': Preq) {
    && p'.orig == p.orig && (metric == 1 ==> p'.hcnt <= p.hcnt) && (metric == 2 ==> p'.alm >= p.alm)
    && (p.hcnt == 1 ==> p' == p)
  }

  /** Each request follows the one before it, and if it is another one, it has just arrived. */
  ghost predicate Chain(r: Run, i: nat, metric: nat, s: seq<Preq>) {
    forall t {:trigger s[t + 1]} :: 0 <= t < |s| - 1 ==> Link(r, i + t, metric, s[t], s[t + 1])
  }

  ghost predicate Link(r: Run, m: nat, metric: nat, p: Preq, p': Preq) {
    Follows(metric, p, p') && (p' == p || CameAt(r, m, p', p.orig))
  }

  lemma {:induction false} ChainFollows(r: Run, i: nat, metric: nat, s: seq<Preq>, a: nat, b: nat)
    requires Chain(r, i, metric, s) && a <= b < |s|
    ensures Follows(metric, s[a], s[b])
    decreases b - a
  {
    if a < b {
      assert Link(r, i + a, metric, s[a], s[a + 1]);
      ChainFollows(r, i, metric, s, a + 1, b);
    }
  }

  /** The last entry is the first one, or was put there by some change in between. */
  lemma {:induction false} LastChange(s: seq<Preq>, b: nat) returns (t: nat)
    requires b < |s|
    ensures s[b] == s[0] || (t < b && s[t + 1] == s[b] && s[t + 1] != s[t])
  {
    t := 0;
    if b > 0 {
      if s[b] == s[b - 1] { t := LastChange(s, b - 1); } else { t := b - 1; }
    }
  }

  /** The requests kept from state i to state k. */
  ghost function Trace(r: Run, i: nat, k: nat, j: nat, metric: nat): (s: seq<Preq>)
    requires Window(r, i, k, j, metric)
    ensures |s| == k - i + 1
    ensures forall t :: 0 <= t < |s| ==> Open(r.states[i + t], j) && s[t] == Kept(r.states[i + t], j)
  {
    seq(k - i + 1, t requires 0 <= t <= k - i => assert OpenUnder(r.states[i + t], j, metric); Kept(r.states[i + t], j))
  }

  /** One step of a window. */
  lemma WindowAt(r: Run, i: nat, t: nat, k: nat, j: nat, metric: nat)
    requires Window(r, i, k, j, metric) && i <= t < k
    ensures Open(r.states[t], j) && Open(r.states[t + 1], j) && j < |Root(r.states[t]).rt|
    ensures Root(r.states[t]).rt[j].hcnt == Kept(r.states[t], j).hcnt
    ensures Held(r.states[t], r.steps[t], r.states[t + 1], j) && Root(r.states[t]).metric == metric
  {
    AlwaysOk(r, t);
    WindowAgrees(r, t, j);
    assert OpenUnder(r.states[t], j, metric) && OpenUnder(r.states[t + 1], j, metric);
    WindowStep(r.states[t], r.steps[t], r.states[t + 1], j);
  }

  lemma StepFollows(r: Run, i: nat, t: nat, k: nat, j: nat, metric: nat)
    requires Window(r, i, k, j, metric) && i <= t < k
    ensures Open(r.states[t], j) && Open(r.states[t + 1], j)
    ensures Link(r, t, metric, Kept(r.states[t], j), Kept(r.states[t + 1], j))
  {
    WindowAt(r, i, t, k, j, metric);
  }

  lemma TraceChain(r: Run, i: nat, k: nat, j: nat, metric: nat)
    requires Window(r, i, k, j, metric)
    ensures Chain(r, i, metric, Trace(r, i, k, j, metric))
  {
    var s := Trace(r, i, k, j, metric);
    forall t {:trigger s[t + 1]} | 0 <= t < |s| - 1 ensures Link(r, i + t, metric, s[t], s[t + 1]) {
      TraceLink(r, i, k, j, metric, t);
    }
  }

  lemma TraceLink(r: Run, i: nat, k: nat, j: nat, metric: nat, t: nat)
    requires Window(r, i, k, j, metric) && t < k - i
    ensures var s := Trace(r, i, k, j, metric); Link(r, i + t, metric, s[t], s[t + 1])
  {
    StepFollows(r, i, i + t, k, j, metric);
  }

  /** What was kept at m may be followed by what is kept at n. */
  lemma KeptFollows(r: Run, i: nat, m: nat, n: nat, k: nat, j: nat, metric: nat)
    requires Window(r, i, k, j, metric) && i <= m <= n <= k
    ensures Open(r.states[m], j) && Open(r.states[n], j)
    ensures Follows(metric, Kept(r.states[m], j), Kept(r.states[n], j))
  {
    assert OpenUnder(r.states[m], j, metric) && OpenUnder(r.states[n], j, metric);
    TraceChain(r, i, k, j, metric);
    ChainFollows(r, i, metric, Trace(r, i, k, j, metric), m - i, n - i);
  }

  /** The request kept at the end is the one the window opened with, or one that arrived in the window. */
  lemma KeptArrived(r: Run, i: nat, k: nat, j: nat, metric: nat)
    requires Window(r, i, k, j, metric)
    ensures Open(r.states[i], j) && Open(r.states[k], j)
    ensures var p, p' := Kept(r.states[i], j), Kept(r.states[k], j);
            p'.orig == p.orig && (p' == p || Came(r, i, k, p', p.orig))
  {
    var s := Trace(r, i, k, j, metric);
    TraceChain(r, i, k, j, metric);
    ChainArrived(r, i, k, metric, s);
    assert OpenUnder(r.states[i], j, metric) && OpenUnder(r.states[k], j, metric);
  }

  lemma ChainArrived(r: Run, i: nat, k: nat, metric: nat, s: seq<Preq>)
    requires Chain(r, i, metric, s) && |s| == k - i + 1 > 0
    ensures s[k - i].orig == s[0].orig && (s[k - i] == s[0] || Came(r, i, k, s[k - i], s[0].orig))
  {
    ChainFollows(r, i, metric, s, 0, k - i);
    var t := LastChange(s, k - i);
    if s[k - i] != s[0] {
      ChainFollows(r, i, metric, s, 0, t);
      assert Link(r, i + t, metric, s[t], s[t + 1]);
    }
  }

  /** Under either metric a request of one hop is final. */
  lemma OneHopIsFinal(r: Run, i: nat, m: nat, k: nat, j: nat, metric: nat)
    requires Window(r, i, k, j, metric) && i <= m <= k
    ensures Open(r.states[m], j) && Open(r.states[k], j)
    ensures Kept(r.states[m], j).hcnt == 1 ==> Kept(r.states[k], j) == Kept(r.states[m], j)
  {
    KeptFollows(r, i, m, k, k, j, metric);
  }

  /**
   * Hop-count metric: of all the requests of its originator that reach the root in the window, the one kept has the
   * fewest hops.
   */
  lemma FewestHopsKept(r: Run, i: nat, m: nat, k: nat, j: nat)
    requires Window(r, i, k, j, 1) && i <= m < k && Brings(r.states[m], r.steps[m], Kept(r.states[i], j).orig)
    ensures Kept(r.states[k], j).hcnt <= r.states[m].bag[r.steps[m].i].msg.preq.hcnt
    ensures Kept(r.states[k], j).hcnt <= Kept(r.states[i], j).hcnt
  {
    KeptFollows(r, i, i, k, k, j, 1);
    ArrivedAt(r, i, m, k, j, 1);
  }

  /**
   * Airtime metric: the one kept has the greatest metric of those that arrive while the route has more than one hop,
   * and is never worse than the one the window opened with.
   */
  lemma BestAirtimeKept(r: Run, i: nat, m: nat, k: nat, j: nat, v: nat)
    requires Window(r, i, k, j, 2) && i <= m < k && Brings(r.states[m], r.steps[m], Kept(r.states[i], j).orig)
    requires Arrives(r.states[m], r.steps[m], v)
    ensures j < |Root(r.states[m]).rt|
    ensures Root(r.states[m]).rt[j].hcnt != 1 ==> Kept(r.states[k], j).alm >= v
    ensures Kept(r.states[k], j).alm >= Kept(r.states[i], j).alm
  {
    KeptFollows(r, i, i, k, k, j, 2);
    ArrivedAt(r, i, m, k, j, 2);
    OneMetric(r.states[m], r.steps[m], v);
  }

  /** A request that arrives at m: what is kept next is at least as good, and what is kept at the end follows it. */
  lemma ArrivedAt(r: Run, i: nat, m: nat, k: nat, j: nat, metric: nat)
    requires Window(r, i, k, j, metric) && i <= m < k
    requires Brings(r.states[m], r.steps[m], Kept(r.states[i], j).orig)
    ensures Open(r.states[m + 1], j) && j < |Root(r.states[m]).rt|
    ensures AsGood(metric, Root(r.states[m]).rt[j].hcnt, Kept(r.states[m + 1], j), Brought(r.states[m], r.steps[m]))
    ensures Follows(metric, Kept(r.states[m + 1], j), Kept(r.states[k], j))
  {
    KeptFollows(r, i, i, m, k, j, metric);
    WindowAt(r, i, m, k, j, metric);
    KeptFollows(r, i, m + 1, k, k, j, metric);
  }

  /**
   * When the timer of an open window fires, the root closes it and sends one reply, to the radio neighbour its own
   * route names, along exactly the route the kept request recorded.
   */
  lemma ReplyFollowsKept(r: Run, k: nat, j: nat)
    requires IsRun(r) && Init(r.states[0]) && k < |r.steps| && r.steps[k] == PrepTimer(j) && Open(r.states[k], j)
    ensures var a, b, q := r.states[k], r.states[k + 1], Kept(r.states[k], j);
            && b.c.root in b.nodes && j < |Root(b).tmp| && !Root(b).tmp[j].used
            && exists pk :: b.bag == a.bag + [pk] && pk.src == a.c.root && pk.dst == Root(a).rt[j].next
                 && pk.msg.PrepMsg? && pk.msg.prep.dest == q.orig && pk.msg.prep.hcnt == 1
                 && Itinerary(pk.dst, pk.msg.prep, pk.trail) == q.ext
  {
    var a, q := r.states[k], Kept(r.states[k], j);
    AlwaysOk(r, k);
    var n := Root(a);
    assert NodeOk(a.c, n) && Agrees(n, j) && PathOk(a.c, q);
    assert Matches(n.rt[j], ByDest(q.orig));
    var o := PrepFire(n, j).1[0];
    var pk := Packet(a.c.root, o.to, o.msg, []);
    assert SendAll(a.c, a.c.root, [o], []) == [pk] by { assert [o][1..] == []; }
    assert q.ext[..q.hcnt - 1] + [q.ext[q.hcnt - 1]] + [] == q.ext;
    assert r.states[k + 1].bag == a.bag + [pk];
  }
}
