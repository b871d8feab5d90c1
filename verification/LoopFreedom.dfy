/**
 * Uplink loop freedom: the next hops towards the root that path replies leave behind for one originator never
 * form a cycle, as long as at most one reply for that originator is in flight at a time.
 */
module LoopFreedom {
  import opened Prelude
  import opened Messages
  import opened RouteTable
  import opened Handlers
  import opened NodeInvariants
  import opened Network
  import opened Uplinks

  /** Next hop and hop count of every node that has a route for s to the root. */
  type Hops = map<Addr, (Addr, nat)>

  function HopsOf(net: Net, s: Addr): Hops {
    map x | x in net.nodes && Hop(net.nodes[x].rt, net.c.root, s).Some? :: Hop(net.nodes[x].rt, net.c.root, s).value
  }

  function Edges(h: Hops): Graph { map x | x in h :: h[x].0 }

  /** The uplink graph for originator s: who sends s's traffic for the root to whom. */
  function Ups(net: Net, s: Addr): Graph { Edges(HopsOf(net, s)) }

  predicate ReplyFor(pk: Packet, s: Addr) { pk.msg.PrepMsg? && pk.msg.prep.dest == s }

  /** At most one reply for s is in flight. */
  ghost predicate OneReply(net: Net, s: Addr) {
    forall i, j :: 0 <= i < j < |net.bag| ==> !(ReplyFor(net.bag[i], s) && ReplyFor(net.bag[j], s))
  }

  /** Where the j-th node of a trail must point, and how far the root then is. */
  function Rung(root: Addr, trail: seq<Addr>, j: nat): (Addr, nat)
    requires j < |trail|
  {
    (if j + 1 < |trail| then trail[j + 1] else root, |trail| - j)
  }

  ghost predicate HasRung(h: Hops, root: Addr, trail: seq<Addr>, j: nat) requires j < |trail| {
    trail[j] in h && h[trail[j]] == Rung(root, trail, j)
  }

  ghost predicate RungOrNone(h: Hops, root: Addr, trail: seq<Addr>, j: nat) requires j < |trail| {
    trail[j] in h ==> h[trail[j]] == Rung(root, trail, j)
  }

  /** The nodes of a trail point down the trail to the root, except where the route has been deleted since. */
  ghost predicate Ladder(h: Hops, root: Addr, trail: seq<Addr>) {
    forall j :: 0 <= j < |trail| ==> RungOrNone(h, root, trail, j)
  }

  ghost predicate LoopInv(net: Net, s: Addr) {
    && Acyclic(Ups(net, s))
    && forall k :: 0 <= k < |net.bag| && ReplyFor(net.bag[k], s) ==>
         Ladder(HopsOf(net, s), net.c.root, net.bag[k].trail)
  }

  // ------------------------------------------------------------------ what is sent

  lemma {:induction false} CopiesPlain(ids: set<Addr>, src: Addr, m: Msg, k: nat)
    requires k < |Copies(ids, src, m)|
    ensures Copies(ids, src, m)[k].src == src && Copies(ids, src, m)[k].msg == m && Copies(ids, src, m)[k].trail == []
    decreases |ids|
  {
    var x := Pick(ids);
    var head := if x != src then [Packet(src, x, m, [])] else [];
    if k >= |head| { CopiesPlain(ids - {x}, src, m, k - |head|); }
  }

  /** A packet sent comes from one of the outputs; only a unicast carries a trail. */
  lemma {:induction false} SentFrom(c: Config, src: Addr, outs: seq<Out>, trail: seq<Addr>, k: nat)
    requires k < |SendAll(c, src, outs, trail)|
    ensures var pk := SendAll(c, src, outs, trail)[k];
            pk.trail in {[], trail} && exists o :: o in outs && o.msg == pk.msg
  {
    var head := Send(c, src, outs[0], trail);
    if k < |head| {
      if outs[0].Broadcast? { CopiesPlain(c.ids, src, outs[0].msg, k); }
      assert outs[0] in outs;
    } else {
      SentFrom(c, src, outs[1..], trail, k - |head|);
    }
  }

  // ------------------------------------------------------------------ ladders

  /** From a node of the ladder, or from the root, a walk stays on the ladder or ends at the root. */
  lemma {:induction false} LadderWalk(h: Hops, root: Addr, trail: seq<Addr>, y: Addr, n: nat)
    requires Ladder(h, root, trail) && root !in h && (y in trail || y == root)
    ensures var w := Walk(Edges(h), y, n); w == None || w.value in trail || w.value == root
    decreases n
  {
    if n > 0 && y in h {
      var j :| 0 <= j < |trail| && trail[j] == y;
      assert RungOrNone(h, root, trail, j);
      LadderWalk(h, root, trail, h[y].0, n - 1);
    }
  }

  /** A complete ladder leads to the root in as many hops as it has rungs. */
  lemma {:induction false} LadderReaches(h: Hops, root: Addr, trail: seq<Addr>, j: nat)
    requires Ladder(h, root, trail) && j < |trail| && forall i :: 0 <= i < |trail| ==> trail[i] in h
    ensures Walk(Edges(h), trail[j], |trail| - j) == Some(root)
    decreases |trail| - j
  {
    assert RungOrNone(h, root, trail, j);
    if j + 1 < |trail| {
      LadderReaches(h, root, trail, j + 1);
    } else {
      assert Walk(Edges(h), root, 0) == Some(root);
    }
  }

  /** Only x's route may differ. */
  ghost predicate AtMost(h: Hops, h': Hops, x: Addr) {
    forall z :: z != x ==> (z in h <==> z in h') && (z in h ==> h[z] == h'[z])
  }

  /** A node loses its route, or gains its own one-hop route to the root. */
  ghost predicate QuietChange(h: Hops, h': Hops, root: Addr, s: Addr, x: Addr) {
    AtMost(h, h', x) && (x in h' ==> (x in h && h'[x] == h[x]) || (x == s && x != root && h'[x] == (root, 1)))
  }

  lemma QuietGraph(h: Hops, h': Hops, root: Addr, s: Addr, x: Addr)
    requires QuietChange(h, h', root, s, x) && root !in h
    ensures Acyclic(Edges(h)) ==> Acyclic(Edges(h'))
  {
    if Acyclic(Edges(h)) {
      if x in h' && !(x in h && h'[x] == h[x]) {
        assert Edges(h') == Edges(h)[x := root];
        forall n: nat ensures Walk(Edges(h), root, n) != Some(x) { }
        RepointIff(Edges(h), x, root);
      } else {
        AcyclicSub(Edges(h), Edges(h'));
      }
    }
  }

  lemma QuietLadder(h: Hops, h': Hops, root: Addr, s: Addr, x: Addr, trail: seq<Addr>)
    requires QuietChange(h, h', root, s, x) && s !in trail && Ladder(h, root, trail)
    ensures Ladder(h', root, trail)
  {
    forall j | 0 <= j < |trail| ensures RungOrNone(h', root, trail, j) {
      assert RungOrNone(h, root, trail, j) && trail[j] != s;
    }
  }

  /** A reply arrives at x from the head of its ladder, or straight from the root. */
  lemma ReplyGraph(h: Hops, h': Hops, root: Addr, trail: seq<Addr>, x: Addr, src: Addr)
    requires AtMost(h, h', x) && root !in h && x != root && x !in trail && Ladder(h, root, trail)
    requires src == if trail == [] then root else trail[0]
    requires x in h' ==> h'[x] == (src, |trail| + 1)
    ensures Acyclic(Edges(h)) ==> Acyclic(Edges(h'))
    ensures Ladder(h', root, [x] + trail)
  {
    if Acyclic(Edges(h)) {
      if x in h' {
        assert Edges(h') == Edges(h)[x := src];
        forall m: nat ensures Walk(Edges(h), src, m) != Some(x) { LadderWalk(h, root, trail, src, m); }
        RepointIff(Edges(h), x, src);
      } else {
        AcyclicSub(Edges(h), Edges(h'));
      }
    }
    var longer := [x] + trail;
    forall j | 0 <= j < |longer| ensures RungOrNone(h', root, longer, j) {
      if j > 0 { assert RungOrNone(h, root, trail, j - 1) && longer[j] == trail[j - 1]; }
    }
  }

  // ------------------------------------------------------------------ from nodes to hops

  lemma RootIsSink(net: Net, s: Addr)
    requires NetOk(net)
    ensures net.c.root !in HopsOf(net, s)
  {
    assert NodeOk(net.c, net.nodes[net.c.root]);
    RootHasNoUplink(net.c, net.nodes[net.c.root]);
  }

  lemma OneNodeChanged(a: Net, b: Net, x: Addr, s: Addr)
    requires a.c == b.c && x in a.nodes && x in b.nodes && b.nodes == a.nodes[x := b.nodes[x]]
    ensures AtMost(HopsOf(a, s), HopsOf(b, s), x)
  {
  }

  lemma SameHops(a: Net, b: Net, x: Addr, s: Addr)
    requires a.c == b.c && x in a.nodes && x in b.nodes && b.nodes == a.nodes[x := b.nodes[x]]
    requires Hop(b.nodes[x].rt, a.c.root, s) == Hop(a.nodes[x].rt, a.c.root, s)
    ensures HopsOf(a, s) == HopsOf(b, s)
  {
  }

  lemma QuietHops(a: Net, b: Net, x: Addr, s: Addr)
    requires NetOk(a) && NetOk(b) && a.c == b.c && x in a.nodes && b.nodes == a.nodes[x := b.nodes[x]]
    requires OnlyOwnUplink(a.c, a.nodes[x], b.nodes[x])
    ensures QuietChange(HopsOf(a, s), HopsOf(b, s), a.c.root, s, x) && a.c.root !in HopsOf(a, s)
  {
    OneNodeChanged(a, b, x, s);
    RootIsSink(a, s);
    RootIsSink(b, s);
    assert a.nodes[x].me == x;
    var now := Hop(b.nodes[x].rt, a.c.root, s);
    assert now in {None, Hop(a.nodes[x].rt, a.c.root, s)} || (s == x && now == Some((a.c.root, 1)));
  }

  // ------------------------------------------------------------------ steps that are not replies

  /** The bag only loses packets or gains packets without a trail, and the node that acts is quiet. */
  lemma QuietStep(a: Net, b: Net, x: Addr, s: Addr)
    requires NetOk(a) && NetOk(b) && a.c == b.c && x in a.nodes && b.nodes == a.nodes[x := b.nodes[x]]
    requires OnlyOwnUplink(a.c, a.nodes[x], b.nodes[x])
    requires forall k :: 0 <= k < |b.bag| ==> b.bag[k] in a.bag || b.bag[k].trail == [] || !ReplyFor(b.bag[k], s)
    requires LoopInv(a, s)
    ensures LoopInv(b, s)
  {
    QuietHops(a, b, x, s);
    QuietGraph(HopsOf(a, s), HopsOf(b, s), a.c.root, s, x);
    forall k | 0 <= k < |b.bag| && ReplyFor(b.bag[k], s) ensures Ladder(HopsOf(b, s), b.c.root, b.bag[k].trail) {
      if b.bag[k].trail != [] {
        TrailAvoidsOrigin(b.c, b.bag[k]);
        QuietLadder(HopsOf(a, s), HopsOf(b, s), a.c.root, s, x, b.bag[k].trail);
      }
    }
  }

  /** The originator is the last stop of its reply, so it is not among the nodes already visited. */
  lemma TrailAvoidsOrigin(c: Config, pk: Packet)
    requires PacketOk(c, pk) && pk.msg.PrepMsg?
    ensures pk.msg.prep.dest !in pk.trail && pk.dst !in pk.trail && pk.dst != c.root
  {
    var route := Itinerary(pk.dst, pk.msg.prep, pk.trail);
    assert route[|pk.msg.prep.ext|] == pk.dst;
    forall j | 0 <= j < |pk.trail| ensures pk.trail[j] != route[0] && pk.trail[j] != pk.dst {
      assert route[|pk.msg.prep.ext| + 1 + j] == pk.trail[j];
    }
  }

  // ------------------------------------------------------------------ replies

  /** What the delivery of a reply does to the routes of its receiver. */
  lemma ReplyActor(a: Net, i: nat, env: Env, b: Net)
    requires NetOk(a) && Next(a, Deliver(i, env), b) && a.bag[i].msg.PrepMsg?
    ensures var pk := a.bag[i];
            && pk.dst in a.nodes && b.c == a.c && b.nodes == a.nodes[pk.dst := b.nodes[pk.dst]]
            && pk.dst != a.c.root && pk.dst !in pk.trail && pk.src == PrepSender(a.c, pk.trail)
            && Hop(b.nodes[pk.dst].rt, a.c.root, pk.msg.prep.dest) ==
               (if Room(a.c, a.nodes[pk.dst], pk.msg.prep.dest) then Some((pk.src, |pk.trail| + 1)) else None)
            && (forall s {:trigger Hop(b.nodes[pk.dst].rt, a.c.root, s)} :: s != pk.msg.prep.dest ==>
                  Hop(b.nodes[pk.dst].rt, a.c.root, s) == Hop(a.nodes[pk.dst].rt, a.c.root, s))
  {
    var pk := a.bag[i];
    assert PacketOk(a.c, pk) && NodeOk(a.c, a.nodes[pk.dst]);
    PrepStepOk(a.c, a.nodes[pk.dst], pk.src, pk.msg.prep, pk.trail, env);
    TrailAvoidsOrigin(a.c, pk);
  }

  /** After the delivery of a reply, each packet is an old one or the same reply with its trail extended. */
  lemma ReplyBag(a: Net, i: nat, env: Env, b: Net, k: nat)
    requires Next(a, Deliver(i, env), b) && a.bag[i].msg.PrepMsg? && k < |b.bag|
    ensures var pk := a.bag[i];
            || (exists m :: 0 <= m < |a.bag| && m != i && b.bag[k] == a.bag[m])
            || (b.bag[k].msg.PrepMsg? && b.bag[k].msg.prep.dest == pk.msg.prep.dest &&
                b.bag[k].trail in {[], [pk.dst] + pk.trail})
  {
    var pk := a.bag[i];
    var rest := Rest(a, Deliver(i, env));
    if k < |rest| {
      assert rest[k] == a.bag[if k < i then k else k + 1];
    } else {
      SentFrom(a.c, pk.dst, Turn(a, Deliver(i, env)).1, NextTrail(pk), k - |rest|);
    }
  }

  /** A reply for another originator touches neither graph nor ladders of s. */
  lemma OtherReply(a: Net, i: nat, env: Env, b: Net, s: Addr)
    requires NetOk(a) && Next(a, Deliver(i, env), b) && a.bag[i].msg.PrepMsg? && !ReplyFor(a.bag[i], s)
    requires LoopInv(a, s)
    ensures LoopInv(b, s) && HopsOf(b, s) == HopsOf(a, s)
  {
    ReplyActor(a, i, env, b);
    SameHops(a, b, a.bag[i].dst, s);
    forall k | 0 <= k < |b.bag| && ReplyFor(b.bag[k], s) ensures Ladder(HopsOf(b, s), b.c.root, b.bag[k].trail) {
      ReplyBag(a, i, env, b, k);
    }
  }

  /** The reply for s: its receiver now points at the sender, which is on the ladder below it. */
  lemma OwnReply(a: Net, i: nat, env: Env, b: Net, s: Addr)
    requires NetOk(a) && Next(a, Deliver(i, env), b) && ReplyFor(a.bag[i], s)
    requires LoopInv(a, s) && OneReply(a, s)
    ensures LoopInv(b, s) && Ladder(HopsOf(b, s), b.c.root, [a.bag[i].dst] + a.bag[i].trail)
  {
    var pk := a.bag[i];
    ReplyActor(a, i, env, b);
    RootIsSink(a, s);
    OneNodeChanged(a, b, pk.dst, s);
    ReplyGraph(HopsOf(a, s), HopsOf(b, s), a.c.root, pk.trail, pk.dst, pk.src);
    forall k | 0 <= k < |b.bag| && ReplyFor(b.bag[k], s) ensures Ladder(HopsOf(b, s), b.c.root, b.bag[k].trail) {
      ReplyBag(a, i, env, b, k);
    }
  }

  // ------------------------------------------------------------------ runs

  /** What is in flight after a step was in flight before, or is what the node that acts has sent. */
  lemma BagFrom(a: Net, s: Step, b: Net, k: nat)
    requires Next(a, s, b) && k < |b.bag|
    ensures b.bag[k] in a.bag ||
            (b.bag[k].trail in {[], TrailOf(a, s)} && exists o :: o in Turn(a, s).1 && o.msg == b.bag[k].msg)
  {
    JointFrom(a.c, Rest(a, s), Actor(a, s), Turn(a, s).1, TrailOf(a, s), k);
    RestFrom(a, s);
  }

  lemma JointFrom(c: Config, rest: seq<Packet>, src: Addr, outs: seq<Out>, trail: seq<Addr>, k: nat)
    requires k < |rest + SendAll(c, src, outs, trail)|
    ensures var pk := (rest + SendAll(c, src, outs, trail))[k];
            pk in rest || (pk.trail in {[], trail} && exists o :: o in outs && o.msg == pk.msg)
  {
    if k >= |rest| { SentFrom(c, src, outs, trail, k - |rest|); }
  }

  lemma RestFrom(a: Net, s: Step)
    requires Can(a, s)
    ensures forall pk :: pk in Rest(a, s) ==> pk in a.bag
  {
  }

  /** A step that is not the delivery of a reply sends nothing with a trail. */
  lemma QuietBag(a: Net, s: Step, b: Net, k: nat)
    requires Next(a, s, b) && !(s.Deliver? && a.bag[s.i].msg.PrepMsg?) && k < |b.bag|
    ensures b.bag[k] in a.bag || b.bag[k].trail == []
  {
    BagFrom(a, s, b, k);
  }

  lemma NextLoopInv(a: Net, st: Step, b: Net, s: Addr)
    requires NetOk(a) && Next(a, st, b) && LoopInv(a, s) && OneReply(a, s)
    ensures LoopInv(b, s)
  {
    NextOk(a, st, b);
    if st.Deliver? && a.bag[st.i].msg.PrepMsg? {
      if ReplyFor(a.bag[st.i], s) {
        OwnReply(a, st.i, st.env, b, s);
      } else {
        OtherReply(a, st.i, st.env, b, s);
      }
    } else {
      TurnOk(a, st);
      forall k | 0 <= k < |b.bag| ensures b.bag[k] in a.bag || b.bag[k].trail == [] { QuietBag(a, st, b, k); }
      QuietStep(a, b, Actor(a, st), s);
    }
  }

  lemma {:induction false} AlwaysLoopInv(r: Run, s: Addr, k: nat)
    requires IsRun(r) && Init(r.states[0]) && k < |r.states|
    requires forall j :: 0 <= j < k ==> OneReply(r.states[j], s)
    ensures NetOk(r.states[k]) && LoopInv(r.states[k], s)
  {
    AlwaysOk(r, k);
    if k == 0 {
      InitAcyclic(r.states[0], s);
    } else {
      AlwaysLoopInv(r, s, k - 1);
      NextLoopInv(r.states[k - 1], r.steps[k - 1], r.states[k], s);
    }
  }

  lemma InitAcyclic(net: Net, s: Addr)
    requires Init(net)
    ensures LoopInv(net, s)
  {
    var g := Ups(net, s);
    forall x ensures x !in g {
      if x in net.nodes { assert InitNode(net.c, net.rid, x, net.nodes[x]); }
    }
    forall x: Addr, n: nat | n > 0 ensures Walk(g, x, n) != Some(x) { }
  }

  /**
   * Main theorem. In every run from power-on during which at most one reply for s is in flight at a time, the
   * uplinks for s never form a cycle: from any node a walk along them ends, after at most one hop per node.
   * Lost replies, resets, timeouts, error messages and other originators' traffic may come in between.
   */
  lemma UplinksNeverLoop(r: Run, s: Addr, k: nat, x: Addr)
    requires IsRun(r) && Init(r.states[0]) && k < |r.states|
    requires forall j :: 0 <= j < k ==> OneReply(r.states[j], s)
    ensures Acyclic(Ups(r.states[k], s))
    ensures |Ups(r.states[k], s)| < |r.states[k].nodes| && Walk(Ups(r.states[k], s), x, |r.states[k].nodes|) == None
  {
    AlwaysLoopInv(r, s, k);
    WalksBounded(r.states[k], s, x);
  }

  lemma WalksBounded(net: Net, s: Addr, x: Addr)
    requires NetOk(net) && Acyclic(Ups(net, s))
    ensures |Ups(net, s)| < |net.nodes| && Walk(Ups(net, s), x, |net.nodes|) == None
  {
    var g := Ups(net, s);
    FewUps(net, s);
    WalksEnd(g, x);
    if Walk(g, x, |net.nodes|).Some? { WalkShorter(g, x, |g| + 1, |net.nodes|); }
  }

  /** The root has no uplink. */
  lemma FewUps(net: Net, s: Addr)
    requires NetOk(net)
    ensures |Ups(net, s)| < |net.nodes|
  {
    RootIsSink(net, s);
    assert net.c.root in net.nodes;
    Smaller(Ups(net, s).Keys, net.nodes.Keys - {net.c.root});
  }

  lemma {:induction false} Smaller(a: set<Addr>, b: set<Addr>)
    requires a <= b
    ensures |a| <= |b|
  {
    if a != {} {
      var x :| x in a;
      Smaller(a - {x}, b - {x});
    }
  }

  // ------------------------------------------------------------------ the exact condition

  /** A reply arrives at a node that its sender's own uplinks already lead to. */
  ghost predicate ClosesLoop(a: Net, st: Step, s: Addr)
    requires Can(a, st)
  {
    st.Deliver? && ReplyFor(a.bag[st.i], s) && Room(a.c, a.nodes[a.bag[st.i].dst], s)
    && Reaches(Ups(a, s), a.bag[st.i].src, a.bag[st.i].dst)
  }

  lemma HopsIff(h: Hops, h': Hops, x: Addr, src: Addr, room: bool)
    requires AtMost(h, h', x) && Acyclic(Edges(h)) && (x in h' <==> room) && (x in h' ==> h'[x].0 == src)
    ensures Acyclic(Edges(h')) <==> !(room && Reaches(Edges(h), src, x))
  {
    if room {
      assert Edges(h') == Edges(h)[x := src];
      RepointIff(Edges(h), x, src);
    } else {
      AcyclicSub(Edges(h), Edges(h'));
    }
  }

  lemma ReplyLoopIff(a: Net, i: nat, env: Env, b: Net, s: Addr)
    requires NetOk(a) && Next(a, Deliver(i, env), b) && Acyclic(Ups(a, s)) && a.bag[i].msg.PrepMsg?
    ensures Acyclic(Ups(b, s)) <==> !ClosesLoop(a, Deliver(i, env), s)
  {
    var pk := a.bag[i];
    ReplyActor(a, i, env, b);
    if ReplyFor(pk, s) {
      OneNodeChanged(a, b, pk.dst, s);
      HopsIff(HopsOf(a, s), HopsOf(b, s), pk.dst, pk.src, Room(a.c, a.nodes[pk.dst], s));
    } else {
      SameHops(a, b, pk.dst, s);
    }
  }

  /** A single step creates a loop exactly when it delivers such a reply; nothing else ever does. */
  lemma LoopIff(a: Net, st: Step, b: Net, s: Addr)
    requires NetOk(a) && Next(a, st, b) && Acyclic(Ups(a, s))
    ensures Acyclic(Ups(b, s)) <==> !ClosesLoop(a, st, s)
  {
    if st.Deliver? && a.bag[st.i].msg.PrepMsg? {
      ReplyLoopIff(a, st.i, st.env, b, s);
    } else {
      NextOk(a, st, b);
      TurnOk(a, st);
      QuietHops(a, b, Actor(a, st), s);
      QuietGraph(HopsOf(a, s), HopsOf(b, s), a.c.root, s, Actor(a, st));
    }
  }
}
