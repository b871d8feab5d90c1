/** A path reply undoes the path request: it visits the recorded route backwards and leaves the uplinks along it. */
module Replies {
  import opened Prelude
  import opened Messages
  import opened RouteTable
  import opened Handlers
  import opened NodeInvariants
  import opened Network
  import opened Uplinks
  import opened LoopFreedom

  /** All of a reply's nodes, originator first; what the recorded request listed. */
  function RouteOf(pk: Packet): seq<Addr> requires pk.msg.PrepMsg? {
    Itinerary(pk.dst, pk.msg.prep, pk.trail)
  }

  /** Delivery takes the reply out of flight and, unless it is home, puts it back one hop nearer with the same route. */
  lemma ReplyMovesOn(a: Net, i: nat, env: Env, b: Net)
    requires NetOk(a) && Next(a, Deliver(i, env), b) && a.bag[i].msg.PrepMsg?
    ensures var pk := a.bag[i];
            if pk.msg.prep.ext == [] then b.bag == Without(a.bag, i)
            else
              && |b.bag| == |a.bag| && b.bag[..|b.bag| - 1] == Without(a.bag, i)
              && var on := b.bag[|b.bag| - 1];
                 && on.msg.PrepMsg? && on.src == pk.dst && on.dst == pk.msg.prep.ext[|pk.msg.prep.ext| - 1]
                  && on.msg.prep == pk.msg.prep.(hcnt := pk.msg.prep.hcnt + 1,
                                                 ext := pk.msg.prep.ext[..|pk.msg.prep.ext| - 1])
                 && RouteOf(on) == RouteOf(pk)
  {
    var pk := a.bag[i];
    var p := pk.msg.prep;
    var outs := Receive(a.nodes[pk.dst], pk.src, pk.msg, env).1;
    assert PacketOk(a.c, pk);
    if p.ext == [] {
      assert outs == [] && b.bag == Without(a.bag, i) + [];
    } else {
      var route := RouteOf(pk);
      assert route[0] == p.ext[0] && route[|p.ext| - 1] == p.ext[|p.ext| - 1] && route[|p.ext|] == pk.dst;
      assert p.ext[0] != 0 && p.ext[|p.ext| - 1] in a.c.ids && p.ext[|p.ext| - 1] != pk.dst;
      PassOnOk(a.c, pk.dst, pk.src, p, pk.trail);
      var on := Packet(pk.dst, outs[0].to, outs[0].msg, NextTrail(pk));
      assert outs == [outs[0]];
      OneSent(a.c, pk.dst, outs[0], NextTrail(pk));
      assert b.bag == Without(a.bag, i) + [on];
    }
  }

  lemma OneSent(c: Config, src: Addr, o: Out, trail: seq<Addr>)
    requires o.Unicast? && o.to in c.ids && o.to != src
    ensures SendAll(c, src, [o], trail) == [Packet(src, o.to, o.msg, trail)]
  {
    assert [o][1..] == [];
  }

  /** The step delivers the reply to route[k], with hop count and remaining length adding up to |route|. */
  ghost predicate Reaching(net: Net, st: Step, route: seq<Addr>, k: nat)
    requires k < |route|
  {
    && st.Deliver? && st.i < |net.bag|
    && var at := net.bag[st.i];
       && at.msg.PrepMsg? && at.dst == route[k] && RouteOf(at) == route
       && |at.msg.prep.ext| == k && |at.msg.prep.ext| + at.msg.prep.hcnt == |route|
  }

  ghost predicate Visits(r: Run, route: seq<Addr>, k: nat) {
    && k < |route| && IsRun(r) && |r.steps| == k + 1
    && forall m :: 0 <= m <= k ==> Reaching(r.states[m], r.steps[m], route, k - m)
  }

  ghost predicate Elsewhere(route: seq<Addr>, k: nat, z: Addr) requires k < |route| {
    forall m :: 0 <= m <= k ==> route[m] != z
  }

  /** The first k + 1 nodes of the route have their rungs, and no other node's route changed. */
  ghost predicate Laid(h: Hops, h': Hops, root: Addr, route: seq<Addr>, k: nat) {
    && k < |route| && (forall m :: 0 <= m <= k ==> HasRung(h', root, route, m))
    && (forall z :: Elsewhere(route, k, z) ==> (z in h <==> z in h') && (z in h ==> h[z] == h'[z]))
  }

  ghost predicate RoomOnRoute(net: Net, pk: Packet) requires pk.msg.PrepMsg? {
    forall m :: 0 <= m <= |pk.msg.prep.ext| ==>
      RouteOf(pk)[m] in net.nodes && Room(net.c, net.nodes[RouteOf(pk)[m]], pk.msg.prep.dest)
  }

  /** One delivery lays one rung. */
  lemma OneRung(a: Net, i: nat, env: Env, b: Net)
    requires NetOk(a) && Next(a, Deliver(i, env), b) && a.bag[i].msg.PrepMsg? && RoomOnRoute(a, a.bag[i])
    ensures var pk := a.bag[i]; var k := |pk.msg.prep.ext|; var s := pk.msg.prep.dest; var h := HopsOf(b, s);
            && AtMost(HopsOf(a, s), h, pk.dst) && pk.dst == RouteOf(pk)[k]
            && HasRung(h, a.c.root, RouteOf(pk), k)
  {
    var pk := a.bag[i];
    var k := |pk.msg.prep.ext|;
    assert RouteOf(pk)[k] == pk.dst;
    ReplyActor(a, i, env, b);
    OneNodeChanged(a, b, pk.dst, pk.msg.prep.dest);
    if pk.trail != [] { assert RouteOf(pk)[k + 1] == pk.trail[0]; }
  }

  /** Rungs below the one just laid complete the picture. */
  lemma LaidMore(h: Hops, h1: Hops, h2: Hops, root: Addr, route: seq<Addr>, k: nat)
    requires 0 < k < |route| && Elsewhere(route, k - 1, route[k])
    requires AtMost(h, h1, route[k]) && HasRung(h1, root, route, k)
    requires Laid(h1, h2, root, route, k - 1)
    ensures Laid(h, h2, root, route, k)
  {
    forall z | Elsewhere(route, k, z) ensures (z in h <==> z in h2) && (z in h ==> h[z] == h2[z]) {
      assert Elsewhere(route, k - 1, z) && z != route[k];
    }
  }

  lemma LaidFirst(h: Hops, h1: Hops, root: Addr, route: seq<Addr>)
    requires |route| > 0 && AtMost(h, h1, route[0]) && HasRung(h1, root, route, 0)
    ensures Laid(h, h1, root, route, 0)
  {
  }

  lemma LastVisit(net: Net, st: Step, b: Net, route: seq<Addr>)
    requires |route| > 0 && Next(net, st, b) && Reaching(net, st, route, 0)
    ensures Visits(Run([net, b], [st]), route, 0)
  {
  }

  lemma VisitsMore(net: Net, st: Step, r: Run, route: seq<Addr>, k: nat)
    requires 0 < k < |route| && Visits(r, route, k - 1) && Next(net, st, r.states[0])
    requires Reaching(net, st, route, k)
    ensures Visits(Run([net] + r.states, [st] + r.steps), route, k)
  {
    var q := Run([net] + r.states, [st] + r.steps);
    Prepend(net, st, r);
    forall m | 0 <= m <= k ensures Reaching(q.states[m], q.steps[m], route, k - m) {
      if m > 0 {
        assert q.steps[m] == r.steps[m - 1] && q.states[m] == r.states[m - 1];
      }
    }
  }

  /** Room stays where a delivery elsewhere does not reach. */
  lemma RoomStays(a: Net, i: nat, env: Env, b: Net)
    requires NetOk(a) && Next(a, Deliver(i, env), b) && a.bag[i].msg.PrepMsg? && a.bag[i].msg.prep.ext != []
    requires RoomOnRoute(a, a.bag[i]) && |b.bag| > 0
    requires var on := b.bag[|b.bag| - 1];
             && on.msg.PrepMsg? && RouteOf(on) == RouteOf(a.bag[i])
             && on.msg.prep.dest == a.bag[i].msg.prep.dest && |on.msg.prep.ext| + 1 == |a.bag[i].msg.prep.ext|
    ensures RoomOnRoute(b, b.bag[|b.bag| - 1])
  {
    var pk := a.bag[i];
    var route, k := RouteOf(pk), |pk.msg.prep.ext|;
    assert PacketOk(a.c, pk);
    ReplyActor(a, i, env, b);
    forall m | 0 <= m < k ensures route[m] in b.nodes && Room(b.c, b.nodes[route[m]], pk.msg.prep.dest) {
      assert route[m] != route[k] == pk.dst;
    }
  }

  /** The run delivers the reply along its route and leaves the uplinks of s along it, and no others. */
  ghost predicate Unwound(net: Net, r: Run, route: seq<Addr>, k: nat, s: Addr) {
    && Visits(r, route, k) && r.states[0] == net
    && Laid(HopsOf(net, s), HopsOf(r.states[k + 1], s), net.c.root, route, k)
  }

  /** The first of the deliveries. */
  ghost predicate FirstOf(net: Net, st: Step, b: Net, route: seq<Addr>, k: nat, s: Addr) {
    && k < |route| && (k > 0 ==> Elsewhere(route, k - 1, route[k]))
    && Next(net, st, b) && b.c == net.c && Reaching(net, st, route, k)
    && AtMost(HopsOf(net, s), HopsOf(b, s), route[k])
    && HasRung(HopsOf(b, s), net.c.root, route, k)
  }

  /**
   * The i-th message is a reply for s on this route, with k nodes to visit after its receiver and room at all of them.
   */
  ghost predicate InFlight(net: Net, i: nat, route: seq<Addr>, k: nat, s: Addr) {
    && NetOk(net) && i < |net.bag| && net.bag[i].msg.PrepMsg? && RoomOnRoute(net, net.bag[i])
    && RouteOf(net.bag[i]) == route && |net.bag[i].msg.prep.ext| == k && net.bag[i].msg.prep.dest == s
  }

  function Newest(net: Net): nat { if net.bag == [] then 0 else |net.bag| - 1 }

  /** What one delivery leads to, if the reply is in flight. */
  ghost predicate Delivers(net: Net, i: nat, env: Env, b: Net, route: seq<Addr>, k: nat, s: Addr) {
    InFlight(net, i, route, k, s) ==>
      FirstOf(net, Deliver(i, env), b, route, k, s) && (k > 0 ==> InFlight(b, Newest(b), route, k - 1, s))
  }

  /** What all its deliveries lead to. */
  ghost predicate Unwinding(net: Net, i: nat, route: seq<Addr>, k: nat, s: Addr, r: Run) {
    InFlight(net, i, route, k, s) ==> Unwound(net, r, route, k, s)
  }

  lemma Deliverable(net: Net, i: nat, env: Env, route: seq<Addr>, k: nat, s: Addr) returns (b: Net)
    requires InFlight(net, i, route, k, s)
    ensures Next(net, Deliver(i, env), b) && NetOk(b)
  {
    var pk := net.bag[i];
    assert PacketOk(net.c, pk);
    ShapeOk(net);
    PrepStepOk(net.c, net.nodes[pk.dst], pk.src, pk.msg.prep, pk.trail, env);
    b := Apply(net, Deliver(i, env));
    NextOk(net, Deliver(i, env), b);
  }

  lemma DeliveredFirst(net: Net, i: nat, env: Env, b: Net, route: seq<Addr>, k: nat, s: Addr)
    requires InFlight(net, i, route, k, s) && Next(net, Deliver(i, env), b)
    ensures FirstOf(net, Deliver(i, env), b, route, k, s)
  {
    assert PacketOk(net.c, net.bag[i]);
    OneRung(net, i, env, b);
  }

  lemma StillInFlight(net: Net, i: nat, env: Env, b: Net, route: seq<Addr>, k: nat, s: Addr)
    requires InFlight(net, i, route, k, s) && Next(net, Deliver(i, env), b) && NetOk(b) && k > 0
    ensures InFlight(b, Newest(b), route, k - 1, s)
  {
    ReplyMovesOn(net, i, env, b);
    RoomStays(net, i, env, b);
  }

  lemma FirstDelivery(net: Net, i: nat, env: Env, route: seq<Addr>, k: nat, s: Addr) returns (b: Net)
    ensures Delivers(net, i, env, b, route, k, s)
  {
    b := net;
    if InFlight(net, i, route, k, s) {
      b := Deliverable(net, i, env, route, k, s);
      DeliveredFirst(net, i, env, b, route, k, s);
      if k > 0 { StillInFlight(net, i, env, b, route, k, s); }
    }
  }

  lemma UnwoundLast(net: Net, i: nat, env: Env, b: Net, route: seq<Addr>, s: Addr) returns (r: Run)
    ensures Delivers(net, i, env, b, route, 0, s) ==> Unwinding(net, i, route, 0, s, r)
  {
    r := Run([net, b], [Deliver(i, env)]);
    if FirstOf(net, Deliver(i, env), b, route, 0, s) {
      LastVisit(net, Deliver(i, env), b, route);
      LaidFirst(HopsOf(net, s), HopsOf(b, s), net.c.root, route);
    }
  }

  lemma UnwoundMore(net: Net, i: nat, env: Env, b: Net, r1: Run, route: seq<Addr>, k: nat, s: Addr) returns (r: Run)
    requires k > 0
    ensures Delivers(net, i, env, b, route, k, s) && Unwinding(b, Newest(b), route, k - 1, s, r1) ==>
              Unwinding(net, i, route, k, s, r)
  {
    r := Run([net] + r1.states, [Deliver(i, env)] + r1.steps);
    if FirstOf(net, Deliver(i, env), b, route, k, s) && Unwound(b, r1, route, k - 1, s) {
      VisitsMore(net, Deliver(i, env), r1, route, k);
      assert r.states[k + 1] == r1.states[k];
      LaidMore(HopsOf(net, s), HopsOf(b, s), HopsOf(r1.states[k], s), net.c.root, route, k);
    }
  }

  lemma {:induction false} Unwind(net: Net, i: nat, env: Env, route: seq<Addr>, k: nat, s: Addr) returns (r: Run)
    ensures Unwinding(net, i, route, k, s, r)
    decreases k
  {
    var b := FirstDelivery(net, i, env, route, k, s);
    if k == 0 {
      r := UnwoundLast(net, i, env, b, route, s);
    } else {
      var r1 := Unwind(b, Newest(b), env, route, k - 1, s);
      r := UnwoundMore(net, i, env, b, r1, route, k, s);
    }
  }

  /**
   * Undisturbed, a reply with k nodes still to visit after its receiver is delivered k + 1 times, to
   * route[k], ..., route[0], hop count and remaining length always adding up to the length of the route; each
   * visited node then points to the next one, the last to the root, with its true distance, and no other node changed.
   */
  lemma ReplyUnwinds(net: Net, i: nat, env: Env, route: seq<Addr>, k: nat, s: Addr) returns (r: Run)
    requires InFlight(net, i, route, k, s)
    ensures Unwound(net, r, route, k, s)
  {
    r := Unwind(net, i, env, route, k, s);
  }

  lemma ShapeOk(net: Net)
    requires NetOk(net)
    ensures Shape(net)
  {
    forall x, i | x in net.nodes && 0 <= i < SLOTS
      ensures |net.nodes[x].rt[i].hits| == 10 && net.nodes[x].rt[i].hitPos < 10
    {
      assert NodeOk(net.c, net.nodes[x]) && SlotOk(net.nodes[x].rt[i]);
    }
  }

  lemma Prepend(net: Net, st: Step, r: Run)
    requires IsRun(r) && Next(net, st, r.states[0])
    ensures IsRun(Run([net] + r.states, [st] + r.steps))
  {
    var q := Run([net] + r.states, [st] + r.steps);
    forall k | 0 <= k < |q.steps| ensures Next(q.states[k], q.steps[k], q.states[k + 1]) {
      if k > 0 { assert q.states[k] == r.states[k - 1] && q.steps[k] == r.steps[k - 1]; }
    }
  }

  /**
   * So a reply the root has just sent along a route of n nodes ends with the originator n hops from the root,
   * following uplinks.
   */
  lemma UnwoundReachesRoot(net: Net, i: nat, env: Env, route: seq<Addr>, s: Addr) returns (r: Run)
    requires NetOk(net) && i < |net.bag| && net.bag[i].msg.PrepMsg? && net.bag[i].trail == []
    requires RouteOf(net.bag[i]) == route && net.bag[i].msg.prep.dest == s && RoomOnRoute(net, net.bag[i])
    ensures IsRun(r) && r.states[0] == net && |r.states| == |route| + 1
    ensures Walk(Ups(r.states[|route|], s), s, |route|) == Some(net.c.root)
  {
    JustSent(net, i, route, s);
    r := ReplyUnwinds(net, i, env, route, |route| - 1, s);
    UnwoundLeads(net, r, route, s);
  }

  lemma JustSent(net: Net, i: nat, route: seq<Addr>, s: Addr)
    requires NetOk(net) && i < |net.bag| && net.bag[i].msg.PrepMsg? && net.bag[i].trail == []
    requires RouteOf(net.bag[i]) == route && net.bag[i].msg.prep.dest == s && RoomOnRoute(net, net.bag[i])
    ensures route != [] && route[0] == s && InFlight(net, i, route, |route| - 1, s)
  {
    assert PacketOk(net.c, net.bag[i]);
  }

  lemma UnwoundLeads(net: Net, r: Run, route: seq<Addr>, s: Addr)
    requires route != [] && route[0] == s && Unwound(net, r, route, |route| - 1, s)
    ensures IsRun(r) && r.states[0] == net && |r.states| == |route| + 1
    ensures Walk(Ups(r.states[|route|], s), s, |route|) == Some(net.c.root)
  {
    LaidReaches(HopsOf(net, s), HopsOf(r.states[|route|], s), net.c.root, route);
  }

  lemma LaidReaches(h: Hops, h': Hops, root: Addr, route: seq<Addr>)
    requires route != [] && Laid(h, h', root, route, |route| - 1)
    ensures Walk(Edges(h'), route[0], |route|) == Some(root)
  {
    forall m | 0 <= m < |route| ensures route[m] in h' && RungOrNone(h', root, route, m) {
      assert HasRung(h', root, route, m);
    }
    LadderReaches(h', root, route, 0);
  }

  /**
   * The same over whole runs, with anything else happening in between: when a reply reaches its originator, every
   * node of its route points to the next with its true distance or has lost the route since; if none was lost,
   * the originator's uplinks lead to the root in as many hops as the route has nodes.
   */
  lemma ReplyArrives(r: Run, k: nat, s: Addr)
    requires IsRun(r) && Init(r.states[0]) && k < |r.steps|
    requires forall j :: 0 <= j <= k ==> OneReply(r.states[j], s)
    requires r.steps[k].Deliver? && r.steps[k].i < |r.states[k].bag| && ReplyFor(r.states[k].bag[r.steps[k].i], s)
    requires r.states[k].bag[r.steps[k].i].msg.prep.ext == []
    ensures var route := RouteOf(r.states[k].bag[r.steps[k].i]); var h := HopsOf(r.states[k + 1], s);
            && route[0] == s && Ladder(h, r.states[0].c.root, route)
            && ((forall m :: 0 <= m < |route| ==> route[m] in h) ==>
                Walk(Edges(h), s, |route|) == Some(r.states[0].c.root))
  {
    var a, pk := r.states[k], r.states[k].bag[r.steps[k].i];
    AlwaysLoopInv(r, s, k);
    AlwaysOk(r, k);
    OwnReply(a, r.steps[k].i, r.steps[k].env, r.states[k + 1], s);
    Home(a.c, pk);
    LadderHome(HopsOf(r.states[k + 1], s), a.c.root, RouteOf(pk));
  }

  /** A reply with nothing left to visit has arrived at its originator. */
  lemma Home(c: Config, pk: Packet)
    requires pk.msg.PrepMsg? && pk.msg.prep.ext == []
    ensures RouteOf(pk) == [pk.dst] + pk.trail
    ensures PacketOk(c, pk) ==> pk.dst == pk.msg.prep.dest
  {
  }

  lemma LadderHome(h: Hops, root: Addr, route: seq<Addr>)
    requires route != []
    ensures Ladder(h, root, route) && (forall m :: 0 <= m < |route| ==> route[m] in h) ==>
              Walk(Edges(h), route[0], |route|) == Some(root)
  {
    if Ladder(h, root, route) && forall m :: 0 <= m < |route| ==> route[m] in h {
      LadderReaches(h, root, route, 0);
    }
  }

  // ------------------------------------------------------------------ replies do not multiply

  ghost predicate OneIn(bag: seq<Packet>, s: Addr) {
    forall i, j :: 0 <= i < j < |bag| ==> !(ReplyFor(bag[i], s) && ReplyFor(bag[j], s))
  }

  lemma OneLess(bag: seq<Packet>, i: nat, s: Addr)
    requires i < |bag| && OneIn(bag, s)
    ensures OneIn(Without(bag, i), s)
    ensures ReplyFor(bag[i], s) ==> forall k :: 0 <= k < |bag| - 1 ==> !ReplyFor(Without(bag, i)[k], s)
  {
    var rest := Without(bag, i);
    forall k | 0 <= k < |rest| ensures rest[k] == bag[if k < i then k else k + 1] { }
  }

  /** Only a reply makes its receiver send a reply. */
  lemma NoReplySent(n: Node, src: Addr, m: Msg, env: Env)
    requires |n.rt| == |n.tmp| == |n.armed| && Ready(n, m) && !m.PrepMsg?
    ensures forall o :: o in Receive(n, src, m, env).1 ==> !o.msg.PrepMsg?
  {
  }

  lemma OtherBag(a: Net, s: Step, b: Net, o: Addr)
    requires Next(a, s, b) && (s.Lose? || (s.Deliver? && !a.bag[s.i].msg.PrepMsg?)) && OneReply(a, o)
    ensures OneReply(b, o)
  {
    var outs := Turn(a, s).1;
    OneLess(a.bag, s.i, o);
    if s.Deliver? { NoReplySent(a.nodes[Actor(a, s)], a.bag[s.i].src, a.bag[s.i].msg, s.env); }
    forall k | |Rest(a, s)| <= k < |b.bag| ensures !ReplyFor(b.bag[k], o) {
      SentFrom(a.c, Actor(a, s), outs, TrailOf(a, s), k - |Rest(a, s)|);
    }
  }

  lemma ReplyBagOne(a: Net, i: nat, env: Env, b: Net, o: Addr)
    requires NetOk(a) && Next(a, Deliver(i, env), b) && a.bag[i].msg.PrepMsg? && OneReply(a, o)
    ensures OneReply(b, o)
  {
    OneLess(a.bag, i, o);
    ReplyMovesOn(a, i, env, b);
  }

  /** Deliveries and losses never bring a second reply for an originator into flight. */
  lemma QuietOneReply(a: Net, s: Step, b: Net, o: Addr)
    requires NetOk(a) && Next(a, s, b) && (s.Deliver? || s.Lose?) && OneReply(a, o)
    ensures OneReply(b, o)
  {
    if s.Deliver? && a.bag[s.i].msg.PrepMsg? { ReplyBagOne(a, s.i, s.env, b, o); } else { OtherBag(a, s, b, o); }
  }
}
