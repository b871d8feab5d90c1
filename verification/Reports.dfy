/**
 * Acknowledgements and unicast error reports follow the uplinks of their originator. This module says exactly how long
 * a report travels, and exactly when a mesh whose timers are silent falls silent: if no report can be caught on uplinks
 * that never end.
 */
module Reports {
  import opened Prelude
  import opened Messages
  import opened RouteTable
  import opened Handlers
  import opened NodeInvariants
  import opened Network
  import opened Uplinks
  import opened LoopFreedom
  import opened Replies
  import opened Quiescence

  // ------------------------------------------------------------------ the way of a report

  /** Node x passes on reports of this kind and originator, to another node. */
  predicate Leads(net: Net, m: Msg, x: Addr)
    requires Report(m) && x in net.nodes
  {
    var n := net.nodes[x];
    && !n.isRoot && NextHop(n, Origin(m)).Some? && NextHop(n, Origin(m)).value in net.c.ids
    && NextHop(n, Origin(m)).value != x && (m.RannAckMsg? ==> First(n.rt, ByDest(m.orig)).Some?)
  }

  /** Where each node sends them. */
  function Way(net: Net, m: Msg): Graph
    requires Report(m)
  {
    map x | x in net.nodes && Leads(net, m, x) :: NextHop(net.nodes[x], Origin(m)).value
  }

  /** An acknowledgement is passed on only by the node it names. */
  predicate Named(pk: Packet) { pk.msg.RannAckMsg? ==> pk.msg.next == pk.dst }

  lemma SameWay(a: Net, b: Net, m: Msg, y: Addr)
    requires Report(m) && b == a.(bag := b.bag)
    ensures Way(b, Onward(m, y)) == Way(a, m)
  {
    forall x | x in a.nodes ensures Leads(b, Onward(m, y), x) <==> Leads(a, m, x) { }
  }

  /** The i-th message is a report. */
  ghost predicate Tracked(net: Net, i: nat) { NetOk(net) && i < |net.bag| && Report(net.bag[i].msg) }

  lemma CanDeliver(net: Net, i: nat, env: Env)
    requires Tracked(net, i)
    ensures Can(net, Deliver(i, env))
  {
    ShapeOk(net);
    assert PacketOk(net.c, net.bag[i]);
  }

  ghost function DeliveredNet(net: Net, i: nat, env: Env): (b: Net)
    requires Tracked(net, i)
    ensures Next(net, Deliver(i, env), b) && NetOk(b)
  {
    CanDeliver(net, i, env);
    var d := Apply(net, Deliver(i, env));
    NextOk(net, Deliver(i, env), d);
    d
  }

  /** It is passed on exactly if its receiver is the node named and leads on. */
  lemma ReportHop(net: Net, i: nat, env: Env, b: Net)
    requires Tracked(net, i) && Next(net, Deliver(i, env), b) && NetOk(b)
    ensures b == net.(bag := b.bag)
    ensures var pk := net.bag[i]; var g := Way(net, pk.msg);
            if Named(pk) && pk.dst in g then
              && b.bag == Without(net.bag, i) + [Packet(pk.dst, g[pk.dst], Onward(pk.msg, g[pk.dst]), [])]
              && |b.bag| == |net.bag| && Tracked(b, Newest(b))
            else b.bag == Without(net.bag, i)
  {
    var pk := net.bag[i];
    ReportStep(net, i, env, b);
    assert net.nodes[pk.dst].me == pk.dst;
    if Named(pk) && Leads(net, pk.msg, pk.dst) { assert Passes(net.nodes[pk.dst], pk.msg); }
  }

  // ------------------------------------------------------------------ how long a report travels

  ghost function After(net: Net, i: nat, env: Env): (b: Net)
    requires Tracked(net, i)
    ensures Next(net, Deliver(i, env), b) && NetOk(b)
    ensures |b.bag| == |net.bag| ==> Tracked(b, Newest(b))
  {
    var d := DeliveredNet(net, i, env);
    ReportHop(net, i, env, d);
    d
  }

  /** A mesh and the place of a message in it. */
  datatype Spot = Spot(net: Net, i: nat)

  function At(s: Spot): Addr { if s.i < |s.net.bag| then s.net.bag[s.i].dst else 0 }

  /** The report is delivered and nothing else happens; if it is still in flight it is then the newest message. */
  ghost function Ahead(env: Env): Spot -> Option<Spot> {
    (s: Spot) =>
      if Tracked(s.net, s.i) && |After(s.net, s.i, env).bag| == |s.net.bag|
      then Some(Spot(After(s.net, s.i, env), Newest(After(s.net, s.i, env)))) else None
  }

  /** The mesh after n deliveries of the report and nothing else, if the report is still in flight. */
  ghost function Chase(net: Net, i: nat, env: Env, n: nat): Option<Spot> { Iterate(Ahead(env), Spot(net, i), n) }

  /** The report at this spot follows graph g. */
  ghost predicate OnWay(s: Spot, g: Graph) {
    Tracked(s.net, s.i) && Named(s.net.bag[s.i]) && Way(s.net, s.net.bag[s.i].msg) == g
  }

  /** One delivery is one hop of the walk. */
  lemma OneHop(s: Spot, env: Env, g: Graph)
    requires OnWay(s, g)
    ensures Ahead(env)(s).Some? <==> At(s) in g
    ensures Ahead(env)(s).Some? ==> OnWay(Ahead(env)(s).value, g) && At(Ahead(env)(s).value) == g[At(s)]
  {
    var pk, b := s.net.bag[s.i], After(s.net, s.i, env);
    ReportHop(s.net, s.i, env, b);
    if |b.bag| == |s.net.bag| { SameWay(s.net, b, pk.msg, g[pk.dst]); }
  }

  /** An acknowledgement that names another node is gone at once. */
  lemma Misdirected(net: Net, i: nat, env: Env)
    requires Tracked(net, i) && !Named(net.bag[i])
    ensures Ahead(env)(Spot(net, i)) == None
  {
    ReportHop(net, i, env, After(net, i, env));
  }

  /**
   * Main theorem for one report: it is still in flight after n deliveries if and only if the walk along its way makes
   * n hops (and, for an acknowledgement, its first receiver is the node it names).
   */
  lemma ReportLifetime(net: Net, i: nat, env: Env, n: nat)
    requires Tracked(net, i)
    ensures Chase(net, i, env, n).Some? <==>
            (n == 0 || Named(net.bag[i])) && Walk(Way(net, net.bag[i].msg), net.bag[i].dst, n).Some?
  {
    var g := Way(net, net.bag[i].msg);
    if Named(net.bag[i]) {
      forall s | OnWay(s, g)
        ensures Ahead(env)(s).Some? <==> At(s) in g
        ensures Ahead(env)(s).Some? ==> OnWay(Ahead(env)(s).value, g) && At(Ahead(env)(s).value) == g[At(s)]
      {
        OneHop(s, env, g);
      }
      IterateWalk(Ahead(env), At, s => OnWay(s, g), g, Spot(net, i), n);
    } else {
      Misdirected(net, i, env);
    }
  }

  /** It travels for ever. */
  ghost predicate Stuck(net: Net, i: nat) {
    && Tracked(net, i) && Named(net.bag[i])
    && forall n: nat {:trigger Walk(Way(net, net.bag[i].msg), net.bag[i].dst, n)} ::
         Walk(Way(net, net.bag[i].msg), net.bag[i].dst, n).Some?
  }

  /** Stuck is just that: there is no number of deliveries the report does not outlast. */
  lemma StuckIff(net: Net, i: nat, env: Env)
    requires Tracked(net, i)
    ensures Stuck(net, i) <==> forall n: nat :: Chase(net, i, env, n).Some?
  {
    if Stuck(net, i) {
      forall n: nat ensures Chase(net, i, env, n).Some? { ReportLifetime(net, i, env, n); }
    } else if Named(net.bag[i]) {
      var n: nat :| Walk(Way(net, net.bag[i].msg), net.bag[i].dst, n) == None;
      ReportLifetime(net, i, env, n);
    } else {
      ReportLifetime(net, i, env, 1);
    }
  }

  // ------------------------------------------------------------------ how far a report still has to go

  /** The number of hops a walk makes before it stops, at most `fuel`. */
  function Hops(g: Graph, x: Addr, fuel: nat): (h: nat)
    ensures h <= fuel
    decreases fuel
  {
    if fuel == 0 || x !in g then 0 else 1 + Hops(g, g[x], fuel - 1)
  }

  lemma {:induction false} HopsEnd(g: Graph, x: Addr, fuel: nat)
    requires Walk(g, x, fuel) == None
    ensures Hops(g, x, fuel + 1) == Hops(g, x, fuel)
    decreases fuel
  {
    if x in g { HopsEnd(g, g[x], fuel - 1); }
  }

  function Trip(net: Net, pk: Packet): nat {
    if Report(pk.msg) then Hops(Way(net, pk.msg), pk.dst, |net.nodes|) else 0
  }

  function Trips(net: Net, bag: seq<Packet>): nat {
    if bag == [] then 0 else Trip(net, bag[0]) + Trips(net, bag[1..])
  }

  lemma {:induction false} TripsConcat(net: Net, a: seq<Packet>, b: seq<Packet>)
    ensures Trips(net, a + b) == Trips(net, a) + Trips(net, b)
  {
    if a == [] {
      assert a + b == b;
    } else {
      assert (a + b)[1..] == a[1..] + b;
      TripsConcat(net, a[1..], b);
    }
  }

  lemma TripsWithout(net: Net, bag: seq<Packet>, i: nat)
    requires i < |bag|
    ensures Trips(net, bag) == Trips(net, Without(bag, i)) + Trip(net, bag[i])
  {
    assert bag == bag[..i] + ([bag[i]] + bag[i + 1..]);
    TripsConcat(net, bag[..i], [bag[i]] + bag[i + 1..]);
    TripsConcat(net, bag[..i], bag[i + 1..]);
    assert ([bag[i]] + bag[i + 1..])[1..] == bag[i + 1..];
  }

  /** Each report in flight weighs at least one and travels at most once round the mesh. */
  lemma {:induction false} TripsBound(net: Net, n: nat, bag: seq<Packet>)
    ensures Trips(net, bag) <= |net.nodes| * BagWeight(n, bag)
  {
    if bag != [] {
      TripsBound(net, n, bag[1..]);
      WeightPositive(n, bag[0].msg);
      Spread(|net.nodes|, Weight(n, bag[0].msg), BagWeight(n, bag[1..]));
    }
  }

  lemma Spread(k: nat, v: nat, w: nat)
    requires v > 0
    ensures k * (v + w) >= k + k * w
  {
    assert k * (v + w) == k * v + k * w;
    assert k * v >= k;
  }

  lemma {:induction false} SameTrips(a: Net, b: Net, bag: seq<Packet>)
    requires b == a.(bag := b.bag)
    ensures Trips(a, bag) == Trips(b, bag)
  {
    if bag != [] {
      if Report(bag[0].msg) { SameMap(a, b, bag[0].msg); }
      SameTrips(a, b, bag[1..]);
    }
  }

  lemma SameMap(a: Net, b: Net, m: Msg)
    requires Report(m) && b == a.(bag := b.bag)
    ensures Way(b, m) == Way(a, m)
  {
    forall x | x in a.nodes ensures Leads(b, m, x) <==> Leads(a, m, x) { }
  }

  // ------------------------------------------------------------------ one step

  /** The energy pays for the floods, the trips for the reports; each new report can travel once round the mesh. */
  ghost function Budget(net: Net): nat
    requires net.c.ids <= net.nodes.Keys
  {
    Square(|net.nodes| + 1, Energy(net)) + Trips(net, net.bag)
  }

  function Square(k: nat, e: nat): nat { k * (e * e) }

  lemma SquareFalls(k: nat, ea: nat, eb: nat, t: nat)
    requires k > 0 && eb < ea && t <= (k - 1) * eb
    ensures Square(k, eb) + t < Square(k, ea)
  {
    var d := eb + 1;
    SquareGrows(k, d, ea);
    assert d * d == eb * eb + (2 * eb + 1);
    assert k * (d * d) == k * (eb * eb) + k * (2 * eb + 1);
    assert k * (2 * eb + 1) == k * eb + (k * eb + k);
    assert k * eb == (k - 1) * eb + eb;
  }

  lemma SquareGrows(k: nat, d: nat, e: nat)
    requires d <= e
    ensures Square(k, d) <= Square(k, e)
  {
    assert d * d <= d * e <= e * e;
  }

  /** A walk in the mesh that ends does so before it has been everywhere. */
  lemma TripEnds(net: Net, m: Msg, x: Addr, n: nat)
    requires NetOk(net) && Report(m) && Walk(Way(net, m), x, n) == None
    ensures Walk(Way(net, m), x, |net.nodes|) == None
  {
    var g := Way(net, m);
    assert NodeOk(net.c, net.nodes[net.c.root]) && net.c.root in net.nodes;
    Smaller(g.Keys, net.nodes.Keys - {net.c.root});
    WalkEndsSoon(g, x, n);
    if Walk(g, x, |net.nodes|).Some? { WalkShorter(g, x, |g| + 1, |net.nodes|); }
  }

  /** Whether a report is stuck can be seen from as many hops of its way as there are nodes. */
  lemma StuckCheck(net: Net, i: nat)
    requires Tracked(net, i)
    ensures Stuck(net, i) <==>
            Named(net.bag[i]) && Walk(Way(net, net.bag[i].msg), net.bag[i].dst, |net.nodes|).Some?
  {
    var m, x := net.bag[i].msg, net.bag[i].dst;
    if Walk(Way(net, m), x, |net.nodes|).Some? {
      forall n: nat {:trigger Walk(Way(net, m), x, n)} ensures Walk(Way(net, m), x, n).Some? {
        if Walk(Way(net, m), x, n) == None { TripEnds(net, m, x, n); }
      }
    }
  }

  /** A report that is passed on and is not stuck has one hop less to go. */
  lemma TripShorter(net: Net, m: Msg, x: Addr, n: nat)
    requires NetOk(net) && Report(m) && x in Way(net, m) && Walk(Way(net, m), x, n) == None
    ensures Hops(Way(net, m), x, |net.nodes|) == 1 + Hops(Way(net, m), Way(net, m)[x], |net.nodes|)
  {
    TripEnds(net, m, x, n);
    HopsEnd(Way(net, m), Way(net, m)[x], |net.nodes| - 1);
  }

  /** The step delivers a report that is stuck. */
  ghost predicate Caught(a: Net, s: Step) { s.Deliver? && Stuck(a, s.i) }

  lemma TripsDrop(a: Net, i: nat, env: Env, b: Net)
    requires Tracked(a, i) && Next(a, Deliver(i, env), b) && NetOk(b) && |b.bag| == |a.bag| && !Stuck(a, i)
    ensures Trips(b, b.bag) < Trips(a, a.bag)
  {
    ReportHop(a, i, env, b);
    var pk := a.bag[i];
    var n: nat :| Walk(Way(a, pk.msg), pk.dst, n) == None;
    SameTrips(a, b, b.bag);
    TripsWithout(a, a.bag, i);
    TripsConcat(a, Without(a.bag, i), [OneHopOn(a, pk)]);
    TripPassed(a, pk, n);
  }

  /** The report as the node it is delivered to sends it on. */
  function OneHopOn(net: Net, pk: Packet): Packet
    requires Report(pk.msg) && pk.dst in Way(net, pk.msg)
  {
    var y := Way(net, pk.msg)[pk.dst];
    Packet(pk.dst, y, Onward(pk.msg, y), [])
  }

  lemma TripPassed(net: Net, pk: Packet, n: nat)
    requires NetOk(net) && Report(pk.msg) && pk.dst in Way(net, pk.msg) && Walk(Way(net, pk.msg), pk.dst, n) == None
    ensures Trips(net, [OneHopOn(net, pk)]) + 1 == Trip(net, pk)
  {
    TripShorter(net, pk.msg, pk.dst, n);
    SameWay(net, net, pk.msg, OneHopOn(net, pk).dst);
    assert [OneHopOn(net, pk)][1..] == [];
  }

  /** What pays for the trips in b is what the energy has lost since a. */
  lemma BudgetFalls(a: Net, b: Net)
    requires NetOk(a) && NetOk(b) && a.c == b.c && Energy(b) < Energy(a)
    ensures Budget(b) < Budget(a)
  {
    SameSize(a, b);
    TripsPaid(b);
    SquareFalls(|a.nodes| + 1, Energy(a), Energy(b), Trips(b, b.bag));
  }

  lemma SameSize(a: Net, b: Net)
    requires a.nodes.Keys == b.nodes.Keys
    ensures |a.nodes| == |b.nodes|
  {
    assert |a.nodes| == |a.nodes.Keys| && |b.nodes| == |b.nodes.Keys|;
  }

  lemma TripsPaid(net: Net)
    requires net.c.ids <= net.nodes.Keys
    ensures Trips(net, net.bag) <= |net.nodes| * Energy(net)
  {
    TripsBound(net, |net.c.ids|, net.bag);
    WeightPaid(net);
    Larger(Trips(net, net.bag), |net.nodes|, BagWeight(|net.c.ids|, net.bag), Energy(net));
  }

  lemma WeightPaid(net: Net)
    requires net.c.ids <= net.nodes.Keys
    ensures BagWeight(|net.c.ids|, net.bag) <= Energy(net)
  {
  }

  lemma Larger(t: nat, k: nat, v: nat, w: nat)
    requires t <= k * v && v <= w
    ensures t <= k * w
  {
    assert k * v <= k * w;
  }

  /** A report passed on: the energy does not grow and the report is nearer its end. */
  lemma ReportBudget(a: Net, i: nat, env: Env, b: Net)
    requires Tracked(a, i) && Next(a, Deliver(i, env), b) && NetOk(b) && |b.bag| == |a.bag| && !Stuck(a, i)
    ensures Budget(b) < Budget(a)
  {
    ReportHop(a, i, env, b);
    ReportEnergy(a, i, env, b);
    TripsDrop(a, i, env, b);
    SquareGrows(|a.nodes| + 1, Energy(b), Energy(a));
  }

  /** Every delivery and every loss lowers the budget, unless it delivers a report that is stuck. */
  lemma BudgetDrops(a: Net, s: Step, b: Net)
    requires NetOk(a) && Next(a, s, b) && (s.Deliver? || s.Lose?) && !Caught(a, s)
    ensures NetOk(b) && b.c == a.c && Budget(b) < Budget(a)
  {
    EnergyDrops(a, s, b);
    if Carries(a, s) && |b.bag| >= |a.bag| {
      ReportHop(a, s.i, s.env, b);
      ReportBudget(a, s.i, s.env, b);
    } else {
      BudgetFalls(a, b);
    }
  }

  // ------------------------------------------------------------------ runs

  /** Steps made and budget left, state by state. */
  ghost function Account(r: Run): (v: seq<nat>)
    requires IsRun(r) && NetOk(r.states[0])
    ensures |v| == |r.states| && forall t :: 0 <= t < |v| ==> NetOk(r.states[t]) && v[t] == t + Budget(r.states[t])
  {
    forall t | 0 <= t < |r.states| ensures NetOk(r.states[t]) { RunOk(r, t); }
    seq(|r.states|, t requires 0 <= t < |r.states| => t + Budget(r.states[t]))
  }

  /** A quiet run in which no report that is stuck is ever delivered is no longer than the budget of its first state. */
  lemma QuietRunsEnd(r: Run)
    requires Quiet(r) && NetOk(r.states[0])
    requires forall k :: 0 <= k < |r.steps| ==> !Caught(r.states[k], r.steps[k])
    ensures |r.steps| <= Budget(r.states[0])
  {
    var v := Account(r);
    forall t | 0 <= t < |r.steps| ensures NoHigher(v, t) { BudgetDrops(r.states[t], r.steps[t], r.states[t + 1]); }
    NeverHigher(v, |r.steps|);
  }

  /** A quiet run from net. */
  ghost predicate From(r: Run, net: Net) { Quiet(r) && r.states[0] == net }

  lemma MoveIsStep(env: Env, o: seq<Spot>, t: nat)
    requires Moves(Ahead(env), o, t)
    ensures var r := Stations(env, o); Next(r.states[t], r.steps[t], r.states[t + 1])
  {
  }

  function Stations(env: Env, o: seq<Spot>): Run requires o != [] {
    Run(seq(|o|, t requires 0 <= t < |o| => o[t].net),
        seq(|o| - 1, t requires 0 <= t < |o| - 1 => Deliver(o[t].i, env)))
  }

  lemma StationsRun(env: Env, o: seq<Spot>)
    requires o != [] && forall t :: 0 <= t < |o| - 1 ==> Moves(Ahead(env), o, t)
    ensures From(Stations(env, o), o[0].net)
  {
    var r := Stations(env, o);
    forall k | 0 <= k < |r.steps| ensures Next(r.states[k], r.steps[k], r.states[k + 1]) { MoveIsStep(env, o, k); }
  }

  /** A report in flight after n deliveries makes a quiet run of n steps. */
  lemma ChaseRun(net: Net, i: nat, env: Env, n: nat) returns (r: Run)
    requires Chase(net, i, env, n).Some?
    ensures From(r, net) && |r.steps| == n
  {
    var o := Orbit(Ahead(env), Spot(net, i), n);
    StationsRun(env, o);
    r := Stations(env, o);
  }

  function Join(a: Run, b: Run): Run requires b.states != [] { Run(a.states + b.states[1..], a.steps + b.steps) }

  lemma JoinOk(a: Run, b: Run, net: Net)
    requires From(a, net) && From(b, a.states[|a.steps|])
    ensures From(Join(a, b), net) && |Join(a, b).steps| == |a.steps| + |b.steps|
  {
    var q := Join(a, b);
    forall k | 0 <= k < |q.steps|
      ensures Next(q.states[k], q.steps[k], q.states[k + 1]) && (q.steps[k].Deliver? || q.steps[k].Lose?)
    {
      JoinedStep(a, b, k);
    }
  }

  lemma JoinedStep(a: Run, b: Run, k: nat)
    requires |a.states| == |a.steps| + 1 && |b.states| == |b.steps| + 1 && b.states[0] == a.states[|a.steps|]
    requires k < |a.steps| + |b.steps|
    ensures var q := Join(a, b); var n := |a.steps|;
            var (from, j) := if k < n then (a, k) else (b, k - n);
            q.states[k] == from.states[j] && q.steps[k] == from.steps[j] && q.states[k + 1] == from.states[j + 1]
  {
  }

  lemma Part(r: Run, net: Net, k: nat)
    requires From(r, net) && k <= |r.steps|
    ensures From(Run(r.states[..k + 1], r.steps[..k]), net)
  {
    var q := Run(r.states[..k + 1], r.steps[..k]);
    forall i | 0 <= i < |q.steps| ensures Next(q.states[i], q.steps[i], q.states[i + 1]) {
      assert Next(r.states[i], r.steps[i], r.states[i + 1]);
    }
  }

  /** Some quiet run from net leads to a state with a report that is stuck. */
  ghost predicate CanTrap(net: Net) { exists r, i :: From(r, net) && Stuck(r.states[|r.steps|], i) }

  /** No quiet run from net is longer than n. */
  ghost predicate SilentWithin(net: Net, n: nat) { forall r :: From(r, net) ==> |r.steps| <= n }

  lemma TrapBreaks(net: Net, n: nat)
    requires CanTrap(net)
    ensures !SilentWithin(net, n)
  {
    var r, i :| From(r, net) && Stuck(r.states[|r.steps|], i);
    var last, env := r.states[|r.steps|], Env(0, 0, []);
    StuckIff(last, i, env);
    assert Chase(last, i, env, n + 1).Some?;
    var q := ChaseRun(last, i, env, n + 1);
    JoinOk(r, q, net);
  }

  lemma CaughtTraps(r: Run, net: Net, k: nat)
    requires From(r, net) && k < |r.steps|
    ensures Caught(r.states[k], r.steps[k]) ==> CanTrap(net)
  {
    Part(r, net, k);
    var q := Run(r.states[..k + 1], r.steps[..k]);
    assert q.states[|q.steps|] == r.states[k];
  }

  lemma NoTrapBounds(net: Net)
    requires NetOk(net) && !CanTrap(net)
    ensures SilentWithin(net, Budget(net))
  {
    forall r | From(r, net) ensures |r.steps| <= Budget(net) {
      forall k | 0 <= k < |r.steps| ensures !Caught(r.states[k], r.steps[k]) { CaughtTraps(r, net, k); }
      QuietRunsEnd(r);
    }
  }

  /**
   * Main theorem: with its timers silent, a mesh falls silent within some bound if and only if no report can get stuck;
   * its budget is then such a bound.
   */
  lemma SilenceIff(net: Net)
    requires NetOk(net)
    ensures (exists n: nat :: SilentWithin(net, n)) <==> !CanTrap(net)
    ensures !CanTrap(net) ==> SilentWithin(net, Budget(net))
  {
    if CanTrap(net) {
      forall n: nat ensures !SilentWithin(net, n) { TrapBreaks(net, n); }
    } else {
      NoTrapBounds(net);
    }
  }

  /** Where the uplinks of every originator are free of cycles no report is stuck. */
  lemma AcyclicFrees(net: Net, i: nat)
    requires NetOk(net) && forall o {:trigger Ups(net, o)} :: Acyclic(Ups(net, o))
    ensures !Stuck(net, i)
  {
    if Tracked(net, i) {
      var m := net.bag[i].msg;
      var g, h := Ups(net, Origin(m)), Way(net, m);
      forall z | z in h ensures z in g && h[z] == g[z] {
        assert NodeOk(net.c, net.nodes[z]);
        WayIsUplink(net.c, net.nodes[z], Origin(m));
      }
      AcyclicSub(g, h);
      WalksEnd(h, net.bag[i].dst);
    }
  }

  lemma WayIsUplink(c: Config, n: Node, o: Addr)
    requires NodeOk(c, n) && NextHop(n, o).Some?
    ensures Hop(n.rt, c.root, o).Some? && Hop(n.rt, c.root, o).value.0 == NextHop(n, o).value
  {
    assert SlotOk(n.rt[First(n.rt, ByKey(n.rootAddr, o)).value]);
  }
}
