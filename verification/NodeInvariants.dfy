/** What every handler keeps true of one node and of the messages it sends. */
module NodeInvariants {
  import opened Prelude
  import opened Messages
  import opened RouteTable
  import opened Handlers

  /** The fixed part of a network: its nodes and its one root. */
  datatype Config = Config(ids: set<Addr>, root: Addr)

  ghost predicate ConfigOk(c: Config) {
    c.root in c.ids && 0 !in c.ids
  }

  // ------------------------------------------------------------------ messages

  /**
   * A source route: of the length its header claims, at most four, from the originator, free of repeats and of the
   * root.
   */
  ghost predicate PathOk(c: Config, q: Preq) {
    && q.hcnt == |q.ext| && 1 <= q.hcnt <= 4
    && q.ext[0] == q.orig && q.dest == c.root
    && Distinct(q.ext) && (forall k :: 0 <= k < |q.ext| ==> q.ext[k] in c.ids && q.ext[k] != c.root)
  }

  /** A request in flight: its budget is shared between ttl and hcnt, and its last hop is the radio sender. */
  ghost predicate PreqOk(c: Config, src: Addr, q: Preq) {
    PathOk(c, q) && q.ttl + q.hcnt == 5 && q.ext[q.hcnt - 1] == src
  }

  /** The whole route of a reply: still to visit, receiver, already visited. */
  function Itinerary(dst: Addr, p: Prep, trail: seq<Addr>): seq<Addr> { p.ext + [dst] + trail }

  function PrepSender(c: Config, trail: seq<Addr>): Addr { if trail == [] then c.root else trail[0] }

  /** A reply in flight, with the nodes it has been through. */
  ghost predicate PrepOk(c: Config, src: Addr, dst: Addr, p: Prep, trail: seq<Addr>) {
    && p.orig == c.root && src == PrepSender(c, trail)
    && var route := Itinerary(dst, p, trail);
       && |route| <= 4 && route[0] == p.dest
       && Distinct(route) && (forall k :: 0 <= k < |route| ==> route[k] in c.ids && route[k] != c.root)
       && p.hcnt == |trail| + 1
  }

  /** Messages that are broadcast or that carry no route. */
  ghost predicate MsgOk(c: Config, src: Addr, m: Msg) {
    match m
    case HelloMsg(h) => h.orig == src
    case SchHelloMsg(h) => h.orig == src
    case RannMsg(r) => r.orig == c.root && 1 <= r.ttl <= 3
    case PreqMsg(q) => PreqOk(c, src, q)
    case PrepMsg(_) => false
    case PerrMsg(p) => p.timeout != 0 && p.dest != 0
    case RannAckMsg(_, _) => true
    case PerrUniMsg(_, _) => true
  }

  /** Whatever the outputs are, each copy that reaches a node of the network is in order. */
  ghost predicate OutOk(c: Config, me: Addr, o: Out, trail: seq<Addr>) {
    match o
    case Broadcast(m) => MsgOk(c, me, m)
    case Unicast(to, m) =>
      to in c.ids && to != me ==> if m.PrepMsg? then PrepOk(c, me, to, m.prep, trail) else MsgOk(c, me, m)
  }

  ghost predicate OutsOk(c: Config, me: Addr, outs: seq<Out>, trail: seq<Addr>) {
    forall k :: 0 <= k < |outs| ==> OutOk(c, me, outs[k], trail)
  }

  // ------------------------------------------------------------------ nodes

  /** The root: no route to itself, one route per destination, and a well-formed request behind every armed timer. */
  ghost predicate RootOk(c: Config, n: Node) {
    && n.rootAddr == c.root && DestUnique(n.rt) && WindowsOk(n)
    && (forall i :: 0 <= i < |n.rt| && n.rt[i].valid ==> n.rt[i].dest != c.root)
    && |n.armed| == |n.tmp| && (forall i :: 0 <= i < |n.armed| && n.armed[i] ==> PathOk(c, n.tmp[i].preq))
  }

  /**
   * An open selection window: the slot's timer is armed and the stored request is the one its route was built from.
   * (A one-hop route keeps a link quality of its own.)
   */
  ghost predicate Agrees(n: Node, j: nat)
    requires |n.rt| == |n.tmp| == |n.armed| && j < |n.tmp|
  {
    var e, q := n.rt[j], n.tmp[j].preq;
    && n.armed[j] && e.valid && e.dest == q.orig && e.hcnt == q.hcnt && e.seqno == q.seqno
    && 1 <= q.hcnt <= |q.ext| && e.next == q.ext[q.hcnt - 1] && (e.hcnt != 1 ==> e.alm == q.alm)
  }

  ghost predicate WindowsOk(n: Node) {
    && |n.rt| == |n.tmp| == |n.armed|
    && forall j :: 0 <= j < |n.tmp| && n.tmp[j].used ==> Agrees(n, j)
  }

  ghost predicate NodeOk(c: Config, n: Node) {
    && TableOk(n.rt) && |n.tmp| == SLOTS && |n.armed| == SLOTS
    && n.me in c.ids && (n.isRoot <==> n.me == c.root)
    && (n.rootAddr == 0 || n.rootAddr == c.root)
    && (n.isRoot ==> RootOk(c, n))
  }

  /** Same identity. */
  predicate Same(n: Node, n': Node) { n'.me == n.me && n'.isRoot == n.isRoot && n'.ip == n.ip }

  /**
   * The uplinks of a node that is not the root, after a step that is not a reply: routes to the root may vanish,
   * and a hello of the root itself may give the node its own one-hop route.
   */
  ghost predicate OnlyOwnUplink(c: Config, n: Node, n': Node) {
    forall s {:trigger Hop(n'.rt, c.root, s)} ::
      || Hop(n'.rt, c.root, s) == None
      || Hop(n'.rt, c.root, s) == Hop(n.rt, c.root, s)
      || (s == n.me && Hop(n'.rt, c.root, s) == Some((c.root, 1)))
  }

  // ------------------------------------------------------------------ blanking

  lemma ClearOk(c: Config, n: Node, ks: set<nat>)
    requires ConfigOk(c) && NodeOk(c, n)
    ensures NodeOk(c, Clear(n, ks)) && OnlyOwnUplink(c, n, Clear(n, ks))
    ensures Thinned(n.rt, Clear(n, ks).rt)
  {
    ThinnedOk(n.rt, Clear(n, ks).rt);
  }

  lemma ClearAllOk(c: Config, n: Node)
    requires ConfigOk(c) && NodeOk(c, n)
    ensures NodeOk(c, ClearAll(n))
    ensures forall s {:trigger Hop(ClearAll(n).rt, c.root, s)} :: Hop(ClearAll(n).rt, c.root, s) == None
    ensures Thinned(n.rt, ClearAll(n).rt)
  {
    ThinnedOk(n.rt, ClearAll(n).rt);
  }

  // ------------------------------------------------------------------ hello

  lemma HelloOk(c: Config, n: Node, h: Hello, now: int)
    requires ConfigOk(c) && NodeOk(c, n) && h.orig in c.ids && h.orig != n.me
    ensures var n' := HelloProcess(n, h, now); NodeOk(c, n') && Same(n, n') && OnlyOwnUplink(c, n, n')
  {
    var n' := HelloProcess(n, h, now);
    if First(n.rt, ByDest(h.orig)).None? {
      if h.ip != 0 {
        assert First(n.rt, ByKey(h.orig, n.me)).None?;
        InsertOk(n.rt, Fresh(h.orig, h.orig, n.me, None, 1, h.ip, 1, 0, 0), now);
      }
    } else {
      SameRoutesOk(n.rt, n'.rt);
    }
  }

  lemma SchHelloOk(c: Config, n: Node, h: Hello, now: int)
    requires ConfigOk(c) && NodeOk(c, n)
    ensures var n' := SchHelloProcess(n, h, now); NodeOk(c, n') && Same(n, n') && OnlyOwnUplink(c, n, n')
  {
    SameRoutesOk(n.rt, SchHelloProcess(n, h, now).rt);
  }

  // ------------------------------------------------------------------ root announcement

  lemma JoinOk(c: Config, n: Node, id: nat)
    requires ConfigOk(c) && NodeOk(c, n)
    ensures var n' := JoinEpoch(n, id); NodeOk(c, n') && Same(n, n') && OnlyOwnUplink(c, n, n') && Thinned(n.rt, n'.rt)
  {
    if id != n.rid { ClearAllOk(c, n.(rid := id, order := 0)); }
  }

  lemma AdoptOk(c: Config, n: Node, r: Rann)
    requires ConfigOk(c) && NodeOk(c, n) && r.orig == c.root && !n.isRoot
    ensures var n' := Adopt(n, r); NodeOk(c, n') && Same(n, n') && OnlyOwnUplink(c, n, n') && Thinned(n.rt, n'.rt)
    ensures var n' := Adopt(n, r); n'.rootAddr == c.root && n'.order == r.order && n'.rid == n.rid
  {
    var n1 := n.(order := r.order, rootAddr := r.orig);
    var n2 := AdoptMetric(n1, r.metric);
    if n2 != n1 { ClearAllOk(c, n1.(metric := r.metric)); }
    var n3 := AdoptChannel(n2, r.channel);
    if n3 != n2 { ClearAllOk(c, n2.(channel := r.channel)); }
    var n4 := AdoptRate(n3, r.rate);
    if n4 != n3 { ClearAllOk(c, n3.(rate := r.rate)); }
    if r.reset == 1 { ClearAllOk(c, n4); }
  }

  lemma RannOk(c: Config, n: Node, src: Addr, r: Rann)
    requires ConfigOk(c) && NodeOk(c, n) && MsgOk(c, src, RannMsg(r))
    ensures var (n', outs) := RannProcess(n, r);
            && NodeOk(c, n') && Same(n, n') && OnlyOwnUplink(c, n, n') && OutsOk(c, n.me, outs, [])
            && Thinned(n.rt, n'.rt)
  {
    JoinOk(c, n, r.id);
    if Accepts(n, r) {
      AdoptOk(c, JoinEpoch(n, r.id), r);
    }
  }

  // ------------------------------------------------------------------ path request

  /**
   * The repeat check skips position 2 of the list, yet no node ever repeats: with three hops recorded position 2
   * is the radio sender, and with four the ttl ends the request.
   */
  lemma ForwardOk(c: Config, me: Addr, src: Addr, q: Preq, past: seq<Addr>, alm: nat)
    requires PreqOk(c, src, q) && me in c.ids && me != c.root && me != src
    requires !RepeatHit(me, q, past)
    ensures OutsOk(c, me, PreqForward(me, q.(alm := alm)), [])
  {
    if q.ttl != 1 {
      assert Probe(0) == 0 && Probe(1) == 1;
      assert ExtAt(q.ext, past, Probe(0)) == q.ext[0];
      assert q.hcnt >= 2 ==> ExtAt(q.ext, past, Probe(1)) == q.ext[1];
      assert me !in q.ext;
    }
  }

  lemma RootPreqTable(c: Config, n: Node, src: Addr, q: Preq, env: Env)
    requires ConfigOk(c) && NodeOk(c, n) && n.isRoot && PreqOk(c, src, q)
    requires First(n.rt, ByDest(q.orig)).None? ==> First(n.rt, Free).Some?
    ensures var t := RootPreq(n, src, q, env).rt;
            TableOk(t) && DestUnique(t) && forall i :: 0 <= i < |t| && t[i].valid ==> t[i].dest != c.root
  {
    match First(n.rt, ByDest(q.orig)) {
      case None =>
        assert First(n.rt, ByKey(q.orig, n.me)).None?;
        InsertOk(n.rt, Fresh(q.orig, src, n.me, None, q.hcnt, q.ip, 0, q.alm, q.seqno), env.now);
      case Some(i) =>
        RefreshOk(n.rt, i, src, q.hcnt, q.alm, q.seqno, env.junk);
    }
  }

  lemma RootPreqOk(c: Config, n: Node, src: Addr, q: Preq, env: Env)
    requires ConfigOk(c) && NodeOk(c, n) && n.isRoot && PreqOk(c, src, q)
    requires First(n.rt, ByDest(q.orig)).None? ==> First(n.rt, Free).Some?
    ensures var n' := RootPreq(n, src, q, env); NodeOk(c, n') && Same(n, n')
  {
    RootPreqTable(c, n, src, q, env);
    FirstIsLast(n.rt, q.orig);
    var n' := RootPreq(n, src, q, env);
    forall j | 0 <= j < |n'.tmp| && n'.tmp[j].used ensures Agrees(n', j) { }
  }

  /** The root has no route to itself, so it has no uplink for anyone. */
  lemma RootHasNoUplink(c: Config, n: Node)
    requires NodeOk(c, n) && n.isRoot
    ensures forall s {:trigger Hop(n.rt, c.root, s)} :: Hop(n.rt, c.root, s) == None
  {
  }

  lemma PreqStepOk(c: Config, n: Node, src: Addr, q: Preq, env: Env)
    requires ConfigOk(c) && NodeOk(c, n) && PreqOk(c, src, q) && PreqReady(n, q) && n.me != src
    ensures var (n', outs) := PreqProcess(n, src, q, env);
            && NodeOk(c, n') && Same(n, n') && OnlyOwnUplink(c, n, n') && OutsOk(c, n.me, outs, [])
            && forall s {:trigger Hop(n'.rt, c.root, s)} :: Hop(n'.rt, c.root, s) == Hop(n.rt, c.root, s)
  {
    if n.isRoot { RootHasNoUplink(c, n); }
    var q1 := AddLink(n, src, q);
    if n.me == q.dest {
      RootPreqOk(c, n, src, q1, env);
      RootHasNoUplink(c, RootPreq(n, src, q1, env));
    } else if !RepeatHit(n.me, q, env.past) {
      ForwardOk(c, n.me, src, q, env.past, q1.alm);
    }
  }

  lemma PrepFireOk(c: Config, n: Node, slot: nat)
    requires ConfigOk(c) && NodeOk(c, n) && n.isRoot && slot < SLOTS && n.armed[slot]
    ensures var (n', outs) := PrepFire(n, slot);
            && NodeOk(c, n') && Same(n, n') && n'.rt == n.rt && OutsOk(c, n.me, outs, []) && |outs| == 1
            && outs[0].msg.PrepMsg? && Itinerary(outs[0].to, outs[0].msg.prep, []) == n.tmp[slot].preq.ext
  {
    var q := n.tmp[slot].preq;
    var (n', outs) := PrepFire(n, slot);
    assert Itinerary(q.ext[q.hcnt - 1], outs[0].msg.prep, []) == q.ext;
  }

  // ------------------------------------------------------------------ path reply

  /** The node has a slot for an uplink of s: a free one, or the one that already holds it. */
  predicate Room(c: Config, n: Node, s: Addr) {
    First(n.rt, Free).Some? || First(n.rt, ByKey(c.root, s)).Some?
  }

  /** A reply changes the uplink of its own originator only, to the node it came from, one hop further than there. */
  lemma PrepStepOk(c: Config, n: Node, src: Addr, p: Prep, trail: seq<Addr>, env: Env)
    requires ConfigOk(c) && NodeOk(c, n) && PrepOk(c, src, n.me, p, trail)
    ensures PrepReady(n, p)
    ensures var (n', outs) := PrepProcess(n, src, p, env);
            && NodeOk(c, n') && Same(n, n') && OutsOk(c, n.me, outs, [n.me] + trail)
            && Hop(n'.rt, c.root, p.dest) == (if Room(c, n, p.dest) then Some((src, p.hcnt)) else None)
            && (forall s {:trigger Hop(n'.rt, c.root, s)} :: s != p.dest ==>
                  Hop(n'.rt, c.root, s) == Hop(n.rt, c.root, s))
  {
    var route := Itinerary(n.me, p, trail);
    assert route[|p.ext|] == n.me;
    var n1 := Uplink(n, src, p, env);
    match First(n.rt, ByKey(p.orig, p.dest)) {
      case None =>
        var prev := if |p.ext| > 0 then Some(p.ext[|p.ext| - 1]) else None;
        InsertOk(n.rt, Fresh(p.orig, src, p.dest, prev, p.hcnt, p.origIP, 0, 0, p.seqno), env.now);
      case Some(i) =>
        RefreshOk(n.rt, i, src, p.hcnt, 0, p.seqno, env.junk);
    }
    if |p.ext| > 0 {
      assert route[0] == p.ext[0] == p.dest;
      DownlinkOk(c, n1, src, p, env);
      PassOnOk(c, n.me, src, p, trail);
    }
  }

  lemma DownlinkOk(c: Config, n: Node, src: Addr, p: Prep, env: Env)
    requires ConfigOk(c) && NodeOk(c, n) && |p.ext| > 0 && p.dest in c.ids && p.dest != c.root && !n.isRoot
    ensures var n' := Downlink(n, src, p, env);
            && NodeOk(c, n') && Same(n, n')
            && (forall s {:trigger Hop(n'.rt, c.root, s)} :: Hop(n'.rt, c.root, s) == Hop(n.rt, c.root, s))
  {
    if First(n.rt, ByDest(p.dest)).None? {
      assert First(n.rt, ByKey(p.dest, p.orig)).None?;
      InsertOk(n.rt, Fresh(p.dest, ExtAt(p.ext, env.past, 2 * (|p.ext| - 1)), p.orig, Some(src),
                           |p.ext|, p.destIP, 0, 0, 0), env.now);
    }
  }

  /** The inserted downlink, whatever stands behind the list. */
  lemma DownlinkHop(n: Node, src: Addr, p: Prep, env: Env)
    requires TableOk(n.rt) && |p.ext| > 0 && p.dest != 0
    requires First(n.rt, ByDest(p.dest)).None? && First(n.rt, Free).Some?
    ensures Hop(Downlink(n, src, p, env).rt, p.dest, p.orig) ==
            Some((ExtAt(p.ext, env.past, 2 * (|p.ext| - 1)), |p.ext|))
  {
    assert First(n.rt, ByKey(p.dest, p.orig)).None?;
    InsertOk(n.rt, Fresh(p.dest, ExtAt(p.ext, env.past, 2 * (|p.ext| - 1)), p.orig, Some(src),
                         |p.ext|, p.destIP, 0, 0, 0), env.now);
  }

  /**
   * A downlink inserted for a reply leads to the next node of its route, whatever stands in memory behind the list, if
   * and only if that node is the originator itself, the last one to visit.
   */
  lemma DownlinkIff(n: Node, src: Addr, p: Prep, now: int)
    requires TableOk(n.rt) && |p.ext| > 0 && p.dest != 0
    requires First(n.rt, ByDest(p.dest)).None? && First(n.rt, Free).Some?
    ensures (forall past: seq<Addr> :: Hop(Downlink(n, src, p, Env(now, 0, past)).rt, p.dest, p.orig) ==
                                       Some((p.ext[|p.ext| - 1], |p.ext|))) <==> |p.ext| == 1
  {
    if |p.ext| == 1 {
      forall past: seq<Addr>
        ensures Hop(Downlink(n, src, p, Env(now, 0, past)).rt, p.dest, p.orig) == Some((p.ext[0], 1))
      {
        DownlinkHop(n, src, p, Env(now, 0, past));
      }
    } else {
      var past := seq(|p.ext|, _ => p.ext[|p.ext| - 1] + 1);
      DownlinkHop(n, src, p, Env(now, 0, past));
    }
  }

  /** One hop of a reply moves the receiver from the head of the route to the trail; the route itself stays. */
  lemma PassOnOk(c: Config, me: Addr, src: Addr, p: Prep, trail: seq<Addr>)
    requires PrepOk(c, src, me, p, trail) && |p.ext| > 0
    ensures OutsOk(c, me, PrepForward(p), [me] + trail)
    ensures p.dest != 0 ==> |PrepForward(p)| == 1
    ensures forall k :: 0 <= k < |PrepForward(p)| ==>
              Itinerary(PrepForward(p)[k].to, PrepForward(p)[k].msg.prep, [me] + trail) == Itinerary(me, p, trail)
  {
    var route := Itinerary(me, p, trail);
    assert route[0] == p.ext[0];
    if p.ext[0] != 0 {
      var o := PrepForward(p)[0];
      assert p.ext[..|p.ext| - 1] + [p.ext[|p.ext| - 1]] == p.ext;
      assert Itinerary(o.to, o.msg.prep, [me] + trail) == route;
    }
  }

  // ------------------------------------------------------------------ path error and timeout

  lemma PerrOk(c: Config, n: Node, src: Addr, p: Perr)
    requires ConfigOk(c) && NodeOk(c, n) && MsgOk(c, src, PerrMsg(p))
    ensures var (n', outs) := PerrProcess(n, p);
            && NodeOk(c, n') && Same(n, n') && OnlyOwnUplink(c, n, n') && OutsOk(c, n.me, outs, [])
            && Thinned(n.rt, n'.rt)
  {
    ClearOk(c, n, PerrVictims(n.rt, n.rootAddr, p));
  }

  lemma PurgeOk(c: Config, n: Node, i: nat)
    requires ConfigOk(c) && NodeOk(c, n) && i < SLOTS
    ensures NodeOk(c, Purge(n, i)) && Same(n, Purge(n, i)) && OnlyOwnUplink(c, n, Purge(n, i))
    ensures Thinned(n.rt, Purge(n, i).rt)
  {
    ClearOk(c, n, Doomed(n.rt, i));
  }

  lemma TimeoutOutsOk(c: Config, n: Node, now: int, limit: int, i: nat)
    requires ConfigOk(c) && NodeOk(c, n) && i < SLOTS && Expired(n.rt[i], now, limit)
    ensures OutsOk(c, n.me, TimeoutOuts(n, i), [])
  {
    assert SlotOk(n.rt[i]);
    ReportsOk(c, n.me, n.rt[i].dest, UplinkLost(n, i),
              !n.isRoot && First(Purge(n, i).rt, ByKey(n.rootAddr, n.me)).Some?);
  }

  lemma ReportsOk(c: Config, me: Addr, dead: Addr, lost: bool, tell: bool)
    requires dead != 0 && me != 0
    ensures OutsOk(c, me, [Broadcast(PerrMsg(Perr(dead, dead)))]
                          + (if lost then [Broadcast(PerrMsg(Perr(dead, me)))] else [])
                          + (if tell then [Broadcast(PerrUniMsg(dead, me))] else []), [])
  {
  }

  lemma {:induction false} HelloTimeoutOk(c: Config, n: Node, now: int, limit: int, i: nat)
    requires ConfigOk(c) && NodeOk(c, n) && i <= SLOTS
    ensures var (n', outs) := HelloTimeout(n, now, limit, i);
            && NodeOk(c, n') && Same(n, n') && OnlyOwnUplink(c, n, n') && OutsOk(c, n.me, outs, [])
            && Thinned(n.rt, n'.rt)
    decreases SLOTS - i
  {
    if i < SLOTS {
      if Expired(n.rt[i], now, limit) {
        PurgeOk(c, n, i);
        TimeoutOutsOk(c, n, now, limit, i);
        HelloTimeoutOk(c, Purge(n, i), now, limit, i + 1);
      } else {
        HelloTimeoutOk(c, n, now, limit, i + 1);
      }
    }
  }

  // ------------------------------------------------------------------ link quality

  lemma LinkCheckOk(c: Config, n: Node)
    requires ConfigOk(c) && NodeOk(c, n) && forall i :: 0 <= i < |n.rt| ==> |n.rt[i].hits| == 10 && n.rt[i].hitPos < 10
    ensures NodeOk(c, LinkCheck(n)) && Same(n, LinkCheck(n)) && OnlyOwnUplink(c, n, LinkCheck(n))
  {
    SameRoutesOk(n.rt, LinkCheck(n).rt);
  }

  lemma LinkScoreOk(c: Config, n: Node, now: int)
    requires ConfigOk(c) && NodeOk(c, n) && forall i :: 0 <= i < |n.rt| ==> |n.rt[i].hits| == 10 && n.rt[i].hitPos < 10
    ensures NodeOk(c, LinkScore(n, now)) && Same(n, LinkScore(n, now)) && OnlyOwnUplink(c, n, LinkScore(n, now))
  {
    SameRoutesOk(n.rt, LinkScore(n, now).rt);
  }
}
