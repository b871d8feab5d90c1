/**
 * Root announcements within one epoch of the root: every node follows the root's numbering, acts on each number at
 * most once, and at number k uses what the root's k-th announcement said.
 */
module RannEpoch {
  import opened Prelude
  import opened Messages
  import opened RouteTable
  import opened Handlers
  import opened NodeInvariants
  import opened Network
  import opened LoopFreedom

  function IssueOf(n: Node): Issue { Issue(n.metric, n.rate, n.channel) }

  predicate NonZero(v: Issue) { v.metric != 0 && v.rate != 0 && v.channel != 0 }

  /** A node that has accepted anything is in the root's epoch, and uses what its last announcement said. */
  ghost predicate Follows(net: Net, n: Node) {
    n.order <= |net.issued| && (n.order > 0 ==> n.rid == net.rid && IssueOf(n) == net.issued[n.order - 1])
  }

  ghost predicate Genuine(net: Net, r: Rann) {
    && r.id == net.rid && 1 <= r.order <= |net.issued|
    && Issue(r.metric, r.rate, r.channel) == net.issued[r.order - 1]
  }

  ghost predicate RootLeads(net: Net, n: Node) {
    n.order == |net.issued| && n.rid == net.rid && NonZero(IssueOf(n))
  }

  ghost predicate EpochOk(net: Net) {
    && (forall k :: 0 <= k < |net.issued| ==> NonZero(net.issued[k]))
    && (forall x <- net.nodes.Keys ::
          if x == net.c.root then RootLeads(net, net.nodes[x]) else Follows(net, net.nodes[x]))
    && (forall k :: 0 <= k < |net.bag| && net.bag[k].msg.RannMsg? ==> Genuine(net, net.bag[k].msg.rann))
  }

  // ------------------------------------------------------------------ one node

  /** What a node does with an announcement of the current epoch. */
  lemma RannStep(net: Net, n: Node, r: Rann)
    requires NodeOk(net.c, n) && Genuine(net, r) && NonZero(net.issued[r.order - 1])
    requires if n.isRoot then RootLeads(net, n) else Follows(net, n)
    ensures var (n', outs) := RannProcess(n, r);
            && (if n.isRoot then RootLeads(net, n') else Follows(net, n'))
            && n'.order == (if Accepts(n, r) then r.order else n.order)
            && (Accepts(n, r) <==> !n.isRoot && n.order < r.order)
            && (forall k :: 0 <= k < |outs| && outs[k].msg.RannMsg? ==> Genuine(net, outs[k].msg.rann))
  {
    if Accepts(n, r) {
      var n0 := JoinEpoch(n, r.id);
      var n' := Adopt(n0, r);
      assert IssueOf(n') == Issue(r.metric, r.rate, r.channel);
    }
  }

  /** A rejected announcement causes nothing; an accepted one at most one forward and one request or acknowledgement. */
  lemma RannEmits(n: Node, r: Rann)
    requires |n.rt| == |n.tmp|
    ensures var (n', outs) := RannProcess(n, r);
            if !Accepts(n, r) then outs == []
            else if r.ttl > 1 then
              && 1 <= |outs| <= 2 && outs[0] == Broadcast(RannMsg(r.(ttl := r.ttl - 1)))
              && (|outs| == 2 ==> Answers(n'.me, r, outs[1]))
            else |outs| <= 1 && (|outs| == 1 ==> Answers(n'.me, r, outs[0]))
  {
  }

  /** A request that carries the order it answers, or an acknowledgement to the next hop. */
  predicate Answers(me: Addr, r: Rann, o: Out) {
    match o
    case Broadcast(PreqMsg(q)) => q.orig == me && q.seqno == r.order && q.dest == r.orig
    case Unicast(to, RannAckMsg(orig, next)) => orig == me && next == to
    case _ => false
  }

  // ------------------------------------------------------------------ the whole network

  /** Not an announcement. */
  predicate Other(o: Out) { !o.msg.RannMsg? }

  lemma ReportsOther(n: Node, i: nat)
    requires |n.rt| == |n.tmp| && i < |n.rt|
    ensures forall k :: 0 <= k < |TimeoutOuts(n, i)| ==> Other(TimeoutOuts(n, i)[k])
  {
  }

  lemma {:induction false} TimeoutKeeps(n: Node, now: int, limit: int, i: nat)
    requires |n.rt| == |n.tmp| && i <= |n.rt|
    ensures var (n', outs) := HelloTimeout(n, now, limit, i);
            && IssueOf(n') == IssueOf(n) && n'.order == n.order && n'.rid == n.rid
            && forall k :: 0 <= k < |outs| ==> Other(outs[k])
    decreases |n.rt| - i
  {
    if i < |n.rt| {
      if Expired(n.rt[i], now, limit) {
        ReportsOther(n, i);
        TimeoutKeeps(Purge(n, i), now, limit, i + 1);
      } else {
        TimeoutKeeps(n, now, limit, i + 1);
      }
    }
  }

  lemma ReceiveKeeps(n: Node, src: Addr, m: Msg, env: Env)
    requires |n.rt| == |n.tmp| == |n.armed| && Ready(n, m) && !m.RannMsg?
    ensures var (n', outs) := Receive(n, src, m, env);
            && IssueOf(n') == IssueOf(n) && n'.order == n.order && n'.rid == n.rid
            && forall k :: 0 <= k < |outs| ==> Other(outs[k])
  {
  }

  /** Turns other than those that deal with announcements and settings keep a node's number and settings. */
  lemma TurnKeeps(a: Net, s: Step)
    requires Can(a, s) && !s.RannTimer? && !s.Configure? && !(s.Deliver? && a.bag[s.i].msg.RannMsg?)
    ensures var n := a.nodes[Actor(a, s)]; var (n', outs) := Turn(a, s);
            && IssueOf(n') == IssueOf(n) && n'.order == n.order && n'.rid == n.rid
            && forall k :: 0 <= k < |outs| ==> Other(outs[k])
  {
    if s.HelloCheck? { TimeoutKeeps(a.nodes[s.x], s.now, s.limit, 0); }
    if s.Deliver? { ReceiveKeeps(a.nodes[Actor(a, s)], a.bag[s.i].src, a.bag[s.i].msg, s.env); }
  }

  /** The node that acts ends up right, and the announcements it sends are genuine. */
  lemma TurnEpoch(a: Net, s: Step, b: Net)
    requires NetOk(a) && EpochOk(a) && Next(a, s, b)
    ensures var x := Actor(a, s); var (n', outs) := Turn(a, s);
            && x in a.nodes && (if x == a.c.root then RootLeads(b, n') else Follows(b, n'))
            && forall k :: 0 <= k < |outs| && outs[k].msg.RannMsg? ==> Genuine(b, outs[k].msg.rann)
  {
    var n := a.nodes[Actor(a, s)];
    assert NodeOk(a.c, n);
    if s.RannTimer? {
    } else if s.Deliver? && a.bag[s.i].msg.RannMsg? {
      RannStep(a, n, a.bag[s.i].msg.rann);
    } else if !s.Configure? {
      TurnKeeps(a, s);
    }
  }

  lemma NextGenuine(a: Net, s: Step, b: Net, k: nat)
    requires Next(a, s, b) && EpochOk(a) && k < |b.bag| && b.bag[k].msg.RannMsg?
    requires forall i :: 0 <= i < |Turn(a, s).1| && Turn(a, s).1[i].msg.RannMsg? ==>
                           Genuine(b, Turn(a, s).1[i].msg.rann)
    ensures Genuine(b, b.bag[k].msg.rann)
  {
    BagFrom(a, s, b, k);
    if b.bag[k] in a.bag {
      var i :| 0 <= i < |a.bag| && a.bag[i] == b.bag[k];
      assert Genuine(a, a.bag[i].msg.rann);
    }
  }

  lemma NextEpochOk(a: Net, s: Step, b: Net)
    requires NetOk(a) && EpochOk(a) && Next(a, s, b)
    ensures EpochOk(b)
  {
    TurnEpoch(a, s, b);
    forall k | 0 <= k < |b.bag| && b.bag[k].msg.RannMsg? ensures Genuine(b, b.bag[k].msg.rann) {
      NextGenuine(a, s, b, k);
    }
    forall x <- b.nodes.Keys
      ensures if x == b.c.root then RootLeads(b, b.nodes[x]) else Follows(b, b.nodes[x])
    {
      if x != Actor(a, s) { assert b.nodes[x] == a.nodes[x]; }
    }
  }

  /** Main theorem: over every run from power-on the mesh follows the root's numbering. */
  lemma {:induction false} AlwaysEpochOk(r: Run, k: nat)
    requires IsRun(r) && Init(r.states[0]) && k < |r.states|
    ensures NetOk(r.states[k]) && EpochOk(r.states[k])
  {
    AlwaysOk(r, k);
    if k == 0 {
      var net := r.states[0];
      forall x <- net.nodes.Keys
        ensures if x == net.c.root then RootLeads(net, net.nodes[x]) else Follows(net, net.nodes[x])
      {
        assert InitNode(net.c, net.rid, x, net.nodes[x]);
      }
    } else {
      AlwaysEpochOk(r, k - 1);
      NextEpochOk(r.states[k - 1], r.steps[k - 1], r.states[k]);
    }
  }

  /** Step k of the run delivers to x an announcement that x accepts. */
  predicate AcceptedAt(r: Run, k: nat, x: Addr)
    requires k < |r.steps| && k < |r.states|
  {
    && r.steps[k].Deliver? && r.steps[k].i < |r.states[k].bag|
    && var pk := r.states[k].bag[r.steps[k].i];
       && pk.dst == x && x in r.states[k].nodes && pk.msg.RannMsg?
       && |r.states[k].nodes[x].rt| == |r.states[k].nodes[x].tmp| && Accepts(r.states[k].nodes[x], pk.msg.rann)
  }

  function OrderAt(r: Run, k: nat): nat
    requires k < |r.steps| && k < |r.states| && r.steps[k].Deliver? && r.steps[k].i < |r.states[k].bag|
    requires r.states[k].bag[r.steps[k].i].msg.RannMsg?
  {
    r.states[k].bag[r.steps[k].i].msg.rann.order
  }

  /** No node's number ever goes down, and an accepted announcement is what it becomes. */
  lemma OrderStep(a: Net, s: Step, b: Net, x: Addr)
    requires NetOk(a) && EpochOk(a) && Next(a, s, b) && x in a.nodes
    ensures x in b.nodes && a.nodes[x].order <= b.nodes[x].order
    ensures s.Deliver? && a.bag[s.i].dst == x && a.bag[s.i].msg.RannMsg? && Accepts(a.nodes[x], a.bag[s.i].msg.rann) ==>
              a.nodes[x].order < a.bag[s.i].msg.rann.order == b.nodes[x].order
  {
    if s.Deliver? && a.bag[s.i].msg.RannMsg? {
      var pk := a.bag[s.i];
      assert PacketOk(a.c, pk) && NodeOk(a.c, a.nodes[pk.dst]);
      RannStep(a, a.nodes[pk.dst], pk.msg.rann);
    } else if !s.RannTimer? && !s.Configure? {
      TurnKeeps(a, s);
    }
  }

  lemma {:induction false} OrderGrows(r: Run, i: nat, j: nat, x: Addr)
    requires IsRun(r) && Init(r.states[0]) && i <= j < |r.states| && x in r.states[i].nodes
    ensures x in r.states[j].nodes && r.states[i].nodes[x].order <= r.states[j].nodes[x].order
    decreases j - i
  {
    if i < j {
      AlwaysEpochOk(r, i);
      OrderStep(r.states[i], r.steps[i], r.states[i + 1], x);
      OrderGrows(r, i + 1, j, x);
    }
  }

  /**
   * The orders a node accepts strictly increase over the run and never exceed the number of announcements the root
   * has made: so each announcement makes a node forward, request or acknowledge at most once.
   */
  lemma AcceptedOrdersIncrease(r: Run, i: nat, j: nat, x: Addr)
    requires IsRun(r) && Init(r.states[0]) && i < j < |r.steps|
    requires AcceptedAt(r, i, x) && AcceptedAt(r, j, x)
    ensures OrderAt(r, i) < OrderAt(r, j) <= |r.states[j].issued|
  {
    AlwaysEpochOk(r, i);
    AlwaysEpochOk(r, j);
    OrderStep(r.states[i], r.steps[i], r.states[i + 1], x);
    OrderGrows(r, i + 1, j, x);
    OrderStep(r.states[j], r.steps[j], r.states[j + 1], x);
  }
}
