/** What the invariant says, spelled out for the reader of a run: requests, replies, routing tables, silence. */
module Guarantees {
  import opened Prelude
  import opened Messages
  import opened RouteTable
  import opened Handlers
  import opened NodeInvariants
  import opened Network
  import opened Replies
  import opened Quiescence
  import opened LoopFreedom
  import opened Uplinks
  import opened Reports

  /**
   * Every request in flight carries a route of as many nodes as it says, at most four (so the room for five behind a
   * stored request is never overrun), from its originator to the node it comes from, with no node twice and never the
   * root. It has been forwarded at most three times, and says how many times it still may be.
   */
  lemma RequestsInFlight(r: Run, k: nat, i: nat)
    requires IsRun(r) && Init(r.states[0]) && k < |r.states| && i < |r.states[k].bag| && r.states[k].bag[i].msg.PreqMsg?
    ensures var pk := r.states[k].bag[i]; var q := pk.msg.preq; var c := r.states[0].c;
            && 1 <= q.hcnt == |q.ext| <= 4 && q.ttl + q.hcnt == 5
            && q.ext[0] == q.orig && q.ext[|q.ext| - 1] == pk.src && q.dest == c.root
            && Distinct(q.ext) && c.root !in q.ext && forall j :: 0 <= j < |q.ext| ==> q.ext[j] in c.ids
  {
    AlwaysOk(r, k);
    assert PacketOk(r.states[k].c, r.states[k].bag[i]);
  }

  /**
   * Announcements name the root; they start with a ttl of three, of which each forward takes one, and are never out
   * with none.
   */
  lemma AnnouncementsInFlight(r: Run, k: nat, i: nat)
    requires IsRun(r) && Init(r.states[0]) && k < |r.states| && i < |r.states[k].bag| && r.states[k].bag[i].msg.RannMsg?
    ensures var a := r.states[k].bag[i].msg.rann; 1 <= a.ttl <= 3 && a.orig == r.states[0].c.root
  {
    AlwaysOk(r, k);
    assert PacketOk(r.states[k].c, r.states[k].bag[i]);
  }

  /**
   * Every reply in flight: what is left of its route, its receiver and the nodes behind it make up a route of at most
   * four different nodes that starts at the originator; it comes from the node behind the receiver, or from the root;
   * and hop count and remaining length add up to the length of the route.
   */
  lemma RepliesInFlight(r: Run, k: nat, i: nat)
    requires IsRun(r) && Init(r.states[0]) && k < |r.states| && i < |r.states[k].bag| && r.states[k].bag[i].msg.PrepMsg?
    ensures var pk := r.states[k].bag[i]; var p := pk.msg.prep; var route := RouteOf(pk); var c := r.states[0].c;
            && |p.ext| + p.hcnt == |route| <= 4 && route[0] == p.dest && route[|p.ext|] == pk.dst
            && pk.src == (if p.hcnt == 1 then c.root else route[|p.ext| + 1])
            && Distinct(route) && c.root !in route
  {
    AlwaysOk(r, k);
    var pk := r.states[k].bag[i];
    assert PacketOk(r.states[k].c, pk);
    if pk.trail != [] { assert RouteOf(pk)[|pk.msg.prep.ext| + 1] == pk.trail[0]; }
  }

  /**
   * Routing tables, over every run: no two routes of a node share destination and source, free slots are blank; and
   * at the root destinations alone are unique, so the first-match and the last-match search name the same slot.
   */
  lemma TablesInOrder(r: Run, k: nat, x: Addr)
    requires IsRun(r) && Init(r.states[0]) && k < |r.states| && x in r.states[k].nodes
    ensures var n := r.states[k].nodes[x];
            && |n.rt| == SLOTS && Keyed(n.rt) && (forall i :: 0 <= i < SLOTS && !n.rt[i].valid ==> n.rt[i] == EMPTY)
            && (x == r.states[0].c.root ==>
                forall d :: First(n.rt, ByDest(d)) == Last(n.rt, ByDest(d), SLOTS) && First(n.rt, ByDest(x)).None?)
  {
    AlwaysOk(r, k);
    var c, n := r.states[k].c, r.states[k].nodes[x];
    assert NodeOk(c, n);
    forall i | 0 <= i < SLOTS && !n.rt[i].valid ensures n.rt[i] == EMPTY { assert SlotOk(n.rt[i]); }
    if x == c.root {
      forall d ensures First(n.rt, ByDest(d)) == Last(n.rt, ByDest(d), SLOTS) { FirstIsLast(n.rt, d); }
    }
  }

  /**
   * Whenever the timers fall silent in a run from power-on, the floods do: from state k on there can be no more
   * deliveries and losses, those of acknowledgements and unicast error reports aside, than the energy of state k.
   */
  lemma FloodsFallSilent(r: Run, k: nat, q: Run)
    requires IsRun(r) && Init(r.states[0]) && k < |r.states| && From(q, r.states[k])
    ensures r.states[k].c.ids <= r.states[k].nodes.Keys && FloodSteps(q, |q.steps|) <= Energy(r.states[k])
  {
    AlwaysOk(r, k);
    FloodsEnd(q, |q.steps|);
  }

  /** No cycle now, and none to come while the timers are silent. */
  ghost predicate Orderly(net: Net) {
    NetOk(net) && forall o {:trigger OneReply(net, o)} {:trigger LoopInv(net, o)} :: OneReply(net, o) && LoopInv(net, o)
  }

  lemma OrderlyStep(a: Net, s: Step, b: Net)
    requires Orderly(a) && Next(a, s, b) && (s.Deliver? || s.Lose?)
    ensures Orderly(b)
  {
    NextOk(a, s, b);
    forall o ensures OneReply(b, o) && LoopInv(b, o) {
      assert OneReply(a, o) && LoopInv(a, o);
      QuietOneReply(a, s, b, o);
      NextLoopInv(a, s, b, o);
    }
  }

  lemma {:induction false} OrderlyStays(q: Run, net: Net, k: nat)
    requires Orderly(net) && From(q, net) && k <= |q.steps|
    ensures Orderly(q.states[k])
  {
    if k > 0 {
      OrderlyStays(q, net, k - 1);
      OrderlyNext(q, k);
    }
  }

  lemma OrderlyNext(q: Run, k: nat)
    requires Quiet(q) && 0 < k <= |q.steps|
    ensures Orderly(q.states[k - 1]) ==> Orderly(q.states[k])
  {
    if Orderly(q.states[k - 1]) { OrderlyStep(q.states[k - 1], q.steps[k - 1], q.states[k]); }
  }

  lemma OrderlyIsFree(net: Net)
    requires Orderly(net)
    ensures !CanTrap(net)
  {
    forall r, i | From(r, net) ensures !Stuck(r.states[|r.steps|], i) {
      OrderlyStays(r, net, |r.steps|);
      forall o {:trigger Ups(r.states[|r.steps|], o)} ensures Acyclic(Ups(r.states[|r.steps|], o)) {
        assert LoopInv(r.states[|r.steps|], o);
      }
      AcyclicFrees(r.states[|r.steps|], i);
    }
  }

  lemma OrderlySoFar(r: Run, k: nat)
    requires IsRun(r) && Init(r.states[0]) && k < |r.states|
    requires forall i, s {:trigger OneReply(r.states[i], s)} :: 0 <= i <= k ==> OneReply(r.states[i], s)
    ensures Orderly(r.states[k])
  {
    AlwaysOk(r, k);
    forall s ensures OneReply(r.states[k], s) && LoopInv(r.states[k], s) { AlwaysLoopInv(r, s, k); }
  }

  /**
   * And if up to state k no two replies for one originator were in flight at a time, so does the whole mesh: from
   * state k on there can be no more deliveries and losses of any kind than the budget of state k.
   */
  lemma MeshFallsSilent(r: Run, k: nat)
    requires IsRun(r) && Init(r.states[0]) && k < |r.states|
    requires forall i, s {:trigger OneReply(r.states[i], s)} :: 0 <= i <= k ==> OneReply(r.states[i], s)
    ensures r.states[k].c.ids <= r.states[k].nodes.Keys && SilentWithin(r.states[k], Budget(r.states[k]))
  {
    OrderlySoFar(r, k);
    OrderlyIsFree(r.states[k]);
    SilenceIff(r.states[k]);
  }
}
