/**
 * What the hello-timeout check removes, expired neighbours and every route that runs through one of them and no more,
 * and what it reports about it.
 */
module HelloPurge {
  import opened Prelude
  import opened Messages
  import opened RouteTable
  import opened Handlers
  import opened NodeInvariants

  /** The neighbour of the slot has been silent for longer than the limit. */
  predicate Overdue(e: Route, now: int, limit: int) { e.helloCnt > 0 && now - e.lastHello > limit }

  predicate RunsThrough(e: Route, a: Addr) { e.next == a || e.source == a || e.prev == a }

  // ------------------------------------------------------------------ what is reported

  /** Slot j has outlived the turns of the slots before i. */
  predicate Stands(t: seq<Route>, now: int, limit: int, j: nat, i: nat)
    requires j < |t| && i <= |t|
    decreases i, 0
  {
    forall d :: 0 <= d < i ==> !(Falls(t, now, limit, d) && (j == d || RunsThrough(t[j], t[d].dest)))
  }

  /** At its own turn slot d is still there and overdue, so its neighbour is declared dead. */
  predicate Falls(t: seq<Route>, now: int, limit: int, d: nat)
    requires d < |t|
    decreases d, 1
  {
    Overdue(t[d], now, limit) && Stands(t, now, limit, d, d)
  }

  /** When slot i falls, another slot still there leads to the root by way of its neighbour. */
  predicate CutOff(n: Node, now: int, limit: int, i: nat) requires i < |n.rt| {
    exists k :: 0 <= k < |n.rt| && k != i && Stands(n.rt, now, limit, k, i)
                && n.rt[k].next == n.rt[i].dest && n.rt[k].dest == n.rootAddr
  }

  /** After slot i has fallen the node still has an uplink of its own. */
  predicate StillUp(n: Node, now: int, limit: int, i: nat) requires i < |n.rt| {
    exists k :: 0 <= k < |n.rt| && Stands(n.rt, now, limit, k, i + 1)
                && n.rt[k].valid && n.rt[k].dest == n.rootAddr && n.rt[k].source == n.me
  }

  function Says(n: Node, now: int, limit: int, i: nat): seq<Out> requires i < |n.rt| {
    var a := n.rt[i].dest;
    [Broadcast(PerrMsg(Perr(a, a)))]
    + (if CutOff(n, now, limit, i) then [Broadcast(PerrMsg(Perr(a, n.me)))] else [])
    + (if !n.isRoot && StillUp(n, now, limit, i) then [Broadcast(PerrUniMsg(a, n.me))] else [])
  }

  function Words(n: Node, now: int, limit: int, i: nat): seq<Out> requires i < |n.rt| {
    if Falls(n.rt, now, limit, i) then Says(n, now, limit, i) else []
  }

  /** What each slot's turn gives cause to say, from slot i on. */
  function Turns(n: Node, now: int, limit: int, i: nat): (w: seq<seq<Out>>)
    requires i <= |n.rt|
    ensures |w| == |n.rt| - i && forall d :: 0 <= d < |w| ==> w[d] == Words(n, now, limit, i + d)
  {
    seq(|n.rt| - i, d requires 0 <= d < |n.rt| - i => Words(n, now, limit, i + d))
  }

  function Joined(w: seq<seq<Out>>): seq<Out> { if w == [] then [] else w[0] + Joined(w[1..]) }

  lemma {:induction false} InJoined(w: seq<seq<Out>>, o: Out)
    ensures o in Joined(w) <==> exists d :: 0 <= d < |w| && o in w[d]
  {
    if w != [] {
      InJoined(w[1..], o);
      if d :| 0 <= d < |w[1..]| && o in w[1..][d] { assert o in w[d + 1]; }
    }
  }

  /** Node m is n after the turns of the slots before i. */
  ghost predicate At(n: Node, m: Node, now: int, limit: int, i: nat)
    requires i <= |n.rt|
  {
    && |n.rt| == |n.tmp| == |m.rt| == |m.tmp| && m == n.(rt := m.rt, tmp := m.tmp)
    && (forall j :: 0 <= j < |n.rt| ==> m.rt[j] == if Stands(n.rt, now, limit, j, i) then n.rt[j] else EMPTY)
    && (forall j :: 0 <= j < |n.rt| ==>
          m.tmp[j] == if Stands(n.rt, now, limit, j, i) then n.tmp[j] else Stored(false, n.tmp[j].preq))
  }

  lemma StandsMore(t: seq<Route>, now: int, limit: int, j: nat, i: nat)
    requires j < |t| && i < |t|
    ensures Stands(t, now, limit, j, i + 1) <==>
            Stands(t, now, limit, j, i) && !(Falls(t, now, limit, i) && (j == i || RunsThrough(t[j], t[i].dest)))
  {
  }

  lemma TurnReports(n: Node, m: Node, now: int, limit: int, i: nat)
    requires i < |n.rt| && At(n, m, now, limit, i) && Falls(n.rt, now, limit, i)
    requires n.rt[i].dest != 0 && At(n, Purge(m, i), now, limit, i + 1)
    ensures TimeoutOuts(m, i) == Says(n, now, limit, i)
  {
    var m' := Purge(m, i);
    assert UplinkLost(m, i) <==> CutOff(n, now, limit, i);
    assert First(m'.rt, ByKey(m'.rootAddr, m'.me)).Some? <==> StillUp(n, now, limit, i);
  }

  /** What the turn of slot i leaves of slot j. */
  lemma SlotTurn(n: Node, m: Node, now: int, limit: int, i: nat, j: nat)
    requires i < |n.rt| && j < |n.rt| && At(n, m, now, limit, i) && n.rt[i].dest != 0
    requires Falls(n.rt, now, limit, i)
    ensures var m' := Purge(m, i); var stays := Stands(n.rt, now, limit, j, i + 1);
            && m'.rt[j] == (if stays then n.rt[j] else EMPTY)
            && m'.tmp[j] == (if stays then n.tmp[j] else Stored(false, n.tmp[j].preq))
  {
    StandsMore(n.rt, now, limit, j, i);
    assert m.rt[i] == n.rt[i];
  }

  /** The turn of slot i in the table as it is then. */
  function Turned(m: Node, now: int, limit: int, i: nat): (r: (Node, seq<Out>))
    requires |m.rt| == |m.tmp| && i < |m.rt|
    ensures |r.0.rt| == |r.0.tmp| == |m.rt|
  {
    if Expired(m.rt[i], now, limit) then (Purge(m, i), TimeoutOuts(m, i)) else (m, [])
  }

  lemma OneTurn(n: Node, m: Node, now: int, limit: int, i: nat)
    requires i < |n.rt| && At(n, m, now, limit, i) && SlotOk(n.rt[i])
    ensures At(n, Turned(m, now, limit, i).0, now, limit, i + 1)
    ensures Turned(m, now, limit, i).1 == Words(n, now, limit, i)
  {
    if Falls(n.rt, now, limit, i) {
      Fallen(n, m, now, limit, i);
    } else {
      forall j: nat | j < |n.rt| ensures Stands(n.rt, now, limit, j, i + 1) <==> Stands(n.rt, now, limit, j, i) {
        StandsMore(n.rt, now, limit, j, i);
      }
    }
  }

  lemma Fallen(n: Node, m: Node, now: int, limit: int, i: nat)
    requires i < |n.rt| && At(n, m, now, limit, i) && n.rt[i].dest != 0 && Falls(n.rt, now, limit, i)
    ensures At(n, Purge(m, i), now, limit, i + 1) && TimeoutOuts(m, i) == Says(n, now, limit, i)
  {
    var m' := Purge(m, i);
    forall j: nat | j < |n.rt|
      ensures m'.rt[j] == if Stands(n.rt, now, limit, j, i + 1) then n.rt[j] else EMPTY
      ensures m'.tmp[j] == if Stands(n.rt, now, limit, j, i + 1) then n.tmp[j] else Stored(false, n.tmp[j].preq)
    {
      SlotTurn(n, m, now, limit, i, j);
    }
    TurnReports(n, m, now, limit, i);
  }

  /** The node after the turns of the slots before i. */
  function Progress(n: Node, now: int, limit: int, i: nat): (m: Node)
    requires |n.rt| == |n.tmp| && i <= |n.rt|
    ensures |m.rt| == |m.tmp| == |n.rt|
  {
    if i == 0 then n else Turned(Progress(n, now, limit, i - 1), now, limit, i - 1).0
  }

  /** The nodes of the check, turn by turn. */
  function Nodes(n: Node, now: int, limit: int): (ms: seq<Node>)
    requires |n.rt| == |n.tmp|
    ensures |ms| == |n.rt| + 1 && ms[0] == n && forall k :: 0 <= k < |n.rt| ==> Goes(ms, now, limit, k)
  {
    seq(|n.rt| + 1, i requires 0 <= i <= |n.rt| => Progress(n, now, limit, i))
  }

  /** The turn of slot k leads from one node to the next. */
  ghost predicate Goes(ms: seq<Node>, now: int, limit: int, k: nat) {
    && k + 1 < |ms| && |ms[k].rt| == |ms[k].tmp| == |ms| - 1 && |ms[k + 1].rt| == |ms[k + 1].tmp| == |ms| - 1
    && ms[k + 1] == Turned(ms[k], now, limit, k).0
  }

  lemma AtNext(n: Node, m: Node, m': Node, now: int, limit: int, i: nat)
    requires i < |n.rt| && |m.rt| == |m.tmp| == |n.rt| && SlotOk(n.rt[i]) && m' == Turned(m, now, limit, i).0
    ensures At(n, m, now, limit, i) ==> At(n, m', now, limit, i + 1)
  {
    if At(n, m, now, limit, i) { OneTurn(n, m, now, limit, i); }
  }

  lemma {:induction false} AllTrue(v: seq<bool>, i: nat)
    requires i < |v| && v[0] && forall k :: 0 < k < |v| && v[k - 1] ==> v[k]
    ensures v[i]
  {
    if i > 0 { AllTrue(v, i - 1); }
  }

  /** For each node of the check, whether it is n after the turns made so far. */
  ghost function InTurn(n: Node, ms: seq<Node>, now: int, limit: int): (v: seq<bool>)
    requires |ms| == |n.rt| + 1
    ensures |v| == |ms| && forall k :: 0 <= k < |ms| ==> v[k] == At(n, ms[k], now, limit, k)
  {
    seq(|ms|, k requires 0 <= k < |ms| => At(n, ms[k], now, limit, k))
  }

  lemma NextInTurn(n: Node, ms: seq<Node>, now: int, limit: int, k: nat)
    requires 0 < k < |ms| == |n.rt| + 1 && SlotOk(n.rt[k - 1]) && Goes(ms, now, limit, k - 1)
    ensures var v := InTurn(n, ms, now, limit); v[k - 1] ==> v[k]
  {
    AtNext(n, ms[k - 1], ms[k], now, limit, k - 1);
  }

  lemma NodesAt(n: Node, ms: seq<Node>, now: int, limit: int, i: nat)
    requires i < |ms| == |n.rt| + 1 && |n.tmp| == |n.rt| && ms[0] == n
    requires forall j :: 0 <= j < |n.rt| ==> SlotOk(n.rt[j])
    requires forall k :: 0 <= k < |n.rt| ==> Goes(ms, now, limit, k)
    ensures InTurn(n, ms, now, limit)[i]
  {
    var v := InTurn(n, ms, now, limit);
    forall k | 0 < k < |v| && v[k - 1] ensures v[k] { NextInTurn(n, ms, now, limit, k); }
    AllTrue(v, i);
  }

  lemma TurnTaken(m: Node, now: int, limit: int, i: nat)
    requires |m.rt| == |m.tmp| && i < |m.rt|
    ensures var (m1, o) := Turned(m, now, limit, i); var r := HelloTimeout(m1, now, limit, i + 1);
            HelloTimeout(m, now, limit, i) == (r.0, o + r.1)
  {
  }

  /** The check said in full is its turns said one after the other. */
  lemma {:induction false} TimeoutFrom(ms: seq<Node>, w: seq<seq<Out>>, now: int, limit: int, i: nat)
    requires |ms| == |w| + 1 && i <= |w| && |ms[i].rt| == |ms[i].tmp| == |w|
    requires forall k :: 0 <= k < |w| ==> Goes(ms, now, limit, k) && w[k] == Turned(ms[k], now, limit, k).1
    ensures HelloTimeout(ms[i], now, limit, i) == (ms[|w|], Joined(w[i..]))
    decreases |w| - i
  {
    if i < |w| {
      assert Goes(ms, now, limit, i);
      var r := HelloTimeout(ms[i + 1], now, limit, i + 1);
      calc {
        HelloTimeout(ms[i], now, limit, i);
        == { TurnTaken(ms[i], now, limit, i); }
        (r.0, w[i] + r.1);
        == { TimeoutFrom(ms, w, now, limit, i + 1); }
        (ms[|w|], w[i] + Joined(w[i + 1..]));
        == { assert w[i..][0] == w[i] && w[i..][1..] == w[i + 1..]; }
        (ms[|w|], Joined(w[i..]));
      }
    }
  }

  /**
   * The check goes through a table it changes on the way; in terms of the table it began with, it blanks exactly the
   * slots that do not outlive all turns, and says exactly what each slot that falls gives cause to say, in order.
   */
  lemma TimeoutEffect(n: Node, now: int, limit: int)
    requires |n.rt| == |n.tmp| && forall j :: 0 <= j < |n.rt| ==> SlotOk(n.rt[j])
    ensures var (n', outs) := HelloTimeout(n, now, limit);
            At(n, n', now, limit, |n.rt|) && outs == Joined(Turns(n, now, limit, 0))
  {
    var ms, w := Nodes(n, now, limit), Turns(n, now, limit, 0);
    forall k | 0 <= k < |w| ensures Goes(ms, now, limit, k) && w[k] == Turned(ms[k], now, limit, k).1 {
      NodesAt(n, ms, now, limit, k);
      OneTurn(n, ms[k], now, limit, k);
    }
    TimeoutFrom(ms, w, now, limit, 0);
    NodesAt(n, ms, now, limit, |n.rt|);
    assert w[0..] == w;
  }

  lemma InSays(n: Node, now: int, limit: int, i: nat, a: Addr, b: Addr)
    requires i < |n.rt|
    ensures Broadcast(PerrMsg(Perr(a, b))) in Says(n, now, limit, i) <==>
            n.rt[i].dest == a && (b == a || (b == n.me && CutOff(n, now, limit, i)))
    ensures Broadcast(PerrUniMsg(a, b)) in Says(n, now, limit, i) <==>
            n.rt[i].dest == a && b == n.me && !n.isRoot && StillUp(n, now, limit, i)
  {
    var d := n.rt[i].dest;
    var o1, o2, o3 := Broadcast(PerrMsg(Perr(d, d))), Broadcast(PerrMsg(Perr(d, n.me))), Broadcast(PerrUniMsg(d, n.me));
    forall o ensures o in Says(n, now, limit, i) <==>
                     o == o1 || (o == o2 && CutOff(n, now, limit, i))
                     || (o == o3 && !n.isRoot && StillUp(n, now, limit, i)) {
    }
  }

  /**
   * Main theorem on reports. The node reports b to have lost a exactly if a slot of a falls and b is a itself, or b is
   * the node and some other route to the root went through a then; it tells the root exactly if a slot of a falls and
   * an uplink of its own is still there.
   */
  lemma ReportedIff(n: Node, now: int, limit: int, a: Addr, b: Addr)
    requires |n.rt| == |n.tmp| && forall j :: 0 <= j < |n.rt| ==> SlotOk(n.rt[j])
    ensures Broadcast(PerrMsg(Perr(a, b))) in HelloTimeout(n, now, limit).1 <==>
            exists i :: 0 <= i < |n.rt| && Falls(n.rt, now, limit, i) && n.rt[i].dest == a
                        && (b == a || (b == n.me && CutOff(n, now, limit, i)))
    ensures Broadcast(PerrUniMsg(a, b)) in HelloTimeout(n, now, limit).1 <==>
            b == n.me && !n.isRoot &&
            exists i :: 0 <= i < |n.rt| && Falls(n.rt, now, limit, i) && n.rt[i].dest == a && StillUp(n, now, limit, i)
  {
    TimeoutEffect(n, now, limit);
    InJoined(Turns(n, now, limit, 0), Broadcast(PerrMsg(Perr(a, b))));
    InJoined(Turns(n, now, limit, 0), Broadcast(PerrUniMsg(a, b)));
    forall i: nat | i < |n.rt|
      ensures Broadcast(PerrMsg(Perr(a, b))) in Turns(n, now, limit, 0)[i] <==>
              Falls(n.rt, now, limit, i) && n.rt[i].dest == a && (b == a || (b == n.me && CutOff(n, now, limit, i)))
      ensures Broadcast(PerrUniMsg(a, b)) in Turns(n, now, limit, 0)[i] <==>
              Falls(n.rt, now, limit, i) && n.rt[i].dest == a && b == n.me && !n.isRoot && StillUp(n, now, limit, i)
    {
      InSays(n, now, limit, i, a, b);
    }
  }

  // ------------------------------------------------------------------ what is left

  /** The check has declared a dead: it reports a as its own destination. */
  ghost predicate Declared(outs: seq<Out>, a: Addr) { Broadcast(PerrMsg(Perr(a, a))) in outs }

  /** A route goes because its own neighbour fell silent or because it runs through a node declared dead. */
  ghost predicate Condemned(e: Route, now: int, limit: int, outs: seq<Out>) {
    Overdue(e, now, limit) || exists a :: Declared(outs, a) && RunsThrough(e, a)
  }

  lemma DeclaredIff(n: Node, now: int, limit: int, a: Addr)
    requires |n.rt| == |n.tmp| && forall j :: 0 <= j < |n.rt| ==> SlotOk(n.rt[j])
    ensures Declared(HelloTimeout(n, now, limit).1, a) <==>
            exists i :: 0 <= i < |n.rt| && Falls(n.rt, now, limit, i) && n.rt[i].dest == a
  {
    ReportedIff(n, now, limit, a, a);
  }

  lemma StandsIff(n: Node, now: int, limit: int, j: nat)
    requires |n.rt| == |n.tmp| && (forall j :: 0 <= j < |n.rt| ==> SlotOk(n.rt[j])) && j < |n.rt|
    ensures Stands(n.rt, now, limit, j, |n.rt|) <==> !Condemned(n.rt[j], now, limit, HelloTimeout(n, now, limit).1)
  {
    var t, outs := n.rt, HelloTimeout(n, now, limit).1;
    forall a ensures Declared(outs, a) <==> exists i :: 0 <= i < |t| && Falls(t, now, limit, i) && t[i].dest == a {
      DeclaredIff(n, now, limit, a);
    }
    if !Stands(t, now, limit, j, |t|) {
      var d :| 0 <= d < |t| && Falls(t, now, limit, d) && (j == d || RunsThrough(t[j], t[d].dest));
      assert Declared(outs, t[d].dest);
    } else if Overdue(t[j], now, limit) {
      assert Falls(t, now, limit, j);
    }
  }

  /**
   * Main theorem: after the check no slot names a node declared dead or is itself overdue; every slot that was blanked
   * was overdue or named such a node; all other slots are as before; and every node declared dead was overdue.
   */
  lemma PurgeExact(n: Node, now: int, limit: int)
    requires |n.rt| == |n.tmp| && forall j :: 0 <= j < |n.rt| ==> SlotOk(n.rt[j])
    ensures var (n', outs) := HelloTimeout(n, now, limit);
            && |n'.rt| == |n.rt|
            && (forall j :: 0 <= j < |n.rt| ==>
                  n'.rt[j] == if Condemned(n.rt[j], now, limit, outs) then EMPTY else n.rt[j])
            && (forall j, a :: 0 <= j < |n.rt| && Declared(outs, a) ==> !RunsThrough(n'.rt[j], a))
            && (forall j :: 0 <= j < |n.rt| ==> !Overdue(n'.rt[j], now, limit))
            && (forall a :: Declared(outs, a) ==>
                  exists j :: 0 <= j < |n.rt| && Overdue(n.rt[j], now, limit) && n.rt[j].dest == a)
  {
    TimeoutEffect(n, now, limit);
    forall j: nat | j < |n.rt|
      ensures Stands(n.rt, now, limit, j, |n.rt|) <==> !Condemned(n.rt[j], now, limit, HelloTimeout(n, now, limit).1)
    {
      StandsIff(n, now, limit, j);
    }
    forall a | Declared(HelloTimeout(n, now, limit).1, a)
      ensures a != 0 && exists j :: 0 <= j < |n.rt| && Overdue(n.rt[j], now, limit) && n.rt[j].dest == a
    {
      DeclaredIff(n, now, limit, a);
      var i :| 0 <= i < |n.rt| && Falls(n.rt, now, limit, i) && n.rt[i].dest == a;
      assert Overdue(n.rt[i], now, limit) && SlotOk(n.rt[i]);
    }
  }
}
