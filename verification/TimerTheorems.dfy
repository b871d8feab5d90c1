/**
 * What the timer queue guarantees although its comparison is not transitive and its handlers change it while it drains.
 */
module TimerTheorems {
  import opened Prelude
  import opened TimerSpec

  // ------------------------------------------------------------------ sequences without repeats

  lemma {:induction false} MinusDistinct<T>(s: seq<T>, t: T)
    requires Distinct(s)
    ensures Distinct(Minus(s, t))
  {
    if s != [] {
      MinusDistinct(s[1..], t);
      MinusKnown(s[1..], t, map[]);
    }
  }

  lemma DistinctJoin<T>(a: seq<T>, b: seq<T>)
    requires Distinct(a) && Distinct(b) && forall i, j :: 0 <= i < |a| && 0 <= j < |b| ==> a[i] != b[j]
    ensures Distinct(a + b)
  {
  }

  lemma DistinctParts<T>(a: seq<T>, b: seq<T>)
    requires Distinct(a + b)
    ensures Distinct(a) && Distinct(b) && forall i, j :: 0 <= i < |a| && 0 <= j < |b| ==> a[i] != b[j]
  {
    forall i, j | 0 <= i < j < |a| ensures a[i] != a[j] { assert (a + b)[i] == a[i] && (a + b)[j] == a[j]; }
    forall i, j | 0 <= i < j < |b| ensures b[i] != b[j] {
      assert (a + b)[|a| + i] == b[i] && (a + b)[|a| + j] == b[j];
    }
    forall i, j | 0 <= i < |a| && 0 <= j < |b| ensures a[i] != b[j] {
      assert (a + b)[i] == a[i] && (a + b)[|a| + j] == b[j];
    }
  }

  // ------------------------------------------------------------------ the order is kept

  lemma RemoveOk<T>(s: Queue<T>, t: T)
    requires QueueOk(s)
    ensures QueueOk(Remove(s, t)) && t !in Remove(s, t).q && t !in Remove(s, t).w
  {
    DistinctParts(s.q, s.w);
    MinusKnown(s.q, t, s.due);
    MinusKnown(s.w, t, s.due);
    MinusDistinct(s.q, t);
    MinusDistinct(s.w, t);
    DistinctJoin(Minus(s.q, t), Minus(s.w, t));
    MinusOrdered(s.q, t, s.due);
  }

  lemma OrderedCons<T>(x: T, s: seq<T>, due: map<T, int>)
    requires Ordered(s, due) && forall i :: 0 <= i < |s| && x in due && s[i] in due ==> due[x] < due[s[i]] + 1000
    ensures Ordered([x] + s, due)
  {
  }

  lemma {:induction false} MinusOrdered<T>(s: seq<T>, t: T, due: map<T, int>)
    requires Ordered(s, due)
    ensures Ordered(Minus(s, t), due)
  {
    if s != [] {
      var m := Minus(s[1..], t);
      MinusOrdered(s[1..], t, due);
      MinusKnown(s[1..], t, due);
      forall i | 0 <= i < |m| && s[0] in due && m[i] in due ensures due[s[0]] < due[m[i]] + 1000 {
        var j :| 0 <= j < |s[1..]| && s[1..][j] == m[i];
        assert s[j + 1] == m[i];
      }
      OrderedCons(s[0], m, due);
    }
  }

  /**
   * Placing a timer: those before it are not a millisecond later, the next is a millisecond later, so all the rest are
   * later.
   */
  lemma PlaceOrdered<T>(q: seq<T>, t: T, due: map<T, int>)
    requires Ordered(q, due) && t in due && forall i :: 0 <= i < |q| ==> q[i] in due
    ensures var p := Place(q, due, due[t]); Ordered(q[..p] + [t] + q[p..], due)
  {
    var p := Place(q, due, due[t]);
    forall i | p <= i < |q| ensures due[t] < due[q[i]] + 1000 {
      if p < i { assert due[q[p]] < due[q[i]] + 1000; }
    }
    InsertOrdered(q, t, p, due);
  }

  lemma InsertOrdered<T>(q: seq<T>, t: T, p: nat, due: map<T, int>)
    requires Ordered(q, due) && t in due && p <= |q| && forall i :: 0 <= i < |q| ==> q[i] in due
    requires forall i :: 0 <= i < p ==> due[q[i]] < due[t] + 1000
    requires forall i :: p <= i < |q| ==> due[t] < due[q[i]] + 1000
    ensures Ordered(q[..p] + [t] + q[p..], due)
  {
    var n := q[..p] + [t] + q[p..];
    forall i, j | 0 <= i < j < |n| ensures due[n[i]] < due[n[j]] + 1000 {
      assert n[i] == if i < p then q[i] else if i == p then t else q[i - 1];
      assert n[j] == if j < p then q[j] else if j == p then t else q[j - 1];
    }
  }

  lemma PlacedDistinct<T>(a: seq<T>, b: seq<T>, t: T, p: nat)
    requires Distinct(a + b) && t !in a && t !in b && p <= |a|
    ensures Distinct(a[..p] + [t] + a[p..] + b)
  {
    DistinctParts(a, b);
    assert a == a[..p] + a[p..];
    DistinctParts(a[..p], a[p..]);
    DistinctJoin(a[..p], [t]);
    DistinctJoin(a[..p] + [t], a[p..]);
    DistinctJoin(a[..p] + [t] + a[p..], b);
  }

  lemma AddOk<T>(s: Queue<T>, t: T)
    requires QueueOk(s) && t in s.due
    ensures QueueOk(Add(s, t))
  {
    var r := Remove(s, t);
    RemoveOk(s, t);
    PlaceOrdered(r.q, t, r.due);
    var p := Place(r.q, r.due, r.due[t]);
    PlacedDistinct(r.q, r.w, t, p);
  }

  /** Setting a timer first unlinks it, so its old place cannot be contradicted by its new time. */
  lemma SetOk<T>(s: Queue<T>, t: T, now: int, msec: int)
    requires QueueOk(s) && t in s.due
    ensures QueueOk(SetTimeout(s, t, now, msec))
  {
    var due := s.due[t := now + msec * 1000];
    var r := Remove(s, t);
    RemoveOk(s, t);
    var r1 := r.(due := due);
    assert Ordered(r1.q, due);
    AddOk(r1, t);
    MinusKnown(s.q, t, due);
    MinusAbsent(r.q, t);
    MinusAbsent(r.w, t);
  }

  lemma DoOk<T>(s: Queue<T>, op: Op<T>)
    requires QueueOk(s)
    ensures QueueOk(Do(s, op))
  {
    if op.t in s.due {
      match op
      case DoAdd(t) => AddOk(s, t);
      case DoRemove(t) => RemoveOk(s, t);
      case DoSet(t, now, msec) => SetOk(s, t, now, msec);
      case DoInit(t) =>
    }
  }

  /** Main theorem on order: whatever is done to the queue, no timer ever stands a full millisecond before its time. */
  lemma {:induction false} AlwaysOrdered<T>(s: Queue<T>, ops: seq<Op<T>>)
    requires QueueOk(s)
    ensures QueueOk(DoAll(s, ops))
    decreases |ops|
  {
    if ops != [] {
      DoOk(s, ops[0]);
      AlwaysOrdered(Do(s, ops[0]), ops[1..]);
    }
  }

  ghost predicate Sorted<T>(q: seq<T>, due: map<T, int>) {
    forall i, j :: 0 <= i < j < |q| && q[i] in due && q[j] in due ==> due[q[i]] <= due[q[j]]
  }

  /** Another timer waits in the queue that is due after d, by less than a millisecond. */
  ghost predicate Crowded<T>(q: seq<T>, due: map<T, int>, t: T, d: int) {
    exists i :: 0 <= i < |q| && q[i] in due && q[i] != t && d < due[q[i]] < d + 1000
  }

  /** Sortedness itself is lost by two insertions: timer 1, due 999 microseconds before timer 0, is put behind it. */
  lemma NotSorted()
    ensures var s := DoAll(Queue([], [], map[0 := 0, 1 := 0]), [DoSet(0, 5000, 0), DoSet(1, 4001, 0)]);
            s.q == [0, 1] && s.due[s.q[0]] == s.due[s.q[1]] + 999 && !Sorted(s.q, s.due)
  {
    var s0: Queue<int> := Queue([], [], map[0 := 0, 1 := 0]);
    var s1 := SetTimeout(s0, 0, 5000, 0);
    assert s1.q == [0] by { assert Remove(s0, 0).q == []; }
    var s2 := SetTimeout(s1, 1, 4001, 0);
    var r := Remove(s1.(due := s1.due[1 := 4001]), 1);
    assert r.q == [0] by { assert [0][1..] == []; }
    assert Place([0], s2.due, 4001) == 1 by {
      assert [0][1..] == [];
      assert Place<int>([], s2.due, 4001) == 0;
    }
    assert s2.q == [0, 1];
    var ops: seq<Op<int>> := [DoSet(0, 5000, 0), DoSet(1, 4001, 0)];
    assert Do(s0, ops[0]) == s1 && Do(s1, ops[1]) == s2;
    assert ops[1..] == [ops[1]] && ops[1..][1..] == [];
    assert DoAll(s0, ops) == DoAll(s1, ops[1..]) == DoAll(s2, ops[1..][1..]) == s2;
  }

  lemma SortedCons<T>(x: T, s: seq<T>, due: map<T, int>)
    requires Sorted(s, due) && forall i :: 0 <= i < |s| && x in due && s[i] in due ==> due[x] <= due[s[i]]
    ensures Sorted([x] + s, due)
  {
  }

  lemma {:induction false} MinusSorted<T>(s: seq<T>, t: T, due: map<T, int>)
    requires Sorted(s, due)
    ensures Sorted(Minus(s, t), due)
  {
    if s != [] {
      var m := Minus(s[1..], t);
      MinusSorted(s[1..], t, due);
      MinusKnown(s[1..], t, due);
      forall i | 0 <= i < |m| && s[0] in due && m[i] in due ensures due[s[0]] <= due[m[i]] {
        var j :| 0 <= j < |s[1..]| && s[1..][j] == m[i];
        assert s[j + 1] == m[i];
      }
      SortedCons(s[0], m, due);
    }
  }

  lemma InsertSorted<T>(q: seq<T>, t: T, p: nat, due: map<T, int>)
    requires Sorted(q, due) && t in due && p <= |q| && forall i :: 0 <= i < |q| ==> q[i] in due
    requires forall i :: 0 <= i < p ==> due[q[i]] <= due[t]
    requires forall i :: p <= i < |q| ==> due[t] <= due[q[i]]
    ensures Sorted(q[..p] + [t] + q[p..], due)
  {
    var n := q[..p] + [t] + q[p..];
    forall i, j | 0 <= i < j < |n| ensures due[n[i]] <= due[n[j]] {
      assert n[i] == if i < p then q[i] else if i == p then t else q[i - 1];
      assert n[j] == if j < p then q[j] else if j == p then t else q[j - 1];
    }
  }

  lemma PlaceCrowded<T>(q: seq<T>, t: T, due: map<T, int>, i: nat)
    requires Sorted(q, due) && t in due && i < |q| && forall i :: 0 <= i < |q| ==> q[i] in due
    requires due[t] < due[q[i]] < due[t] + 1000
    ensures var p := Place(q, due, due[t]); !Sorted(q[..p] + [t] + q[p..], due)
  {
    var p := Place(q, due, due[t]);
    var n := q[..p] + [t] + q[p..];
    assert i < p;
    assert n[i] == q[i] && n[p] == t;
  }

  /** Inserting into a sorted queue keeps it sorted exactly if the place chosen has nothing later in front of it. */
  lemma PlaceSortedIff<T>(q: seq<T>, t: T, due: map<T, int>)
    requires Sorted(q, due) && t in due && t !in q && forall i :: 0 <= i < |q| ==> q[i] in due
    ensures var p := Place(q, due, due[t]); Sorted(q[..p] + [t] + q[p..], due) <==> !Crowded(q, due, t, due[t])
  {
    var p := Place(q, due, due[t]);
    if i :| 0 <= i < |q| && due[t] < due[q[i]] < due[t] + 1000 {
      assert q[i] in q;
      PlaceCrowded(q, t, due, i);
    } else {
      forall i | p <= i < |q| ensures due[t] <= due[q[i]] {
        if p < i { assert due[q[p]] <= due[q[i]]; }
      }
      InsertSorted(q, t, p, due);
    }
  }

  /** Taking out t changes nothing about who crowds it. */
  lemma CrowdedMinus<T>(q: seq<T>, due: map<T, int>, t: T, d: int)
    ensures Crowded(Minus(q, t), due, t, d) <==> Crowded(q, due, t, d)
  {
    MinusKnown(q, t, due);
    if Crowded(q, due, t, d) {
      var i :| 0 <= i < |q| && q[i] in due && q[i] != t && d < due[q[i]] < d + 1000;
      var j :| 0 <= j < |Minus(q, t)| && Minus(q, t)[j] == q[i];
    }
    if Crowded(Minus(q, t), due, t, d) {
      var i :| 0 <= i < |Minus(q, t)| && Minus(q, t)[i] in due && Minus(q, t)[i] != t
        && d < due[Minus(q, t)[i]] < d + 1000;
      var j :| 0 <= j < |q| && q[j] == Minus(q, t)[i];
    }
  }

  lemma AddSortedIff<T>(s: Queue<T>, t: T)
    requires Known(s) && t in s.due && Sorted(Minus(s.q, t), s.due)
    ensures Sorted(Add(s, t).q, s.due) <==> !Crowded(s.q, s.due, t, s.due[t])
  {
    var r := Remove(s, t);
    MinusKnown(s.q, t, s.due);
    PlaceSortedIff(r.q, t, s.due);
    CrowdedMinus(s.q, s.due, t, s.due[t]);
  }

  /** A new time for t itself changes neither the order of the others nor who crowds t. */
  lemma OthersOnly<T>(q: seq<T>, due: map<T, int>, t: T, d: int)
    ensures Crowded(q, due[t := d], t, d) <==> Crowded(q, due, t, d)
    ensures t !in q && Sorted(q, due) ==> Sorted(q, due[t := d])
  {
    if i :| 0 <= i < |q| && q[i] in due && q[i] != t && d < due[q[i]] < d + 1000 {
      assert due[t := d][q[i]] == due[q[i]];
    }
  }

  lemma OthersSorted<T>(s: Queue<T>, t: T, d: int)
    requires Known(s) && t in s.due && Sorted(Minus(s.q, t), s.due)
    ensures var s1 := s.(due := s.due[t := d]); Known(s1) && Sorted(Minus(s1.q, t), s1.due)
  {
    MinusKnown(s.q, t, s.due);
    OthersOnly(Minus(s.q, t), s.due, t, d);
  }

  lemma SetSortedIff<T>(s: Queue<T>, t: T, now: int, msec: int)
    requires Known(s) && t in s.due && Sorted(Minus(s.q, t), s.due)
    ensures var r := SetTimeout(s, t, now, msec);
            Sorted(r.q, r.due) <==> !Crowded(s.q, s.due, t, now + msec * 1000)
  {
    var d := now + msec * 1000;
    var s1, r := s.(due := s.due[t := d]), SetTimeout(s, t, now, msec);
    calc {
      Sorted(r.q, r.due);
      == { assert r == Add(s1, t) && r.due == s1.due; }
      Sorted(Add(s1, t).q, s1.due);
      == { OthersSorted(s, t, d); AddSortedIff(s1, t); }
      !Crowded(s.q, s1.due, t, d);
      == { OthersOnly(s.q, s.due, t, d); }
      !Crowded(s.q, s.due, t, d);
    }
  }

  /** The operation links a timer where one that is less than a millisecond later waits already. */
  ghost predicate Crowds<T>(s: Queue<T>, op: Op<T>) {
    op.t in s.due && match op
      case DoAdd(t) => Crowded(s.q, s.due, t, s.due[t])
      case DoSet(t, now, msec) => Crowded(s.q, s.due, t, now + msec * 1000)
      case _ => false
  }

  /**
   * Exactly which operation loses the order: from a sorted queue every operation leads to a sorted queue, unless it
   * links a timer while another one waits that is due later than it by less than a millisecond.
   */
  lemma DoSortedIff<T>(s: Queue<T>, op: Op<T>)
    requires Known(s) && Sorted(s.q, s.due)
    ensures Sorted(Do(s, op).q, Do(s, op).due) <==> !Crowds(s, op)
  {
    if op.t in s.due {
      MinusSorted(s.q, op.t, s.due);
      match op
      case DoAdd(t) => AddSortedIff(s, t);
      case DoRemove(t) => RemoveSorted(s, t);
      case DoSet(t, now, msec) => SetSortedIff(s, t, now, msec);
      case DoInit(t) => InitSorted(s, t);
    }
  }

  lemma RemoveSorted<T>(s: Queue<T>, t: T)
    requires Known(s) && Sorted(Minus(s.q, t), s.due) && t in s.due
    ensures Sorted(Do(s, DoRemove(t)).q, Do(s, DoRemove(t)).due)
  {
  }

  lemma InitSorted<T>(s: Queue<T>, t: T)
    requires Known(s) && Sorted(s.q, s.due) && t in s.due
    ensures Sorted(Do(s, DoInit(t)).q, Do(s, DoInit(t)).due)
  {
    OthersOnly(s.q, s.due, t, 0);
  }

  lemma DoAllFirst<T>(s: Queue<T>, ops: seq<Op<T>>, k: nat)
    requires Known(s) && k < |ops| - 1
    ensures DoAll(s, ops[..k + 1]) == DoAll(Do(s, ops[0]), ops[1..][..k]) && ops[k + 1] == ops[1..][k]
  {
    assert ops[..k + 1][1..] == ops[1..][..k];
  }

  /** So the queue stays sorted as long as no operation crowds. */
  lemma {:induction false} SortedWhileSpaced<T>(s: Queue<T>, ops: seq<Op<T>>)
    requires QueueOk(s) && Sorted(s.q, s.due)
    requires forall k :: 0 <= k < |ops| ==> !Crowds(DoAll(s, ops[..k]), ops[k])
    ensures Sorted(DoAll(s, ops).q, DoAll(s, ops).due)
    decreases |ops|
  {
    if ops != [] {
      assert ops[..0] == [];
      DoOk(s, ops[0]);
      DoSortedIff(s, ops[0]);
      forall k | 0 <= k < |ops[1..]| ensures !Crowds(DoAll(Do(s, ops[0]), ops[1..][..k]), ops[1..][k]) {
        DoAllFirst(s, ops, k);
      }
      SortedWhileSpaced(Do(s, ops[0]), ops[1..]);
    }
  }

  // ------------------------------------------------------------------ expiry

  lemma CollectOk<T>(s: Queue<T>, now: int)
    requires QueueOk(s) && s.w == []
    ensures QueueOk(Collect(s, now)) && Collect(s, now).w + Collect(s, now).q == s.q && Collect(s, now).due == s.due
  {
    var n := DueCount(s.q, s.due, now);
    DistinctParts(s.q, s.w);
    Parted(s.q, n, s.due);
    assert s.w + s.q[..n] == s.q[..n];
  }

  lemma Parted<T>(q: seq<T>, n: nat, due: map<T, int>)
    requires n <= |q| && Distinct(q) && Ordered(q, due)
    ensures q[..n] + q[n..] == q && Distinct(q[n..] + q[..n]) && Ordered(q[n..], due)
  {
    assert q[..n] + q[n..] == q;
    DistinctSwap(q[..n], q[n..]);
  }

  lemma DistinctSwap<T>(a: seq<T>, b: seq<T>)
    requires Distinct(a + b)
    ensures Distinct(b + a)
  {
    DistinctParts(a, b);
    DistinctJoin(b, a);
  }

  /** Behind the first timer that is a millisecond away, every timer is still to come. */
  lemma LaterStay<T>(q: seq<T>, due: map<T, int>, now: int)
    requires (forall i :: 0 <= i < |q| ==> q[i] in due) && Ordered(q, due)
    ensures forall i :: DueCount(q, due, now) <= i < |q| ==> due[q[i]] > now
  {
    var n := DueCount(q, due, now);
    forall i | n <= i < |q| ensures due[q[i]] > now {
      if n < i { assert due[q[n]] < due[q[i]] + 1000; }
    }
  }

  /**
   * Main theorem on expiry: what is collected is due less than a millisecond from now, what stays is due strictly
   * later than now; so nothing overdue is missed and nothing is taken a full millisecond early.
   */
  lemma CollectExact<T>(s: Queue<T>, now: int)
    requires QueueOk(s) && s.w == []
    ensures var r := Collect(s, now);
            && QueueOk(r) && r.w + r.q == s.q && r.due == s.due
            && (forall i :: 0 <= i < |r.w| ==> r.due[r.w[i]] < now + 1000)
            && (forall i :: 0 <= i < |r.q| ==> r.due[r.q[i]] > now)
            && (forall i :: 0 <= i < |s.q| && s.due[s.q[i]] <= now ==> i < |r.w| && s.q[i] == r.w[i])
  {
    CollectOk(s, now);
    LaterStay(s.q, s.due, now);
    var n, r := DueCount(s.q, s.due, now), Collect(s, now);
    forall i | 0 <= i < |r.w| ensures r.due[r.w[i]] < now + 1000 { assert r.w[i] == s.q[i]; }
    forall i | 0 <= i < |r.q| ensures r.due[r.q[i]] > now { assert r.q[i] == s.q[n + i]; }
  }

  // ------------------------------------------------------------------ draining

  /** A handler takes t out of the lists, or moves it. */
  ghost predicate Touches<T>(s: Queue<T>, ops: seq<Op<T>>, t: T) {
    t in s.due && exists i :: 0 <= i < |ops| && ops[i].t == t && !ops[i].DoInit?
  }

  lemma MinusOthers<T>(s: seq<T>, t: T, x: T)
    requires x != t
    ensures x in Minus(s, t) <==> x in s
  {
    MinusKnown(s, t, map[]);
  }

  /** The timers still waiting after a handler are those it did not touch, in the same order. */
  lemma {:induction false} HandlerKeeps<T>(s: Queue<T>, ops: seq<Op<T>>, x: T)
    requires Known(s)
    ensures x in DoAll(s, ops).w <==> x in s.w && !Touches(s, ops, x)
    decreases |ops|
  {
    if ops != [] {
      var s1 := Do(s, ops[0]);
      HandlerKeeps(s1, ops[1..], x);
      MinusKnown(s.w, ops[0].t, s.due);
      if ops[0].t != x { MinusOthers(s.w, ops[0].t, x); }
      assert Touches(s, ops, x) <==> (x in s.due && ops[0].t == x && !ops[0].DoInit?) || Touches(s1, ops[1..], x) by {
        if Touches(s1, ops[1..], x) {
          var i :| 0 <= i < |ops[1..]| && ops[1..][i].t == x && !ops[1..][i].DoInit?;
          assert ops[i + 1] == ops[1..][i];
        }
        if Touches(s, ops, x) {
          var i :| 0 <= i < |ops| && ops[i].t == x && !ops[i].DoInit?;
          if i > 0 { assert ops[1..][i - 1] == ops[i]; }
        }
      }
      if x in s.w { assert x in s.due; }
    }
  }

  /** No handler between the k-th and the m-th touched t. */
  ghost predicate Spared<T>(s: Queue<T>, scripts: seq<seq<Op<T>>>, k: nat, m: nat, t: T) {
    forall i :: k <= i < m ==> !Touches(s, ScriptAt(scripts, i), t)
  }

  lemma SparedMore<T>(s: Queue<T>, s1: Queue<T>, scripts: seq<seq<Op<T>>>, k: nat, m: nat, t: T)
    requires s1.due.Keys == s.due.Keys && k < m
    ensures Spared(s, scripts, k, m, t) <==> !Touches(s, ScriptAt(scripts, k), t) && Spared(s1, scripts, k + 1, m, t)
  {
    assert t in s1.due <==> t in s.due;
    forall i ensures Touches(s, ScriptAt(scripts, i), t) <==> Touches(s1, ScriptAt(scripts, i), t) { }
  }

  /** Fired are waiting timers, none twice, each untouched before its turn; whoever waited in vain was touched. */
  ghost predicate Fires<T>(s: Queue<T>, scripts: seq<seq<Op<T>>>, k: nat, fired: seq<T>) {
    && |fired| <= |s.w| && Distinct(fired)
    && (forall i :: 0 <= i < |fired| ==> fired[i] in s.w && Spared(s, scripts, k, k + i, fired[i]))
    && (forall j :: 0 <= j < |s.w| && s.w[j] !in fired ==> !Spared(s, scripts, k, k + |fired|, s.w[j]))
  }

  lemma FiredLater<T>(s: Queue<T>, s0: Queue<T>, s1: Queue<T>, scripts: seq<seq<Op<T>>>, k: nat, rest: seq<T>, i: nat)
    requires Known(s) && s.w != [] && s0 == s.(w := s.w[1..]) && s1 == DoAll(s0, ScriptAt(scripts, k)) && i < |rest|
    ensures Fires(s1, scripts, k + 1, rest) ==> rest[i] in s0.w && Spared(s, scripts, k, k + 1 + i, rest[i])
  {
    HandlerKeeps(s0, ScriptAt(scripts, k), rest[i]);
    SparedMore(s, s1, scripts, k, k + 1 + i, rest[i]);
  }

  /** The first waiting timer fires, its handler runs, the rest follows. */
  lemma FiresMore<T>(s: Queue<T>, s0: Queue<T>, s1: Queue<T>, scripts: seq<seq<Op<T>>>, k: nat, rest: seq<T>)
    requires Known(s) && s.w != [] && Distinct(s.w) && s0 == s.(w := s.w[1..]) && s1 == DoAll(s0, ScriptAt(scripts, k))
    requires Fires(s1, scripts, k + 1, rest) && |s1.w| <= |s0.w|
    ensures Fires(s, scripts, k, [s.w[0]] + rest)
  {
    var fired := [s.w[0]] + rest;
    forall i | 0 <= i < |rest| ensures rest[i] in s.w[1..] && Spared(s, scripts, k, k + 1 + i, rest[i]) {
      FiredLater(s, s0, s1, scripts, k, rest, i);
    }
    HeadApart(s.w, rest);
    forall i | 0 <= i < |fired| ensures fired[i] in s.w && Spared(s, scripts, k, k + i, fired[i]) {
      if i > 0 { assert fired[i] == rest[i - 1]; }
    }
    forall j | 0 <= j < |s.w| && s.w[j] !in fired ensures !Spared(s, scripts, k, k + |fired|, s.w[j]) {
      Missed(s, s0, s1, scripts, k, rest, j);
    }
  }

  lemma HeadApart<T>(w: seq<T>, rest: seq<T>)
    requires w != [] && Distinct(w) && Distinct(rest) && forall i :: 0 <= i < |rest| ==> rest[i] in w[1..]
    ensures Distinct([w[0]] + rest)
  {
    forall i | 0 <= i < |rest| ensures rest[i] != w[0] {
      var j :| 0 <= j < |w[1..]| && w[1..][j] == rest[i];
      assert w[j + 1] == rest[i];
    }
  }

  lemma Missed<T>(s: Queue<T>, s0: Queue<T>, s1: Queue<T>, scripts: seq<seq<Op<T>>>, k: nat, rest: seq<T>, j: nat)
    requires Known(s) && j < |s.w| && s0 == s.(w := s.w[1..]) && s1 == DoAll(s0, ScriptAt(scripts, k))
    requires Fires(s1, scripts, k + 1, rest) && s.w[j] !in [s.w[0]] + rest
    ensures !Spared(s, scripts, k, k + 1 + |rest|, s.w[j])
  {
    var t := s.w[j];
    assert j > 0 by { assert ([s.w[0]] + rest)[0] == s.w[0]; }
    assert s0.w[j - 1] == t;
    HandlerKeeps(s0, ScriptAt(scripts, k), t);
    SparedMore(s, s1, scripts, k, k + 1 + |rest|, t);
    if t in s1.w {
      var j1 :| 0 <= j1 < |s1.w| && s1.w[j1] == t;
      assert t !in rest;
    }
  }

  /**
   * Main theorem on draining. For arbitrary handlers the drain ends with nothing waiting and the queue in order; it
   * fires only waiting timers, none twice; the i-th timer fired had been touched by none of the handlers that ran
   * before it; and a waiting timer that was not fired had been touched by one that ran.
   */
  lemma {:induction false} DrainExact<T>(s: Queue<T>, scripts: seq<seq<Op<T>>>, k: nat)
    requires QueueOk(s)
    ensures var (r, fired) := Drain(s, scripts, k); QueueOk(r) && r.w == [] && Fires(s, scripts, k, fired)
    decreases |s.w|
  {
    if s.w != [] {
      var s0 := s.(w := s.w[1..]);
      DistinctParts(s.q, s.w);
      DistinctJoin(s.q, s.w[1..]);
      AlwaysOrdered(s0, ScriptAt(scripts, k));
      var s1 := DoAll(s0, ScriptAt(scripts, k));
      DrainExact(s1, scripts, k + 1);
      FiresMore(s, s0, s1, scripts, k, Drain(s1, scripts, k + 1).1);
    }
  }

  /**
   * The whole of Timer_timeout: every timer overdue when it is called either fires or has been taken over by a
   * handler that fired before its turn, and whatever fires was due within a millisecond.
   */
  lemma TimeoutExact<T>(s: Queue<T>, now: int, scripts: seq<seq<Op<T>>>)
    requires QueueOk(s) && s.w == []
    ensures var (r, fired) := Timeout(s, now, scripts);
            && QueueOk(r) && r.w == [] && Distinct(fired)
            && (forall i :: 0 <= i < |fired| ==> fired[i] in s.due && s.due[fired[i]] < now + 1000)
            && (forall i :: 0 <= i < |s.q| && s.due[s.q[i]] <= now ==>
                  s.q[i] in fired || !Spared(s, scripts, 0, |fired|, s.q[i]))
  {
    CollectExact(s, now);
    DrainExact(Collect(s, now), scripts, 0);
    Served(s, Collect(s, now), now, scripts, Timeout(s, now, scripts).1);
  }

  lemma Served<T>(s: Queue<T>, c: Queue<T>, now: int, scripts: seq<seq<Op<T>>>, fired: seq<T>)
    requires Known(s) && Known(c) && c.due == s.due && Fires(c, scripts, 0, fired)
    requires forall i :: 0 <= i < |c.w| ==> c.due[c.w[i]] < now + 1000
    requires forall i :: 0 <= i < |s.q| && s.due[s.q[i]] <= now ==> i < |c.w| && s.q[i] == c.w[i]
    ensures forall i :: 0 <= i < |fired| ==> fired[i] in s.due && s.due[fired[i]] < now + 1000
    ensures forall i :: 0 <= i < |s.q| && s.due[s.q[i]] <= now ==>
              s.q[i] in fired || !Spared(s, scripts, 0, |fired|, s.q[i])
  {
    forall i | 0 <= i < |s.q| && s.due[s.q[i]] <= now
      ensures s.q[i] in fired || !Spared(s, scripts, 0, |fired|, s.q[i])
    {
      SameSpared(s, c, scripts, 0, |fired|, s.q[i]);
    }
  }

  lemma SameSpared<T>(s: Queue<T>, c: Queue<T>, scripts: seq<seq<Op<T>>>, k: nat, m: nat, t: T)
    requires s.due == c.due
    ensures Spared(s, scripts, k, m, t) <==> Spared(c, scripts, k, m, t)
  {
    forall i ensures Touches(s, ScriptAt(scripts, i), t) <==> Touches(c, ScriptAt(scripts, i), t) { }
  }
}
