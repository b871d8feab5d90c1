/**
 * The timer queue in the form of the source: timers linked in place into one of two doubly linked rings, each closed
 * by a list head. Every operation refines its function in module TimerSpec, and a timer's `used` flag says exactly
 * whether it is linked.
 */
module TimerQueue {
  import opened Prelude
  import opened TimerSpec
  import opened TimerTheorems

  /** struct timer; a list head is one whose links alone are used. */
  class Timer {
    var prev: Timer?
    var next: Timer?
    var used: bool
    var sec: int
    var usec: int

    constructor ()
      ensures prev == null && next == null && !used
    {
      prev, next, used, sec, usec := null, null, false, 0, 0;
    }

    function Due(): int
      reads `sec, `usec
    {
      sec * 1000000 + usec
    }
  }

  /** Timeval_diff, in milliseconds. */
  function TimevalDiff(sec1: int, usec1: int, sec2: int, usec2: int): (d: int)
    ensures d < 0 <==> Before(sec1 * 1000000 + usec1, sec2 * 1000000 + usec2)
    ensures d > 0 <==> Before(sec2 * 1000000 + usec2, sec1 * 1000000 + usec1)
  {
    DiffSigns(sec1 * 1000000 + usec1, sec2 * 1000000 + usec2);
    TruncDiv((sec1 - sec2) * 1000000 + usec1 - usec2, 1000)
  }

  ghost function Members(r: seq<Timer>): (m: set<Timer>)
    ensures forall i :: 0 <= i < |r| ==> r[i] in m
  {
    set x | x in r
  }

  /** The elements form one closed, doubly linked ring, in this order. */
  ghost predicate Ring(r: seq<Timer>)
    reads Members(r)`next, Members(r)`prev
  {
    && |r| > 0 && Distinct(r)
    && (forall i {:trigger r[i].next} :: 0 <= i < |r| - 1 ==> r[i].next == r[i + 1])
    && (forall i {:trigger r[i].prev} :: 1 <= i < |r| ==> r[i].prev == r[i - 1])
    && r[|r| - 1].next == r[0] && r[0].prev == r[|r| - 1]
  }

  method ListelmDetach(prev: Timer, next: Timer)
    modifies prev`next, next`prev
    ensures next.prev == prev && prev.next == next
  {
    next.prev := prev;
    prev.next := next;
  }

  method ListelmAdd(le: Timer, prev: Timer, next: Timer)
    modifies prev`next, le`prev, le`next, next`prev
    requires le != prev && le != next
    ensures prev.next == le && le.prev == prev && le.next == next && next.prev == le
  {
    prev.next := le;
    le.prev := prev;
    le.next := next;
    next.prev := le;
  }

  /** List_detach of the k-th element of a ring. */
  method ListDetach(le: Timer, ghost r: seq<Timer>, ghost k: nat)
    requires Ring(r) && 0 < k < |r| && r[k] == le
    modifies Members(r)`next, Members(r)`prev
    ensures Ring(r[..k] + r[k + 1..]) && le.next == null && le.prev == null
  {
    ghost var n := |r|;
    ghost var after := if k + 1 < n then r[k + 1] else r[0];
    assert le.prev == r[k - 1] && le.next == after;
    ListelmDetach(le.prev, le.next);
    le.next, le.prev := null, null;
    ghost var s := r[..k] + r[k + 1..];
    PopDistinct(r, k);
    forall i {:trigger s[i].next} | 0 <= i < |s| - 1 ensures s[i].next == s[i + 1] {
      if i < k - 1 { assert s[i] == r[i] && s[i + 1] == r[i + 1]; }
      else if i == k - 1 { assert s[i] == r[k - 1] && s[i + 1] == r[k + 1]; }
      else { assert s[i] == r[i + 1] && s[i + 1] == r[i + 2]; }
    }
    forall i {:trigger s[i].prev} | 1 <= i < |s| ensures s[i].prev == s[i - 1] {
      if i < k { assert s[i] == r[i] && s[i - 1] == r[i - 1]; }
      else if i == k { assert s[i] == r[k + 1] && s[i - 1] == r[k - 1]; }
      else { assert s[i] == r[i + 1] && s[i - 1] == r[i]; }
    }
    assert s[0] == r[0] && s[n - 2] == if k == n - 1 then r[k - 1] else r[n - 1];
  }

  lemma PopDistinct<T>(r: seq<T>, k: nat)
    requires k < |r| && Distinct(r)
    ensures Distinct(r[..k] + r[k + 1..])
  {
  }

  /** List_add of a new element behind the k-th element of a ring. */
  method ListAdd(le: Timer, prev: Timer, next: Timer, ghost r: seq<Timer>, ghost k: nat)
    requires Ring(r) && k < |r| && le !in r && prev == r[k] && next == if k + 1 < |r| then r[k + 1] else r[0]
    modifies Members(r)`next, Members(r)`prev, le`next, le`prev
    ensures Ring(r[..k + 1] + [le] + r[k + 1..])
  {
    ghost var n := |r|;
    ListelmAdd(le, prev, next);
    ghost var s := r[..k + 1] + [le] + r[k + 1..];
    PushDistinct(r, k, le);
    forall i {:trigger s[i].next} | 0 <= i < |s| - 1 ensures s[i].next == s[i + 1] {
      if i < k { assert s[i] == r[i] && s[i + 1] == r[i + 1]; }
      else if i == k { assert s[i] == r[k] && s[i + 1] == le; }
      else if i == k + 1 { assert s[i] == le && s[i + 1] == r[k + 1]; }
      else { assert s[i] == r[i - 1] && s[i + 1] == r[i]; }
    }
    forall i {:trigger s[i].prev} | 1 <= i < |s| ensures s[i].prev == s[i - 1] {
      if i <= k { assert s[i] == r[i] && s[i - 1] == r[i - 1]; }
      else if i == k + 1 { assert s[i] == le && s[i - 1] == r[k]; }
      else if i == k + 2 { assert s[i] == r[k + 1] && s[i - 1] == le; }
      else { assert s[i] == r[i - 1] && s[i - 1] == r[i - 2]; }
    }
    assert s[0] == r[0] && s[n] == if k == n - 1 then le else r[n - 1];
  }

  lemma PushDistinct<T>(r: seq<T>, k: nat, x: T)
    requires k < |r| && Distinct(r) && x !in r
    ensures Distinct(r[..k + 1] + [x] + r[k + 1..])
  {
  }

  class TimerQueue {
    const tq: Timer
    const expTQ: Timer
    ghost const timers: set<Timer>
    ghost var q: seq<Timer>
    ghost var w: seq<Timer>

    ghost function Dues(): map<Timer, int>
      reads timers`sec, timers`usec
    {
      map t | t in timers :: t.Due()
    }

    lemma DuesAre(d: map<Timer, int>)
      requires d.Keys == timers && forall x <- timers :: x.Due() == d[x]
      ensures Dues() == d
    {
    }

    /** TQ and expTQ as lists, with the moment each timer is due. */
    ghost function Abs(): Queue<Timer>
      reads `q, `w, timers`sec, timers`usec
    {
      Queue(q, w, Dues())
    }

    /** The list heads are not timers; what is linked is. */
    ghost predicate Apart()
      reads `q, `w
    {
      && tq !in timers && expTQ !in timers && tq != expTQ
      && (forall i :: 0 <= i < |q| ==> q[i] in timers) && (forall i :: 0 <= i < |w| ==> w[i] in timers)
    }

    ghost predicate Linkage()
      reads `q, `w, Members([tq] + q)`next, Members([tq] + q)`prev, Members([expTQ] + w)`next, Members([expTQ] + w)`prev
    {
      Apart() && Ring([tq] + q) && Ring([expTQ] + w) && Distinct(q + w)
    }

    /** `used` says exactly whether a timer is linked; an unlinked timer has null links. */
    ghost predicate Flags()
      reads `q, `w, timers`next, timers`prev, timers`used
    {
      forall t <- timers :: (t.used <==> t in q || t in w) && (!t.used <==> t.next == null && t.prev == null)
    }

    ghost predicate Valid()
      reads this, tq, expTQ, timers, q, w
    {
      Linkage() && Flags()
    }

    /** Both heads empty, no timer in use. */
    constructor (ghost ts: set<Timer>)
      requires forall t <- ts :: !t.used && t.next == null && t.prev == null
      ensures Valid() && timers == ts && q == [] && w == []
    {
      tq := new Timer();
      expTQ := new Timer();
      timers := ts;
      q, w := [], [];
      new;
      tq.next, tq.prev := tq, tq;
      expTQ.next, expTQ.prev := expTQ, expTQ;
    }

    /** The two rings share no node. */
    lemma RingsApart()
      requires Linkage()
      ensures Members([tq] + q) !! Members([expTQ] + w)
      ensures Members([tq] + q) <= {tq} + timers && Members([expTQ] + w) <= {expTQ} + timers
    {
      DistinctParts(q, w);
    }

    /** List_detach of timer t, the k-th element of list l. */
    method DetachFrom(t: Timer, ghost head: Timer, ghost l: seq<Timer>, ghost k: nat)
      requires Ring([head] + l) && k < |l| && l[k] == t
      modifies Members([head] + l)`next, Members([head] + l)`prev
      ensures Ring([head] + Minus(l, t)) && t.next == null && t.prev == null
    {
      ghost var r := [head] + l;
      assert Distinct(l) by { DistinctParts([head], l); }
      MinusAt(l, k);
      ListDetach(t, r, k + 1);
      assert r[..k + 1] + r[k + 2..] == [head] + Minus(l, t);
    }

    lemma Linked()
      ensures Apart() && Ring([tq] + q) && Ring([expTQ] + w) && Distinct(q + w) ==> Linkage()
    {
    }

    /** List_detach of timer t, in whichever list it is; the other list is out of reach. */
    method DetachEither(t: Timer)
      requires Linkage() && (t in q || t in w)
      modifies Members([tq] + q)`next, Members([tq] + q)`prev, Members([expTQ] + w)`next, Members([expTQ] + w)`prev
      ensures Ring([tq] + Minus(q, t)) && Ring([expTQ] + Minus(w, t)) && t.next == null && t.prev == null
    {
      RingsApart();
      MinusTwo(q, w, t);
      ghost var head, l := if t in q then tq else expTQ, if t in q then q else w;
      ghost var k: nat :| k < |l| && l[k] == t;
      DetachFrom(t, head, l, k);
    }

    /** The list part of Timer_remove. */
    method Unlink(t: Timer)
      requires Linkage() && t in timers && (t in q || t in w)
      modifies this`q, this`w, Members([tq] + q)`next, Members([tq] + q)`prev,
               Members([expTQ] + w)`next, Members([expTQ] + w)`prev
      ensures Linkage() && q == Minus(old(q), t) && w == Minus(old(w), t)
      ensures t.next == null && t.prev == null
    {
      MinusTwo(q, w, t);
      DetachEither(t);
      q, w := Minus(q, t), Minus(w, t);
      assert Apart();
      Linked();
    }

    lemma MinusTwo(a: seq<Timer>, b: seq<Timer>, t: Timer)
      requires Distinct(a + b)
      ensures Distinct(Minus(a, t) + Minus(b, t))
      ensures t in a ==> Minus(b, t) == b
      ensures t in b ==> Minus(a, t) == a
      ensures forall i :: 0 <= i < |Minus(a, t)| ==> Minus(a, t)[i] in a
      ensures forall i :: 0 <= i < |Minus(b, t)| ==> Minus(b, t)[i] in b
    {
      DistinctParts(a, b);
      MinusDistinct(a, t);
      MinusDistinct(b, t);
      MinusKnown(a, t, map[]);
      MinusKnown(b, t, map[]);
      forall i, j | 0 <= i < |Minus(a, t)| && 0 <= j < |Minus(b, t)| ensures Minus(a, t)[i] != Minus(b, t)[j] {
        assert Minus(a, t)[i] in a && Minus(b, t)[j] in b;
      }
      DistinctJoin(Minus(a, t), Minus(b, t));
      if t in a { MinusAbsent(b, t); }
      if t in b { MinusAbsent(a, t); }
    }

    /** A linked timer has links. */
    lemma LinksOf(l: seq<Timer>, head: Timer, k: nat)
      requires Ring([head] + l) && k < |l|
      ensures l[k].next != null && l[k].prev != null
    {
      assert ([head] + l)[k + 1] == l[k];
    }

    lemma LinkedHaveLinks(t: Timer)
      requires Linkage() && (t in q || t in w)
      ensures t.next != null && t.prev != null
    {
      if t in q {
        var k :| 0 <= k < |q| && q[k] == t;
        LinksOf(q, tq, k);
      } else {
        var k :| 0 <= k < |w| && w[k] == t;
        LinksOf(w, expTQ, k);
      }
    }

    /** After an unlink the flags of the other timers are still right. */
    lemma FlagsAfter(q0: seq<Timer>, w0: seq<Timer>, t: Timer, x: Timer, wasNull: bool)
      requires x in timers && q == Minus(q0, t) && w == Minus(w0, t) && x != t
      ensures Linkage() && (x.used <==> x in q0 || x in w0) && (!x.used <==> wasNull)
              && (x !in q0 && x !in w0 ==> (wasNull <==> x.next == null && x.prev == null)) ==>
                (x.used <==> x in q || x in w) && (!x.used <==> x.next == null && x.prev == null)
    {
      MinusOthers(q0, t, x);
      MinusOthers(w0, t, x);
      if Linkage() && (x in q || x in w) { LinkedHaveLinks(x); }
    }

    /** Timer_remove of a timer in use. */
    method Detach(t: Timer)
      requires Linkage() && Flags() && t in timers && (t in q || t in w)
      modifies this`q, this`w, Members([tq] + q)`next, Members([tq] + q)`prev,
               Members([expTQ] + w)`next, Members([expTQ] + w)`prev, t`used
      ensures Linkage() && Flags() && q == Minus(old(q), t) && w == Minus(old(w), t) && !t.used
      ensures forall x <- timers :: x.Due() == old(x.Due())
    {
      ghost var q0, w0 := q, w;
      Unlink(t);
      t.used := false;
      MinusKnown(q0, t, map[]);
      MinusKnown(w0, t, map[]);
      forall x <- timers
        ensures (x.used <==> x in q || x in w) && (!x.used <==> x.next == null && x.prev == null)
      {
        if x != t { FlagsAfter(q0, w0, t, x, old(x.next == null && x.prev == null)); }
      }
    }

    /** Timer_remove of a timer in use: only list places change, no due time. */
    method DetachKeepingDues(t: Timer)
      requires Valid() && t in timers && (t in q || t in w)
      modifies this`q, this`w, tq`next, tq`prev, expTQ`next, expTQ`prev, timers`next, timers`prev, t`used
      ensures Valid() && !t.used && Abs() == Remove(old(Abs()), t)
    {
      ghost var due := Dues();
      RingsApart();
      Detach(t);
      DuesAre(due);
    }

    lemma Unused(t: Timer)
      requires Valid() && t in timers && t.next == null && t.prev == null
      ensures !t.used && t !in q && t !in w && Remove(Abs(), t) == Abs()
    {
      MinusAbsent(q, t);
      MinusAbsent(w, t);
    }

    method TimerRemove(t: Timer) returns (res: int)
      requires Valid() && t in timers
      modifies this`q, this`w, tq`next, tq`prev, expTQ`next, expTQ`prev, timers`next, timers`prev, t`used
      ensures Valid() && !t.used && Abs() == Remove(old(Abs()), t)
      ensures res == if old(t.used) then 1 else 0
    {
      if t.next == null && t.prev == null {
        Unused(t); // the flag the source clears here is clear already
        res := 0;
      } else {
        res := 1;
        DetachKeepingDues(t);
      }
    }

    // ---------------------------------------------------------------- insertion

    /** List_add of an unlinked timer into TQ, in front of the element or head pos. */
    method LinkIn(t: Timer, pos: Timer, ghost p: nat)
      requires Linkage() && t in timers && t !in q && t !in w && p <= |q| && pos == if p < |q| then q[p] else tq
      modifies this`q, Members([tq] + q)`next, Members([tq] + q)`prev, t`next, t`prev
      ensures Linkage() && q == old(q)[..p] + [t] + old(q)[p..]
    {
      RingsApart();
      ghost var q0 := q;
      AttachTo(t, pos, tq, q, p);
      InsertDistinct(q0 + w, t, p);
      assert (q0 + w)[..p] + [t] + (q0 + w)[p..] == (q0[..p] + [t] + q0[p..]) + w;
      q := q0[..p] + [t] + q0[p..];
      Linked();
    }

    /** List_add_tail of an unlinked timer to expTQ. */
    method Append(t: Timer)
      requires Linkage() && t in timers && t !in q && t !in w
      modifies this`w, Members([expTQ] + w)`next, Members([expTQ] + w)`prev, t`next, t`prev
      ensures Linkage() && w == old(w) + [t]
    {
      RingsApart();
      ghost var w0 := w;
      AttachTo(t, expTQ, expTQ, w, |w|);
      InsertDistinct(q + w0, t, |q + w0|);
      assert (q + w0) + [t] + [] == q + (w0 + [t]);
      assert w0[..|w0|] + [t] + w0[|w0|..] == w0 + [t];
      w := w0 + [t];
      Linked();
    }

    /** In front of the p-th element of a list stands the one before it, or the head. */
    lemma BeforePlace(head: Timer, l: seq<Timer>, p: nat)
      requires Ring([head] + l) && p <= |l|
      ensures (if p < |l| then l[p] else head).prev == ([head] + l)[p]
      ensures (if p < |l| then l[p] else head) == if p + 1 < |[head] + l| then ([head] + l)[p + 1] else head
    {
    }

    /** List_add of t in front of the p-th element of list l, or of its head. */
    method AttachTo(t: Timer, pos: Timer, ghost head: Timer, ghost l: seq<Timer>, ghost p: nat)
      requires Ring([head] + l) && t !in [head] + l && p <= |l| && pos == if p < |l| then l[p] else head
      modifies Members([head] + l)`next, Members([head] + l)`prev, t`next, t`prev
      ensures Ring([head] + (l[..p] + [t] + l[p..]))
    {
      ghost var r := [head] + l;
      BeforePlace(head, l, p);
      ListAdd(t, pos.prev, pos, r, p);
      ShiftPlace(head, l, t, p);
    }

    static lemma ShiftPlace<T>(head: T, l: seq<T>, t: T, p: nat)
      requires p <= |l|
      ensures var r := [head] + l; r[..p + 1] + [t] + r[p + 1..] == [head] + (l[..p] + [t] + l[p..])
    {
    }

    lemma InsertDistinct(s: seq<Timer>, t: Timer, p: nat)
      requires Distinct(s) && t !in s && p <= |s|
      ensures Distinct(s[..p] + [t] + s[p..])
    {
    }

    /** The walk of Timer_add over TQ: the first timer that is due later, as far as the comparison can tell. */
    method FindPlace(t: Timer) returns (pos: Timer, ghost p: nat)
      requires Valid() && t in timers
      ensures Valid() && p <= |q| && pos == if p < |q| then q[p] else tq
      ensures p == Place(q, Dues(), t.Due())
    {
      ghost var r := [tq] + q;
      assert tq.next == if |q| > 0 then q[0] else tq by { assert r[0] == tq && (|q| > 0 ==> r[1] == q[0]); }
      pos, p := tq.next, 0;
      while pos != tq
        invariant p <= |q| && pos == if p < |q| then q[p] else tq
        invariant forall i :: 0 <= i < p ==> !Before(t.Due(), Dues()[q[i]])
        decreases |q| - p
      {
        if TimevalDiff(t.sec, t.usec, pos.sec, pos.usec) < 0 { break; }
        assert r[p + 1] == pos && (p + 1 < |q| ==> r[p + 2] == q[p + 1]);
        pos, p := pos.next, p + 1;
      }
    }

    /** A timer comes into use at place p of TQ. */
    method Attach(t: Timer, pos: Timer, ghost p: nat)
      requires Linkage() && Flags() && t in timers && !t.used && p <= |q| && pos == if p < |q| then q[p] else tq
      modifies this`q, this`w, Members([tq] + q)`next, Members([tq] + q)`prev,
               Members([expTQ] + w)`next, Members([expTQ] + w)`prev, t`next, t`prev, t`used
      ensures Linkage() && Flags() && q == old(q)[..p] + [t] + old(q)[p..] && w == old(w) && t.used
      ensures forall x <- timers :: x.Due() == old(x.Due())
    {
      ghost var q0 := q;
      LinkIn(t, pos, p);
      t.used := true;
      assert q[p] == t;
      LinkedHaveLinks(t);
      forall x <- timers ensures (x.used <==> x in q || x in w) && (!x.used <==> x.next == null && x.prev == null) {
        InsertedMember(q0, t, p, x);
        if x in q || x in w { LinkedHaveLinks(x); }
      }
    }

    method AttachKeepingDues(t: Timer, pos: Timer, ghost p: nat)
      requires Valid() && t in timers && !t.used && p <= |q| && pos == if p < |q| then q[p] else tq
      modifies this`q, this`w, tq`next, tq`prev, expTQ`next, expTQ`prev, timers`next, timers`prev, t`used
      ensures Valid() && t.used && Abs() == old(Abs()).(q := old(q)[..p] + [t] + old(q)[p..])
    {
      ghost var due := Dues();
      RingsApart();
      Attach(t, pos, p);
      DuesAre(due);
    }

    /** Timer_add of a timer not in use. */
    method AddUnused(t: Timer)
      requires Valid() && t in timers && !t.used
      modifies this`q, this`w, tq`next, tq`prev, expTQ`next, expTQ`prev, timers`next, timers`prev, t`used
      ensures Valid() && t.used
      ensures var p := Place(old(q), old(Dues()), old(t.Due()));
              Abs() == old(Abs()).(q := old(q)[..p] + [t] + old(q)[p..])
    {
      var pos, p := FindPlace(t);
      AttachKeepingDues(t, pos, p);
    }

    lemma InsertedMember(s: seq<Timer>, t: Timer, p: nat, x: Timer)
      requires p <= |s|
      ensures x in s[..p] + [t] + s[p..] <==> x == t || x in s
    {
      assert s == s[..p] + s[p..];
    }

    method TimerAdd(t: Timer)
      requires Valid() && t in timers
      modifies this`q, this`w, tq`next, tq`prev, expTQ`next, expTQ`prev, timers`next, timers`prev, t`used
      ensures Valid() && t.used && Abs() == Add(old(Abs()), t)
    {
      if t.used {
        var _ := TimerRemove(t);
      } else {
        Unused(t);
      }
      AddUnused(t);
    }

    /** Writing the time of a timer that is in no list. */
    method Rewrite(t: Timer, sec: int, usec: int)
      requires Valid() && t in timers && !t.used
      modifies t`sec, t`usec
      ensures Valid() && Abs() == old(Abs()).(due := old(Dues())[t := sec * 1000000 + usec])
    {
      ghost var due := Dues()[t := sec * 1000000 + usec];
      t.sec, t.usec := sec, usec;
      DuesAre(due);
    }

    /** Unlink, set the time, link again: the same as setting the time and adding. */
    static lemma SetInSteps(s: Queue<Timer>, t: Timer, now: int, msec: int)
      requires Known(s) && t in s.due
      ensures var due := s.due[t := now + msec * 1000]; var r := Remove(s, t).(due := due);
              && (forall i :: 0 <= i < |r.q| ==> r.q[i] in due)
              && var p := Place(r.q, due, now + msec * 1000);
                 SetTimeout(s, t, now, msec) == r.(q := r.q[..p] + [t] + r.q[p..])
    {
    }

    /** gettimeofday, then the interval is added and the microseconds carried over. */
    method SetUnused(t: Timer, sec: int, usec: int, msec: int)
      requires Valid() && t in timers && !t.used
      modifies t`sec, t`usec
      ensures Valid() && Abs() == old(Abs()).(due := old(Dues())[t := sec * 1000000 + usec + msec * 1000])
    {
      var us := usec + msec * 1000;
      Rewrite(t, sec + TruncDiv(us, 1000000), TruncMod(us, 1000000));
    }

    /** Timer_set_timeout at wall-clock time (sec, usec). */
    method TimerSetTimeout(t: Timer, sec: int, usec: int, msec: int)
      requires Valid() && t in timers
      modifies this`q, this`w, tq`next, tq`prev, expTQ`next, expTQ`prev, timers`next, timers`prev, t`used, t`sec, t`usec
      ensures Valid() && t.used && Abs() == SetTimeout(old(Abs()), t, sec * 1000000 + usec, msec)
    {
      SetInSteps(Abs(), t, sec * 1000000 + usec, msec);
      if t.used {
        var _ := TimerRemove(t);
      } else {
        Unused(t);
      }
      SetUnused(t, sec, usec, msec);
      AddUnused(t);
    }

    /** A timer not in use has these values already; a list that holds a timer in use is torn. */
    method ResetLinks(t: Timer)
      requires Valid() && t in timers
      modifies t`next, t`prev, t`used
      ensures t.next == null && t.prev == null && !t.used
      ensures if old(t.used) then !Linkage() else Valid()
    {
      ghost var inUse := t.used;
      t.next, t.prev, t.used := null, null, false;
      if inUse {
        if Linkage() { LinkedHaveLinks(t); }
      } else {
        assert Apart();
        Linked();
      }
    }

    /** Timer_init: every caller first makes sure that the timer is not in use, and must. */
    method TimerInit(t: Timer)
      requires Valid() && t in timers
      modifies t`next, t`prev, t`sec, t`usec, t`used
      ensures t.next == null && t.prev == null && !t.used && t.Due() == 0
      ensures Valid() <==> !old(t.used)
      ensures Abs() == old(Abs()).(due := old(Dues())[t := 0])
    {
      ghost var due := Dues()[t := 0];
      ResetLinks(t);
      t.sec, t.usec := 0, 0;
      DuesAre(due);
    }

    /** One thing a handler does to the queue. */
    method Perform(op: Op<Timer>)
      requires Valid() && op.t in timers
      modifies this`q, this`w, tq`next, tq`prev, expTQ`next, expTQ`prev, timers
      ensures Valid() && Abs() == Do(old(Abs()), op)
      ensures QueueOk(old(Abs())) ==> QueueOk(Abs())
    {
      if QueueOk(Abs()) { DoOk(Abs(), op); }
      match op
      case DoAdd(t) => TimerAdd(t);
      case DoRemove(t) => var _ := TimerRemove(t);
      case DoSet(t, now, msec) => TimerSetTimeout(t, 0, now, msec);
      case DoInit(t) => if !t.used { TimerInit(t); }
    }

    method PerformAll(ops: seq<Op<Timer>>)
      requires Valid() && forall i :: 0 <= i < |ops| ==> ops[i].t in timers
      modifies this`q, this`w, tq`next, tq`prev, expTQ`next, expTQ`prev, timers
      ensures Valid() && Abs() == DoAll(old(Abs()), ops)
    {
      var i := 0;
      while i < |ops|
        invariant 0 <= i <= |ops| && Valid()
        invariant DoAll(old(Abs()), ops) == DoAll(Abs(), ops[i..])
      {
        assert ops[i..][0] == ops[i] && ops[i..][1..] == ops[i + 1..];
        Perform(ops[i]);
        i := i + 1;
      }
    }

    // ---------------------------------------------------------------- expiry

    /** The head of TQ moves to the tail of expTQ. */
    method Shift(t: Timer)
      requires Linkage() && |q| > 0 && t == q[0]
      modifies this`q, this`w, Members([tq] + q)`next, Members([tq] + q)`prev,
               Members([expTQ] + w)`next, Members([expTQ] + w)`prev
      ensures Linkage() && q == old(q)[1..] && w == old(w) + [t]
    {
      DistinctParts(q, w);
      MinusAt(q, 0);
      MinusAbsent(w, t);
      ghost var q0, w0 := q, w;
      Unlink(t);
      assert q == q0[1..] && w == w0;
      Append(t);
    }

    /** The same with flags: the timer stays in use. */
    method ShiftInUse(t: Timer)
      requires Linkage() && Flags() && |q| > 0 && t == q[0]
      modifies this`q, this`w, Members([tq] + q)`next, Members([tq] + q)`prev,
               Members([expTQ] + w)`next, Members([expTQ] + w)`prev
      ensures Linkage() && Flags() && q == old(q)[1..] && w == old(w) + [t]
      ensures forall x <- timers :: x.Due() == old(x.Due())
    {
      ghost var q0, w0 := q, w;
      Shift(t);
      forall x <- timers ensures (x.used <==> x in q || x in w) && (!x.used <==> x.next == null && x.prev == null) {
        assert x in q0 <==> x == t || x in q by { assert q0 == [t] + q; }
        assert x in w <==> x == t || x in w0;
        if x in q || x in w { LinkedHaveLinks(x); }
      }
    }

    method SetAside(t: Timer)
      requires Valid() && |q| > 0 && t == q[0]
      modifies this`q, this`w, tq`next, tq`prev, expTQ`next, expTQ`prev, timers`next, timers`prev
      ensures Valid() && Abs() == old(Abs()).(q := old(q)[1..], w := old(w) + [t])
    {
      ghost var due := Dues();
      RingsApart();
      ShiftInUse(t);
      DuesAre(due);
    }

    /** The walk ends exactly when the list is empty. */
    lemma HeadApart()
      requires Linkage()
      ensures tq.next != tq <==> |q| > 0
    {
      Heads();
    }

    /** The first n timers of TQ set aside. */
    static ghost function Taken(s: Queue<Timer>, n: nat): Queue<Timer>
      requires n <= |s.q|
    {
      s.(q := s.q[n..], w := s.w + s.q[..n])
    }

    static lemma TakenMore(s: Queue<Timer>, n: nat)
      requires n < |s.q|
      ensures Taken(s, n).(q := Taken(s, n).q[1..], w := Taken(s, n).w + [s.q[n]]) == Taken(s, n + 1)
      ensures Taken(s, n).q[0] == s.q[n]
    {
      assert s.q[n..][1..] == s.q[n + 1..] && (s.w + s.q[..n]) + [s.q[n]] == s.w + s.q[..n + 1];
    }

    /** The first n timers are due, and the next is not if the walk has stopped. */
    static ghost predicate Walked(s: Queue<Timer>, n: nat, now: int, stop: bool) {
      && Known(s) && n <= |s.q| && (forall i :: 0 <= i < n ==> !Before(now, s.due[s.q[i]]))
      && (stop ==> n < |s.q| && Before(now, s.due[s.q[n]]))
    }

    static lemma TakenAll(s: Queue<Timer>, n: nat, now: int, stop: bool)
      ensures Walked(s, n, now, stop) && (stop || n == |s.q|) ==> Taken(s, n) == Collect(s, now)
    {
    }

    lemma Heads()
      requires Linkage()
      ensures tq.next == if |q| > 0 then q[0] else tq
      ensures expTQ.next == if |w| > 0 then w[0] else expTQ
    {
      assert ([tq] + q)[0] == tq && ([expTQ] + w)[0] == expTQ;
      assert |q| > 0 ==> ([tq] + q)[1] == q[0];
      assert |w| > 0 ==> ([expTQ] + w)[1] == w[0];
    }

    /** One turn of the first phase: stop at the first timer that is not due, else set it aside. */
    method CollectOne(pos: Timer, sec: int, usec: int) returns (stop: bool)
      requires Valid() && |q| > 0 && pos == q[0]
      modifies this`q, this`w, tq`next, tq`prev, expTQ`next, expTQ`prev, timers`next, timers`prev
      ensures Valid() && stop == Before(sec * 1000000 + usec, old(Dues())[pos])
      ensures Abs() == if stop then old(Abs()) else old(Abs()).(q := old(q)[1..], w := old(w) + [pos])
    {
      stop := TimevalDiff(pos.sec, pos.usec, sec, usec) > 0;
      if !stop { SetAside(pos); }
    }

    /** The walk so far: n timers set aside, all of them due, the others still in TQ. */
    ghost predicate Collecting(s: Queue<Timer>, n: nat, now: int, stop: bool)
      reads this, tq, expTQ, timers, q, w
    {
      Valid() && Walked(s, n, now, stop) && Abs() == Taken(s, n) && (tq.next != tq <==> n < |s.q|)
    }

    lemma CollectStart(now: int)
      ensures Valid() ==> Collecting(Abs(), 0, now, false)
    {
      if Valid() {
        assert Abs().w + [] == Abs().w;
        HeadApart();
      }
    }

    method CollectNext(sec: int, usec: int, ghost s: Queue<Timer>, ghost n: nat) returns (stop: bool, ghost m: nat)
      requires Collecting(s, n, sec * 1000000 + usec, false) && tq.next != tq
      modifies this`q, this`w, tq`next, tq`prev, expTQ`next, expTQ`prev, timers`next, timers`prev
      ensures m == (if stop then n else n + 1) && m <= |s.q| && Collecting(s, m, sec * 1000000 + usec, stop)
    {
      TakenMore(s, n);
      Heads();
      stop := CollectOne(tq.next, sec, usec);
      m := if stop then n else n + 1;
      HeadApart();
    }

    /** First phase of Timer_timeout. */
    method CollectExpired(sec: int, usec: int)
      requires Valid()
      modifies this`q, this`w, tq`next, tq`prev, expTQ`next, expTQ`prev, timers`next, timers`prev
      ensures Valid() && Abs() == Collect(old(Abs()), sec * 1000000 + usec)
    {
      ghost var s, n := Abs(), 0;
      var stop := false;
      CollectStart(sec * 1000000 + usec);
      while !stop && tq.next != tq
        invariant n <= |s.q| && Collecting(s, n, sec * 1000000 + usec, stop)
        decreases !stop, |s.q| - n
      {
        stop, n := CollectNext(sec, usec, s, n);
      }
      TakenAll(s, n, sec * 1000000 + usec, stop);
    }

    static lemma RemoveFirst(s: Queue<Timer>)
      requires Known(s) && s.w != [] && Distinct(s.q + s.w)
      ensures Remove(s, s.w[0]) == s.(w := s.w[1..])
    {
      DistinctParts(s.q, s.w);
      MinusAt(s.w, 0);
      MinusAbsent(s.q, s.w[0]);
    }

    /** What is still to come, after the timers already fired, makes up the whole result. */
    static ghost predicate Continues(all: (Queue<Timer>, seq<Timer>), s: Queue<Timer>, scripts: seq<seq<Op<Timer>>>,
                                     k: nat, fired: seq<Timer>)
    {
      Known(s) && all.0 == Drain(s, scripts, k).0 && all.1 == fired + Drain(s, scripts, k).1
    }

    static lemma DrainStep(all: (Queue<Timer>, seq<Timer>), s: Queue<Timer>, scripts: seq<seq<Op<Timer>>>, k: nat,
                           fired: seq<Timer>)
      requires Known(s) && s.w != []
      ensures var s1 := DoAll(s.(w := s.w[1..]), ScriptAt(scripts, k));
              && |s1.w| < |s.w|
              && (Continues(all, s, scripts, k, fired) ==> Continues(all, s1, scripts, k + 1, fired + [s.w[0]]))
    {
      var s1 := DoAll(s.(w := s.w[1..]), ScriptAt(scripts, k));
      var rest := Drain(s1, scripts, k + 1).1;
      assert fired + ([s.w[0]] + rest) == (fired + [s.w[0]]) + rest;
    }

    static lemma DrainDone(all: (Queue<Timer>, seq<Timer>), s: Queue<Timer>, scripts: seq<seq<Op<Timer>>>, k: nat,
                           fired: seq<Timer>)
      ensures Continues(all, s, scripts, k, fired) && s.w == [] ==> all == (s, fired)
      ensures Known(s) ==> Continues(Drain(s, scripts, 0), s, scripts, 0, [])
    {
      assert fired + [] == fired;
      if Known(s) { assert [] + Drain(s, scripts, 0).1 == Drain(s, scripts, 0).1; }
    }

    /** The first waiting timer leaves the list and loses its flag, then its handler runs. */
    method FireFirst(t: Timer, script: seq<Op<Timer>>)
      requires Valid() && |w| > 0 && t == w[0] && forall i :: 0 <= i < |script| ==> script[i].t in timers
      modifies this`q, this`w, tq`next, tq`prev, expTQ`next, expTQ`prev, timers
      ensures Valid() && Abs() == DoAll(old(Abs()).(w := old(w)[1..]), script)
    {
      RemoveFirst(Abs());
      DetachKeepingDues(t);
      PerformAll(script);
    }

    ghost predicate Draining(all: (Queue<Timer>, seq<Timer>), scripts: seq<seq<Op<Timer>>>, k: nat, fired: seq<Timer>)
      reads this, tq, expTQ, timers, q, w
    {
      Valid() && Continues(all, Abs(), scripts, k, fired) && expTQ.next == if |w| > 0 then w[0] else expTQ
    }

    lemma DrainStart(scripts: seq<seq<Op<Timer>>>)
      requires Valid()
      ensures Draining(Drain(Abs(), scripts, 0), scripts, 0, [])
    {
      Heads();
      DrainDone(Drain(Abs(), scripts, 0), Abs(), scripts, 0, []);
    }

    method FireNext(scripts: seq<seq<Op<Timer>>>, k: nat, ghost all: (Queue<Timer>, seq<Timer>),
                    ghost fired: seq<Timer>)
      returns (t: Timer)
      requires Draining(all, scripts, k, fired) && expTQ.next != expTQ
      requires forall k, i :: 0 <= k < |scripts| && 0 <= i < |scripts[k]| ==> scripts[k][i].t in timers
      modifies this`q, this`w, tq`next, tq`prev, expTQ`next, expTQ`prev, timers
      ensures Draining(all, scripts, k + 1, fired + [t]) && |w| < old(|w|)
    {
      t := expTQ.next;
      DrainStep(all, Abs(), scripts, k, fired);
      FireFirst(t, ScriptAt(scripts, k));
      Heads();
    }

    /** Second phase of Timer_timeout. */
    method DrainExpired(scripts: seq<seq<Op<Timer>>>) returns (fired: seq<Timer>)
      requires Valid() && forall k, i :: 0 <= k < |scripts| && 0 <= i < |scripts[k]| ==> scripts[k][i].t in timers
      modifies this`q, this`w, tq`next, tq`prev, expTQ`next, expTQ`prev, timers
      ensures Valid() && Abs() == Drain(old(Abs()), scripts, 0).0 && fired == Drain(old(Abs()), scripts, 0).1
    {
      ghost var all := Drain(Abs(), scripts, 0);
      DrainStart(scripts);
      fired := [];
      var k := 0;
      while expTQ.next != expTQ
        invariant Draining(all, scripts, k, fired)
        decreases |w|
      {
        var t := FireNext(scripts, k, all, fired);
        fired, k := fired + [t], k + 1;
      }
      DrainDone(all, Abs(), scripts, k, fired);
    }

    static lemma {:induction false} DrainEmpties(s: Queue<Timer>, scripts: seq<seq<Op<Timer>>>, k: nat)
      requires Known(s)
      ensures Drain(s, scripts, k).0.w == []
      decreases |s.w|
    {
      if s.w != [] { DrainEmpties(DoAll(s.(w := s.w[1..]), ScriptAt(scripts, k)), scripts, k + 1); }
    }

    /** Timer_timeout; the k-th handler called does scripts[k] to the queue. */
    method TimerTimeout(sec: int, usec: int, scripts: seq<seq<Op<Timer>>>) returns (fired: seq<Timer>)
      requires Valid() && w == []
      requires forall k, i :: 0 <= k < |scripts| && 0 <= i < |scripts[k]| ==> scripts[k][i].t in timers
      modifies this`q, this`w, tq`next, tq`prev, expTQ`next, expTQ`prev, timers
      ensures Valid() && w == []
      ensures Abs() == Timeout(old(Abs()), sec * 1000000 + usec, scripts).0
      ensures fired == Timeout(old(Abs()), sec * 1000000 + usec, scripts).1
    {
      CollectExpired(sec, usec);
      DrainEmpties(Abs(), scripts, 0);
      fired := DrainExpired(scripts);
    }
  }
}
