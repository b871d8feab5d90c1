/**
 * The timer queue on values: which timers wait in the queue (q), which have been taken out as expired but not yet
 * fired (w), and when each is due, in microseconds. Class TimerQueue refines these functions with linked lists.
 */
module TimerSpec {
  import opened Prelude

  datatype Queue<T> = Queue(q: seq<T>, w: seq<T>, due: map<T, int>)

  /** C division: towards zero. */
  function TruncDiv(a: int, b: int): int
    requires b > 0
  {
    if a >= 0 then a / b else -((-a) / b)
  }

  function TruncMod(a: int, b: int): int
    requires b > 0
  {
    a - b * TruncDiv(a, b)
  }

  /** Timeval_diff on moments in microseconds: whole milliseconds, towards zero. */
  function DiffMs(a: int, b: int): int { TruncDiv(a - b, 1000) }

  /** a is at least a whole millisecond before b. */
  predicate Before(a: int, b: int) { a + 1000 <= b }

  /** That is all the sign of the difference tells: it loses up to a millisecond on either side. */
  lemma DiffSigns(a: int, b: int)
    ensures DiffMs(a, b) < 0 <==> Before(a, b)
    ensures DiffMs(a, b) > 0 <==> Before(b, a)
  {
  }

  function Minus<T(==)>(s: seq<T>, t: T): seq<T> {
    if s == [] then [] else if s[0] == t then Minus(s[1..], t) else [s[0]] + Minus(s[1..], t)
  }

  predicate Known<T(==)>(s: Queue<T>) {
    (forall i :: 0 <= i < |s.q| ==> s.q[i] in s.due) && (forall i :: 0 <= i < |s.w| ==> s.w[i] in s.due)
  }

  /** Where a timer due at d goes: before the first timer that is later by a millisecond or more. */
  function Place<T(==)>(q: seq<T>, due: map<T, int>, d: int): (p: nat)
    requires forall i :: 0 <= i < |q| ==> q[i] in due
    ensures p <= |q| && (p < |q| ==> Before(d, due[q[p]]))
    ensures forall i :: 0 <= i < p ==> !Before(d, due[q[i]])
  {
    if q == [] then 0 else if Before(d, due[q[0]]) then 0 else 1 + Place(q[1..], due, d)
  }

  function Remove<T(==)>(s: Queue<T>, t: T): (r: Queue<T>)
    requires Known(s)
    ensures Known(r) && r.due == s.due && |r.w| <= |s.w|
  {
    MinusKnown(s.q, t, s.due);
    MinusKnown(s.w, t, s.due);
    s.(q := Minus(s.q, t), w := Minus(s.w, t))
  }

  function Add<T(==)>(s: Queue<T>, t: T): (r: Queue<T>)
    requires Known(s) && t in s.due
    ensures Known(r) && r.due == s.due && |r.w| <= |s.w|
  {
    var r := Remove(s, t);
    var p := Place(r.q, r.due, r.due[t]);
    r.(q := r.q[..p] + [t] + r.q[p..])
  }

  function SetTimeout<T(==)>(s: Queue<T>, t: T, now: int, msec: int): (r: Queue<T>)
    requires Known(s) && t in s.due
    ensures Known(r) && r.due == s.due[t := now + msec * 1000] && |r.w| <= |s.w|
  {
    Add(s.(due := s.due[t := now + msec * 1000]), t)
  }

  /** What code outside the queue can do to it. A timer in use is never initialised again: every caller looks first. */
  datatype Op<T> = DoAdd(t: T) | DoRemove(t: T) | DoSet(t: T, now: int, msec: int) | DoInit(t: T)

  function Do<T(==)>(s: Queue<T>, op: Op<T>): (r: Queue<T>)
    requires Known(s)
    ensures Known(r) && r.due.Keys == s.due.Keys && |r.w| <= |s.w|
  {
    if op.t !in s.due then s else
    match op
    case DoAdd(t) => Add(s, t)
    case DoRemove(t) => Remove(s, t)
    case DoSet(t, now, msec) => SetTimeout(s, t, now, msec)
    case DoInit(t) => if t in s.q || t in s.w then s else s.(due := s.due[t := 0])
  }

  function DoAll<T(==)>(s: Queue<T>, ops: seq<Op<T>>): (r: Queue<T>)
    requires Known(s)
    ensures Known(r) && r.due.Keys == s.due.Keys && |r.w| <= |s.w|
    decreases |ops|
  {
    if ops == [] then s else DoAll(Do(s, ops[0]), ops[1..])
  }

  /** How many timers at the head of the queue the clock has reached. */
  function DueCount<T(==)>(q: seq<T>, due: map<T, int>, now: int): (n: nat)
    requires forall i :: 0 <= i < |q| ==> q[i] in due
    ensures n <= |q| && (n < |q| ==> Before(now, due[q[n]]))
    ensures forall i :: 0 <= i < n ==> !Before(now, due[q[i]])
  {
    if q == [] then 0 else if Before(now, due[q[0]]) then 0 else 1 + DueCount(q[1..], due, now)
  }

  /** First phase of Timer_timeout: the expired head of the queue is set aside. */
  function Collect<T(==)>(s: Queue<T>, now: int): (r: Queue<T>)
    requires Known(s)
    ensures Known(r)
  {
    var n := DueCount(s.q, s.due, now);
    s.(q := s.q[n..], w := s.w + s.q[..n])
  }

  function ScriptAt<T>(scripts: seq<seq<Op<T>>>, k: nat): seq<Op<T>> {
    if k < |scripts| then scripts[k] else []
  }

  /**
   * Second phase: the timers set aside fire one by one; the k-th handler to run does scripts[k] to the queue. The
   * second result lists the timers fired, in order.
   */
  function Drain<T(==)>(s: Queue<T>, scripts: seq<seq<Op<T>>>, k: nat): (Queue<T>, seq<T>)
    requires Known(s)
    decreases |s.w|
  {
    if s.w == [] then (s, []) else
    var s1 := DoAll(s.(w := s.w[1..]), ScriptAt(scripts, k));
    var (s2, rest) := Drain(s1, scripts, k + 1);
    (s2, [s.w[0]] + rest)
  }

  function Timeout<T(==)>(s: Queue<T>, now: int, scripts: seq<seq<Op<T>>>): (Queue<T>, seq<T>)
    requires Known(s)
  {
    Drain(Collect(s, now), scripts, 0)
  }

  // ------------------------------------------------------------------ sequences

  lemma {:induction false} MinusKnown<T>(s: seq<T>, t: T, due: map<T, int>)
    ensures (forall i :: 0 <= i < |s| ==> s[i] in due) ==> forall i :: 0 <= i < |Minus(s, t)| ==> Minus(s, t)[i] in due
    ensures t !in Minus(s, t) && |Minus(s, t)| <= |s|
    ensures forall i :: 0 <= i < |Minus(s, t)| ==> Minus(s, t)[i] in s
    ensures forall i :: 0 <= i < |s| && s[i] != t ==> s[i] in Minus(s, t)
  {
    if s != [] { MinusKnown(s[1..], t, due); }
  }

  /** In a sequence without repeats, subtracting a member takes out its one place. */
  lemma {:induction false} MinusAt<T>(s: seq<T>, k: nat)
    requires k < |s| && Distinct(s)
    ensures Minus(s, s[k]) == s[..k] + s[k + 1..]
  {
    if k == 0 {
      MinusAbsent(s[1..], s[0]);
    } else {
      MinusAt(s[1..], k - 1);
      assert s[1..][..k - 1] == s[1..k] && s[1..][k..] == s[k + 1..];
    }
  }

  lemma {:induction false} MinusAbsent<T>(s: seq<T>, t: T)
    requires t !in s
    ensures Minus(s, t) == s
  {
    if s != [] { MinusAbsent(s[1..], t); }
  }

  // ------------------------------------------------------------------ order despite truncation

  /**
   * The queue is not sorted: the comparison is not transitive. What holds is that no timer is due a whole
   * millisecond after one that stands behind it.
   */
  ghost predicate Ordered<T>(q: seq<T>, due: map<T, int>) {
    forall i, j :: 0 <= i < j < |q| && q[i] in due && q[j] in due ==> due[q[i]] < due[q[j]] + 1000
  }

  /** No timer is linked twice. */
  ghost predicate Linked<T>(s: Queue<T>) {
    Distinct(s.q + s.w)
  }

  ghost predicate QueueOk<T>(s: Queue<T>) {
    Known(s) && Linked(s) && Ordered(s.q, s.due)
  }
}
