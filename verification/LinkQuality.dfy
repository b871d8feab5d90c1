/** The ten-sample link-quality ring of a routing slot is a sliding window over the hello checks. */
module LinkQuality {
  import opened Prelude
  import opened Messages
  import opened RouteTable
  import opened Handlers

  /** Whether a check finds that many hellos: the detector is a byte, so 256 of them in between leave no trace. */
  function Bit(hellos: nat): nat { if hellos % 256 > 0 then 1 else 0 }

  /** The slot after one check per element of xs, xs[k] being the number of hellos heard before check k. */
  function Checked(e: Route, xs: seq<nat>): (r: Route)
    requires |e.hits| == 10 && e.hitPos < 10
    ensures |r.hits| == 10 && r.hitPos < 10 && r.schCnt == e.schCnt && r.hcnt == e.hcnt && r.firstHello == e.firstHello
    ensures e.heard == 0 && e.schCnt > 0 ==> r.heard == 0
  {
    if xs == [] then e else Sample(Hearing(Checked(e, xs[..|xs| - 1]), xs[|xs| - 1]))
  }

  /** The detector counts each hello on top of what it holds. */
  function Hearing(e: Route, hellos: nat): (r: Route)
    ensures e.heard == 0 ==> r == e.(heard := hellos % 256)
    ensures r == e.(heard := r.heard)
  {
    if hellos == 0 then e else
    var h := Hearing(e, hellos - 1);
    assert e.heard == 0 ==> h.heard == (hellos - 1) % 256;
    h.(heard := (h.heard + 1) % 256)
  }

  /** A slot whose ring has just been cleared and whose neighbour is being heard. */
  predicate Cleared(e: Route) {
    e.hits == EMPTY.hits && e.hitPos == 0 && e.heard == 0 && e.schCnt > 0
  }

  /** What a sliding window of ten keeps at position j: the latest check whose number is j modulo ten, if any. */
  function Held(xs: seq<nat>, j: nat): nat
    requires j < 10
  {
    if |xs| <= j then 0 else Bit(xs[|xs| - 1 - (|xs| - 1 - j) % 10])
  }

  /** How many of the checks found a hello. */
  function Hits(xs: seq<nat>): nat {
    if xs == [] then 0 else Bit(xs[0]) + Hits(xs[1..])
  }

  function LastTen(xs: seq<nat>): seq<nat> {
    if |xs| <= 10 then xs else xs[|xs| - 10..]
  }

  /** Ages modulo ten: the position being written has age zero, every other grows one check older. */
  lemma Ages(n: nat, j: nat)
    requires j < 10
    ensures j == n % 10 ==> (n - j) % 10 == 0
    ensures j != n % 10 && j < n ==> (n - j) % 10 == (n - 1 - j) % 10 + 1
    ensures j != n % 10 ==> n != j
  {
    var q, r := n / 10, n % 10;
    if j <= r {
      ModTen(n - j, q, r - j);
      if j < r { ModTen(n - 1 - j, q, r - 1 - j); }
    } else if j < n {
      ModTen(n - j, q - 1, 10 + r - j);
      ModTen(n - 1 - j, q - 1, 9 + r - j);
    }
  }

  lemma ModTen(a: int, k: int, m: int)
    requires a == 10 * k + m && 0 <= m < 10
    ensures a % 10 == m
  {
  }

  lemma HeldStep(xs: seq<nat>, x: nat, j: nat)
    requires j < 10
    ensures Held(xs + [x], j) == if j == |xs| % 10 then Bit(x) else Held(xs, j)
  {
    var n := |xs|;
    Ages(n, j);
    if j < n && j != n % 10 {
      assert (xs + [x])[n - (n - j) % 10] == xs[n - 1 - (n - 1 - j) % 10];
    }
  }

  /**
   * After n checks the write position is n modulo ten and the ring holds the last ten results, zeros where there is
   * none.
   */
  lemma {:induction false} RingHolds(e: Route, xs: seq<nat>)
    requires Cleared(e)
    ensures Checked(e, xs).hitPos == |xs| % 10
    ensures forall j :: 0 <= j < 10 ==> Checked(e, xs).hits[j] == Held(xs, j)
  {
    if xs != [] {
      var n := |xs| - 1;
      RingHolds(e, xs[..n]);
      assert xs == xs[..n] + [xs[n]];
      RingStep(Hearing(Checked(e, xs[..n]), xs[n]), xs[..n], xs[n]);
    }
  }

  lemma RingStep(r: Route, ys: seq<nat>, x: nat)
    requires |r.hits| == 10 && r.hitPos == |ys| % 10 && r.schCnt > 0 && (r.heard > 0 <==> Bit(x) == 1)
    requires forall j :: 0 <= j < 10 ==> r.hits[j] == Held(ys, j)
    ensures var r' := Sample(r);
            r'.hitPos == (|ys| + 1) % 10 && forall j :: 0 <= j < 10 ==> r'.hits[j] == Held(ys + [x], j)
  {
    forall j | 0 <= j < 10 ensures Sample(r).hits[j] == Held(ys + [x], j) {
      HeldStep(ys, x, j);
    }
  }

  lemma {:induction false} HitsAppend(xs: seq<nat>, x: nat)
    ensures Hits(xs + [x]) == Hits(xs) + Bit(x)
  {
    if xs == [] {
      assert [x][1..] == [];
    } else {
      assert (xs + [x])[1..] == xs[1..] + [x];
      HitsAppend(xs[1..], x);
    }
  }

  lemma {:induction false} SumUpdate(s: seq<nat>, i: nat, v: nat, n: nat)
    requires i < |s| && n <= |s|
    ensures SumTo(s[i := v], n) == SumTo(s, n) + if i < n then v - s[i] else 0
  {
    if n > 0 { SumUpdate(s, i, v, n - 1); }
  }

  /** The ring's sum is the number of hits in the last ten checks. */
  lemma {:induction false} RingSum(e: Route, xs: seq<nat>)
    requires Cleared(e)
    ensures SumTo(Checked(e, xs).hits, 10) == Hits(LastTen(xs))
  {
    if xs == [] {
      SumZeros(10);
    } else {
      var n := |xs| - 1;
      var ys, x := xs[..n], xs[n];
      RingSum(e, ys);
      RingHolds(e, ys);
      SumUpdate(Checked(e, ys).hits, n % 10, Bit(x), 10);
      HitsAppend(LastTen(ys), x);
      LastTenStep(ys, x);
      assert xs == ys + [x];
    }
  }

  /** The window slides: the oldest of ten results makes room, and it is the one the ring overwrites. */
  lemma LastTenStep(ys: seq<nat>, x: nat)
    ensures Hits(LastTen(ys) + [x]) == Hits(LastTen(ys + [x])) + Held(ys, |ys| % 10)
  {
    var n := |ys|;
    if n < 10 {
      assert LastTen(ys + [x]) == LastTen(ys) + [x];
    } else {
      var more := LastTen(ys) + [x];
      assert more[1..] == LastTen(ys + [x]) && more[0] == ys[n - 10];
      ModTen(n - 1 - n % 10, n / 10 - 1, 9);
    }
  }

  lemma {:induction false} SumZeros(n: nat)
    requires n <= 10
    ensures SumTo(EMPTY.hits, n) == 0
  {
    if n > 0 { SumZeros(n - 1); }
  }

  /** In the first ten checks the front of the ring is the history itself. */
  lemma {:induction false} FrontSum(e: Route, xs: seq<nat>, k: nat)
    requires Cleared(e) && k <= |xs| <= 10
    ensures SumTo(Checked(e, xs).hits, k) == Hits(xs[..k])
  {
    if k > 0 {
      FrontSum(e, xs, k - 1);
      FrontBit(e, xs, k - 1);
      HitsAppend(xs[..k - 1], xs[k - 1]);
      assert xs[..k] == xs[..k - 1] + [xs[k - 1]];
    }
  }

  lemma FrontBit(e: Route, xs: seq<nat>, j: nat)
    requires Cleared(e) && j < |xs| <= 10
    ensures |Checked(e, xs).hits| == 10 && Checked(e, xs).hits[j] == Bit(xs[j])
  {
    RingHolds(e, xs);
    assert (|xs| - 1 - j) % 10 == |xs| - 1 - j;
  }

  /** Over ten samples the percentage is ten times the sum. */
  lemma ScoreIs(r: Route, now: int)
    requires |r.hits| == 10 && r.schCnt > 0 && r.hcnt == 1
    ensures var diff, alm := now - r.firstHello, Score(r, now).alm;
            && (diff == 0 || diff >= 10 ==> alm == 10 * SumTo(r.hits, 10))
            && (1 <= diff <= 9 ==> alm == 100 * SumTo(r.hits, diff) / diff)
  {
  }

  /**
   * The quality of a one-hop neighbour: once ten seconds have passed (or none), ten times the hits in the last ten
   * checks; before that, with one check a second, the percentage of checks so far that found a hello.
   */
  lemma ScoreMeans(e: Route, xs: seq<nat>, now: int)
    requires Cleared(e) && e.hcnt == 1
    ensures var diff, alm := now - e.firstHello, Score(Checked(e, xs), now).alm;
            && (diff == 0 || diff >= 10 ==> alm == 10 * Hits(LastTen(xs)))
            && (1 <= diff <= 9 && |xs| == diff ==> alm == 100 * Hits(xs) / diff)
    ensures Score(Checked(e, xs), now).almNext == Score(Checked(e, xs), now).alm
  {
    RingSum(e, xs);
    ScoreIs(Checked(e, xs), now);
    if |xs| <= 10 { WholeFront(e, xs); }
  }

  lemma WholeFront(e: Route, xs: seq<nat>)
    requires Cleared(e) && |xs| <= 10
    ensures SumTo(Checked(e, xs).hits, |xs|) == Hits(xs)
  {
    FrontSum(e, xs, |xs|);
    assert xs[..|xs|] == xs;
  }

  lemma {:induction false} SumBits(s: seq<nat>, n: nat)
    requires n <= |s| && forall j :: 0 <= j < |s| ==> s[j] <= 1
    ensures SumTo(s, n) <= n
  {
    if n > 0 { SumBits(s, n - 1); }
  }

  lemma DivBound(a: nat, n: nat)
    requires a <= n && n > 0
    ensures a * 100 / n <= 100
  {
    assert a * 100 <= n * 100;
    assert n * 100 / n == 100;
  }

  /** Computed at any moment, even with the clock set back, a quality is at most 100. */
  lemma ScoreAtMostHundred(e: Route, xs: seq<nat>, now: int)
    requires Cleared(e) && e.hcnt == 1
    ensures Score(Checked(e, xs), now).alm <= 100
  {
    var r := Checked(e, xs);
    RingHolds(e, xs);
    var diff := now - e.firstHello;
    SumBits(r.hits, 10);
    if 1 <= diff <= 9 {
      SumBits(r.hits, diff);
      DivBound(SumTo(r.hits, diff), diff);
    }
  }
}
