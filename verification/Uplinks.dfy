/** Next-hop graphs: every node has at most one uplink, and packets follow uplinks. */
module Uplinks {
  import opened Prelude
  import opened Messages

  type Graph = map<Addr, Addr>

  /** Where n hops lead from x, if there are that many. */
  function Walk(g: Graph, x: Addr, n: nat): Option<Addr>
    decreases n
  {
    if n == 0 then Some(x) else if x in g then Walk(g, g[x], n - 1) else None
  }

  ghost predicate Acyclic(g: Graph) {
    forall x: Addr, n: nat {:trigger Walk(g, x, n)} :: n > 0 ==> Walk(g, x, n) != Some(x)
  }

  ghost predicate Reaches(g: Graph, x: Addr, y: Addr) {
    exists n: nat :: Walk(g, x, n) == Some(y)
  }

  lemma {:induction false} WalkSplit(g: Graph, x: Addr, a: nat, b: nat)
    requires Walk(g, x, a).Some?
    ensures Walk(g, x, a + b) == Walk(g, Walk(g, x, a).value, b)
    decreases a
  {
    if a > 0 { WalkSplit(g, g[x], a - 1, b); }
  }

  /** Removing edges can only cut walks short. */
  lemma {:induction false} WalkSub(g: Graph, h: Graph, x: Addr, n: nat)
    requires forall z :: z in h ==> z in g && h[z] == g[z]
    ensures Walk(h, x, n) == None || Walk(h, x, n) == Walk(g, x, n)
    decreases n
  {
    if n > 0 && x in h { WalkSub(g, h, h[x], n - 1); }
  }

  lemma AcyclicSub(g: Graph, h: Graph)
    requires Acyclic(g) && forall z :: z in h ==> z in g && h[z] == g[z]
    ensures Acyclic(h)
  {
    forall x: Addr, n: nat | n > 0 ensures Walk(h, x, n) != Some(x) { WalkSub(g, h, x, n); }
  }

  /** Two graphs that differ only in x's uplink have the same walks up to the first visit of x. */
  lemma {:induction false} WalkAvoiding(g: Graph, h: Graph, x: Addr, y: Addr, n: nat)
    requires forall z :: z != x ==> (z in g <==> z in h) && (z in g ==> g[z] == h[z])
    requires forall m: nat :: m < n ==> Walk(g, y, m) != Some(x)
    ensures Walk(h, y, n) == Walk(g, y, n)
    decreases n
  {
    if n > 0 {
      assert Walk(g, y, 0) == Some(y);
      if y in g {
        forall m: nat | m < n - 1 ensures Walk(g, g[y], m) != Some(x) {
          assert Walk(g, y, m + 1) == Walk(g, g[y], m);
        }
        WalkAvoiding(g, h, x, g[y], n - 1);
      }
    }
  }

  /** Pointing x at y keeps an acyclic graph acyclic exactly when y did not lead to x. */
  lemma {:induction false} RepointIff(g: Graph, x: Addr, y: Addr)
    requires Acyclic(g)
    ensures Acyclic(g[x := y]) <==> !Reaches(g, y, x)
  {
    var h := g[x := y];
    if Reaches(g, y, x) {
      var n: nat :| Walk(g, y, n) == Some(x);
      var k := FirstVisit(g, y, x, n);
      WalkAvoiding(g, h, x, y, k);
      assert Walk(h, x, k + 1) == Some(x);
    } else {
      forall z: Addr, k: nat | k > 0 ensures Walk(h, z, k) != Some(z) {
        if Walk(h, z, k) == Some(z) {
          if m: nat :| m < k && Walk(h, z, m) == Some(x) {
            WalkSplit(h, z, m, k - m);
            WalkSplit(h, x, k - m, m);
            assert Walk(h, x, k) == Walk(h, y, k - 1) == Some(x);
            WalkAvoiding(g, h, x, y, k - 1);
          } else {
            WalkAvoiding(h, g, x, z, k);
          }
        }
      }
    }
  }

  lemma {:induction false} FirstVisit(g: Graph, y: Addr, x: Addr, n: nat) returns (k: nat)
    requires Walk(g, y, n) == Some(x)
    ensures Walk(g, y, k) == Some(x) && forall m: nat :: m < k ==> Walk(g, y, m) != Some(x)
  {
    if m: nat :| m < n && Walk(g, y, m) == Some(x) {
      k := FirstVisit(g, y, x, m);
    } else {
      k := n;
    }
  }

  /** In an acyclic graph a walk stops after at most as many hops as there are uplinks. */
  lemma {:induction false} WalksEnd(g: Graph, x: Addr)
    requires Acyclic(g)
    ensures Walk(g, x, |g| + 1) == None
    decreases |g|
  {
    if x in g {
      var h := g - {x};
      assert g.Keys == h.Keys + {x};
      assert |g.Keys| == |h.Keys| + 1;
      forall m: nat | m < |g| ensures Walk(g, g[x], m) != Some(x) {
        assert Walk(g, x, m + 1) == Walk(g, g[x], m);
      }
      WalkAvoiding(g, h, x, g[x], |g|);
      AcyclicSub(g, h);
      WalksEnd(h, g[x]);
    }
  }

  lemma {:induction false} WalkShorter(g: Graph, x: Addr, m: nat, n: nat)
    requires m <= n && Walk(g, x, n).Some?
    ensures Walk(g, x, m).Some?
    decreases m
  {
    if m > 0 { WalkShorter(g, g[x], m - 1, n - 1); }
  }

  /** A walk that comes back to where it began goes round for ever. */
  lemma {:induction false} WalkPeriodic(g: Graph, x: Addr, p: nat, n: nat)
    requires p > 0 && Walk(g, x, p) == Some(x)
    ensures Walk(g, x, n).Some?
    decreases n
  {
    if n <= p {
      WalkShorter(g, x, n, p);
    } else {
      WalkPeriodic(g, x, p, n - p);
      WalkSplit(g, x, p, n - p);
    }
  }

  /** A walk that ends at all ends after at most as many hops as there are uplinks. */
  lemma {:induction false} WalkEndsSoon(g: Graph, x: Addr, n: nat)
    requires Walk(g, x, n) == None
    ensures Walk(g, x, |g| + 1) == None
    decreases |g|
  {
    if x in g {
      var h := g - {x};
      assert g.Keys == h.Keys + {x};
      assert |g.Keys| == |h.Keys| + 1;
      forall m: nat ensures Walk(g, g[x], m) != Some(x) {
        if Walk(g, g[x], m) == Some(x) {
          assert Walk(g, x, m + 1) == Some(x);
          WalkPeriodic(g, x, m + 1, n);
        }
      }
      WalkAvoiding(g, h, x, g[x], n - 1);
      WalkEndsSoon(h, g[x], n - 1);
      WalkAvoiding(g, h, x, g[x], |g|);
    }
  }

  /** What n moves lead to, if all of them can be made. */
  function Iterate<S>(f: S -> Option<S>, s: S, n: nat): Option<S>
    decreases n
  {
    if n == 0 then Some(s) else match f(s) case None => None case Some(t) => Iterate(f, t, n - 1)
  }

  /** What moves along a graph, hop by hop and as long as there is one, moves as often as the walk has hops. */
  lemma {:induction false} IterateWalk<S(!new)>(f: S -> Option<S>, at: S -> Addr, ok: S -> bool, g: Graph, s: S, n: nat)
    requires ok(s)
    requires forall t :: ok(t) ==> (f(t).Some? <==> at(t) in g)
    requires forall t :: ok(t) && f(t).Some? ==> ok(f(t).value) && at(f(t).value) == g[at(t)]
    ensures Iterate(f, s, n).Some? <==> Walk(g, at(s), n).Some?
    decreases n
  {
    if n > 0 && f(s).Some? { IterateWalk(f, at, ok, g, f(s).value, n - 1); }
  }

  ghost predicate Moves<S>(f: S -> Option<S>, o: seq<S>, t: nat) { t + 1 < |o| && f(o[t]) == Some(o[t + 1]) }

  /** The stations of n moves. */
  ghost function Orbit<S>(f: S -> Option<S>, s: S, n: nat): (o: seq<S>)
    requires Iterate(f, s, n).Some?
    ensures |o| == n + 1 && o[0] == s && forall t :: 0 <= t < n ==> Moves(f, o, t)
    decreases n
  {
    if n == 0 then [s] else
    var rest := Orbit(f, f(s).value, n - 1);
    assert forall t :: 0 < t < n ==> Moves(f, rest, t - 1) ==> Moves(f, [s] + rest, t);
    [s] + rest
  }
}
