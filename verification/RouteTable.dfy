/** The ten-slot routing table (wsm/aodv.h:272-295) and the functions that search and change it, on values. */
module RouteTable {
  import opened Prelude
  import opened Messages

  const SLOTS: nat := 10

  /** One slot, struct rt_table. Times are whole seconds: only tv_sec is ever read. */
  datatype Route = Route(
    dest: Addr, destIP: nat, source: Addr, prev: Addr, next: Addr, seqno: nat, hcnt: nat, valid: bool,
    firstHello: int, lastHello: int, helloCnt: nat, alm: nat, almNext: nat,
    schCnt: nat, hits: seq<nat>, hitPos: nat, heard: nat)

  const EMPTY: Route :=
    Route(0, 0, 0, 0, 0, 0, 0, false, 0, 0, 0, 0, 0, 0, [0, 0, 0, 0, 0, 0, 0, 0, 0, 0], 0, 0)

  /** The three things a table is searched for. */
  datatype Query = ByDest(dest: Addr) | ByKey(dest: Addr, source: Addr) | Free

  predicate Matches(e: Route, q: Query) {
    match q
    case ByDest(d) => e.valid && e.dest == d
    case ByKey(d, s) => e.valid && e.dest == d && e.source == s
    case Free => !e.valid
  }

  /** The first matching slot at or after `i`. */
  function First(t: seq<Route>, q: Query, i: nat := 0): (r: Option<nat>)
    requires i <= |t|
    ensures r.None? ==> forall k :: i <= k < |t| ==> !Matches(t[k], q)
    ensures r.Some? ==> i <= r.value < |t| && Matches(t[r.value], q)
    ensures r.Some? ==> forall k :: i <= k < r.value ==> !Matches(t[k], q)
    decreases |t| - i
  {
    if i == |t| then None else if Matches(t[i], q) then Some(i) else First(t, q, i + 1)
  }

  /** The last matching slot before `n`. */
  function Last(t: seq<Route>, q: Query, n: nat): (r: Option<nat>)
    requires n <= |t|
    ensures r.None? ==> forall k :: 0 <= k < n ==> !Matches(t[k], q)
    ensures r.Some? ==> r.value < n && Matches(t[r.value], q)
    ensures r.Some? ==> forall k :: r.value < k < n ==> !Matches(t[k], q)
  {
    if n == 0 then None else if Matches(t[n - 1], q) then Some(n - 1) else Last(t, q, n - 1)
  }

  /** The arguments of an insertion; `prev` is absent when the caller passes prev_exist = 0. */
  datatype Fresh = Fresh(
    dest: Addr, next: Addr, source: Addr, prev: Option<Addr>, hcnt: nat, ip: nat, helloCnt: nat, alm: nat, seqno: nat)

  /** The slot after an insertion: fields that are not named keep what the slot held. */
  function Fill(old_: Route, f: Fresh, now: int): Route {
    old_.(dest := f.dest, next := f.next, source := f.source,
          prev := if f.prev.Some? then f.prev.value else old_.prev,
          firstHello := now, lastHello := now, hcnt := f.hcnt, valid := true,
          helloCnt := f.helloCnt, destIP := f.ip, alm := f.alm, seqno := f.seqno)
  }

  /** A full table is left as it is. */
  function Insert(t: seq<Route>, f: Fresh, now: int): seq<Route> {
    match First(t, Free)
    case None => t
    case Some(i) => t[i := Fill(t[i], f, now)]
  }

  /** `junk` is the value the update leaves in the last-hello time: it copies the bytes of a pointer there. */
  function Refresh(e: Route, next: Addr, hcnt: nat, alm: nat, seqno: nat, junk: int): Route {
    e.(next := next, lastHello := junk, hcnt := hcnt, alm := alm, valid := true, seqno := seqno)
  }

  /** Slots that are not in use are blank, slots in use have a real destination. */
  ghost predicate SlotOk(e: Route) {
    if e.valid then e.dest != 0 && |e.hits| == 10 && e.hitPos < 10 else e == EMPTY
  }

  /** No two slots in use share destination and source. */
  ghost predicate Keyed(t: seq<Route>) {
    forall i, j :: 0 <= i < j < |t| && t[i].valid && t[j].valid && t[i].dest == t[j].dest ==> t[i].source != t[j].source
  }

  ghost predicate TableOk(t: seq<Route>) {
    && |t| == SLOTS
    && (forall i :: 0 <= i < |t| ==> SlotOk(t[i]))
    && Keyed(t)
  }

  /** No two slots in use share their destination. */
  ghost predicate DestUnique(t: seq<Route>) {
    forall i, j :: 0 <= i < j < |t| && t[i].valid && t[j].valid ==> t[i].dest != t[j].dest
  }

  /** Next hop and hop count of the route for a key. */
  function Hop(t: seq<Route>, dest: Addr, source: Addr): Option<(Addr, nat)> {
    match First(t, ByKey(dest, source))
    case None => None
    case Some(i) => Some((t[i].next, t[i].hcnt))
  }

  /** t' is t with some slots blanked. */
  ghost predicate Thinned(t: seq<Route>, t': seq<Route>) {
    |t'| == |t| && forall i :: 0 <= i < |t| ==> t'[i] == t[i] || t'[i] == EMPTY
  }

  /** Same slots, with routing fields untouched. */
  ghost predicate SameRoutes(t: seq<Route>, t': seq<Route>) {
    |t'| == |t| && forall i :: 0 <= i < |t| ==>
      && t'[i].valid == t[i].valid && t'[i].dest == t[i].dest && t'[i].source == t[i].source
      && t'[i].next == t[i].next && t'[i].hcnt == t[i].hcnt && t'[i].prev == t[i].prev
  }

  /** Number of slots in use among the first n. */
  function Used(t: seq<Route>, n: nat): (u: nat)
    requires n <= |t|
    ensures u <= n
  {
    if n == 0 then 0 else Used(t, n - 1) + if t[n - 1].valid then 1 else 0
  }

  // ------------------------------------------------------------------ lemmas

  /** In a keyed table the slot that holds a key is the one a search for the key returns. */
  lemma KeyedHop(t: seq<Route>, i: nat)
    requires Keyed(t) && i < |t| && t[i].valid
    ensures First(t, ByKey(t[i].dest, t[i].source)) == Some(i)
  {
  }

  /** The first slot holding a key is the same in two tables that agree on every slot holding it. */
  lemma SameFirst(t: seq<Route>, t': seq<Route>, d: Addr, s: Addr)
    requires |t| == |t'|
    requires forall k :: 0 <= k < |t| && (Matches(t[k], ByKey(d, s)) || Matches(t'[k], ByKey(d, s))) ==> t[k] == t'[k]
    ensures First(t, ByKey(d, s)) == First(t', ByKey(d, s))
    ensures Hop(t, d, s) == Hop(t', d, s)
  {
    var a, b := First(t, ByKey(d, s)), First(t', ByKey(d, s));
    if a.Some? { assert Matches(t'[a.value], ByKey(d, s)); }
    if b.Some? { assert Matches(t[b.value], ByKey(d, s)); }
  }

  /** Blanking slots keeps the table in order and can only make routes disappear. */
  lemma ThinnedOk(t: seq<Route>, t': seq<Route>)
    requires TableOk(t) && Thinned(t, t')
    ensures TableOk(t')
    ensures forall d, s {:trigger Hop(t', d, s)} :: Hop(t', d, s) == None || Hop(t', d, s) == Hop(t, d, s)
    ensures DestUnique(t) ==> DestUnique(t')
  {
    forall d, s ensures Hop(t', d, s) == None || Hop(t', d, s) == Hop(t, d, s) {
      if First(t', ByKey(d, s)).Some? {
        KeyedHop(t, First(t', ByKey(d, s)).value);
      }
    }
  }

  /** Bookkeeping that leaves routing fields alone leaves every route alone. */
  lemma SameRoutesOk(t: seq<Route>, t': seq<Route>)
    requires TableOk(t) && SameRoutes(t, t') && forall i :: 0 <= i < |t| ==> SlotOk(t'[i])
    ensures TableOk(t')
    ensures forall d, s {:trigger Hop(t', d, s)} :: Hop(t', d, s) == Hop(t, d, s)
    ensures DestUnique(t) ==> DestUnique(t')
  {
    forall d, s ensures Hop(t', d, s) == Hop(t, d, s) {
      if First(t', ByKey(d, s)).Some? {
        KeyedHop(t, First(t', ByKey(d, s)).value);
      }
    }
  }

  /** Inserting a key that is absent keeps the table in order and changes the route of that key only. */
  lemma InsertOk(t: seq<Route>, f: Fresh, now: int)
    requires TableOk(t) && f.dest != 0 && First(t, ByKey(f.dest, f.source)).None?
    ensures TableOk(Insert(t, f, now))
    ensures Hop(Insert(t, f, now), f.dest, f.source) ==
            if First(t, Free).None? then None else Some((f.next, f.hcnt))
    ensures forall d, s {:trigger Hop(Insert(t, f, now), d, s)} ::
              d != f.dest || s != f.source ==> Hop(Insert(t, f, now), d, s) == Hop(t, d, s)
    ensures DestUnique(t) && First(t, ByDest(f.dest)).None? ==> DestUnique(Insert(t, f, now))
  {
    var t' := Insert(t, f, now);
    if First(t, Free).Some? {
      var i := First(t, Free).value;
      assert t[i] == EMPTY;
      assert Matches(t'[i], ByKey(f.dest, f.source));
      KeyedHop(t', i);
      forall d, s | d != f.dest || s != f.source ensures Hop(t', d, s) == Hop(t, d, s) {
        assert !Matches(t'[i], ByKey(d, s)) && !Matches(t[i], ByKey(d, s));
        SameFirst(t, t', d, s);
      }
    }
  }

  /** Refreshing the slot found for a key changes the route of that key only. */
  lemma RefreshOk(t: seq<Route>, i: nat, next: Addr, hcnt: nat, alm: nat, seqno: nat, junk: int)
    requires TableOk(t) && i < |t| && t[i].valid
    ensures TableOk(t[i := Refresh(t[i], next, hcnt, alm, seqno, junk)])
    ensures var t' := t[i := Refresh(t[i], next, hcnt, alm, seqno, junk)];
            && Hop(t', t[i].dest, t[i].source) == Some((next, hcnt))
            && (forall d, s {:trigger Hop(t', d, s)} :: d != t[i].dest || s != t[i].source ==>
                  Hop(t', d, s) == Hop(t, d, s))
            && (DestUnique(t) ==> DestUnique(t'))
  {
    var t' := t[i := Refresh(t[i], next, hcnt, alm, seqno, junk)];
    KeyedHop(t', i);
    forall d, s | d != t[i].dest || s != t[i].source ensures Hop(t', d, s) == Hop(t, d, s) {
      SameFirst(t, t', d, s);
    }
  }

  /** Where destinations are unique, the first and the last match are the same slot. */
  lemma FirstIsLast(t: seq<Route>, d: Addr)
    requires DestUnique(t)
    ensures First(t, ByDest(d)) == Last(t, ByDest(d), |t|)
  {
  }

  /** A changed slot changes the number of slots in use by its own share. */
  lemma {:induction false} UsedUpdate(t: seq<Route>, i: nat, e: Route, n: nat)
    requires i < |t| && n <= |t|
    ensures Used(t[i := e], n) ==
            Used(t, n) + if i < n then (if e.valid then 1 else 0) - (if t[i].valid then 1 else 0) else 0
  {
    if n > 0 { UsedUpdate(t, i, e, n - 1); }
  }
}
