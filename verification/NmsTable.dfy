/**
 * The network-management table (wsm/aodv.h:321-335): twelve rows, each with eight neighbour places filled from the
 * front and an uplink path of eight places. A dead node is taken out of every list in place.
 */
module NmsTable {
  import opened Prelude
  import opened Messages

  const ROWS: nat := 12
  const PLACES: nat := 8
  const BLANK: seq<Addr> := [0, 0, 0, 0, 0, 0, 0, 0]

  datatype Row = Row(addr: Addr, state: nat, channel: nat, neighbours: seq<Addr>, uplink: seq<Addr>)

  // ------------------------------------------------------------------ neighbour lists

  /** Places are used from the front, without gaps: n of them. */
  ghost predicate Compact(s: seq<Addr>, n: nat) {
    && |s| == PLACES && n <= PLACES
    && (forall i :: 0 <= i < n ==> s[i] != 0) && (forall i :: n <= i < PLACES ==> s[i] == 0)
  }

  ghost predicate ListOk(s: seq<Addr>) {
    exists n: nat :: Compact(s, n) && Distinct(s[..n])
  }

  /** The entries of a list without the blanks. */
  function Entries(s: seq<Addr>): seq<Addr> {
    if s == [] then [] else if s[0] == 0 then Entries(s[1..]) else [s[0]] + Entries(s[1..])
  }

  function Filter(s: seq<Addr>, dead: Addr): seq<Addr> {
    if s == [] then [] else if s[0] == dead then Filter(s[1..], dead) else [s[0]] + Filter(s[1..], dead)
  }

  /** Removing place j: what stands behind moves up. The last place has nothing behind it and keeps a copy. */
  function PullUp(s: seq<Addr>, j: nat): seq<Addr>
    requires |s| == PLACES && j < PLACES
  {
    if j == PLACES - 1 then s[j := 0] else s[..j] + s[j + 1..] + [s[PLACES - 1]]
  }

  /** The walk over one list: at each place, a dead entry is removed and the walk goes on behind it. */
  function Purged(s: seq<Addr>, dead: Addr, j: nat): (r: seq<Addr>)
    requires |s| == PLACES && j <= PLACES
    ensures |r| == PLACES
    decreases PLACES - j
  {
    if j == PLACES then s else Purged(if s[j] == dead then PullUp(s, j) else s, dead, j + 1)
  }

  /** An uplink path that contains the dead node is given up altogether. */
  function PurgedUplink(s: seq<Addr>, dead: Addr): seq<Addr> {
    if dead in s then BLANK else s
  }

  // ------------------------------------------------------------------ lists

  lemma {:induction false} EntriesOf(s: seq<Addr>, n: nat)
    requires n <= |s| && (forall i :: 0 <= i < n ==> s[i] != 0) && (forall i :: n <= i < |s| ==> s[i] == 0)
    ensures Entries(s) == s[..n]
  {
    if s != [] {
      if n == 0 {
        EntriesOf(s[1..], 0);
        assert s[1..][..0] == [];
      } else {
        EntriesOf(s[1..], n - 1);
        assert s[..n] == [s[0]] + s[1..][..n - 1];
      }
    }
  }

  lemma {:induction false} FilterAbsent(s: seq<Addr>, dead: Addr)
    requires dead !in s
    ensures Filter(s, dead) == s
  {
    if s != [] { FilterAbsent(s[1..], dead); }
  }

  lemma {:induction false} FilterOne(s: seq<Addr>, k: nat)
    requires k < |s| && Distinct(s)
    ensures Filter(s, s[k]) == s[..k] + s[k + 1..]
  {
    if k == 0 {
      FilterAbsent(s[1..], s[0]);
    } else {
      FilterOne(s[1..], k - 1);
      assert s[1..][..k - 1] == s[1..k] && s[1..][k..] == s[k + 1..];
    }
  }

  /** A walk that meets no dead entry changes nothing. */
  lemma {:induction false} PurgedAbsent(s: seq<Addr>, dead: Addr, j: nat)
    requires |s| == PLACES && j <= PLACES && dead !in s[j..]
    ensures Purged(s, dead, j) == s
    decreases PLACES - j
  {
    if j < PLACES {
      assert s[j..] == [s[j]] + s[j + 1..];
      PurgedAbsent(s, dead, j + 1);
    }
  }

  lemma {:induction false} PurgedAt(s: seq<Addr>, k: nat, j: nat)
    requires |s| == PLACES && j <= k < PLACES && forall i :: 0 <= i < PLACES && i != k ==> s[i] != s[k]
    requires s[k] != 0
    ensures Purged(s, s[k], j) == PullUp(s, k)
    decreases k - j
  {
    if j == k {
      var r := PullUp(s, k);
      forall i | k < i < PLACES ensures r[i] != s[k] { }
      PurgedAbsent(r, s[k], k + 1);
    } else {
      PurgedAt(s, k, j + 1);
    }
  }

  /**
   * Main theorem, for one list that is compact and free of repeats: the in-place removal leaves a list that is so
   * again and holds the old entries without the dead node, in order, if and only if the list was not full or the dead
   * node was not ahead of the last place. (From a full list the last entry is left standing twice.)
   */
  lemma PurgeIff(s: seq<Addr>, n: nat, dead: Addr)
    requires Compact(s, n) && Distinct(s[..n]) && dead != 0
    ensures var r := Purged(s, dead, 0);
            ListOk(r) && Entries(r) == Filter(Entries(s), dead) <==> !(n == PLACES && dead in s[..PLACES - 1])
  {
    EntriesOf(s, n);
    if k: nat :| k < n && s[k] == dead {
      forall i | 0 <= i < PLACES && i != k ensures s[i] != s[k] {
        if i < n { assert s[..n][i] == s[i] && s[..n][k] == s[k]; }
      }
      PurgedAt(s, k, 0);
      FilterOne(s[..n], k);
      assert Filter(Entries(s), dead) == s[..n][..k] + s[..n][k + 1..];
      PullUpIs(s, n, k);
    } else {
      assert dead !in s[..n];
      forall i | 0 <= i < PLACES ensures s[i] != dead { if i < n { assert s[..n][i] == s[i]; } }
      PurgedAbsent(s, dead, 0);
      FilterAbsent(s[..n], dead);
    }
  }

  lemma PullUpIs(s: seq<Addr>, n: nat, k: nat)
    requires Compact(s, n) && Distinct(s[..n]) && k < n
    ensures var r := PullUp(s, k);
            ListOk(r) && Entries(r) == s[..n][..k] + s[..n][k + 1..] <==> !(n == PLACES && k < PLACES - 1)
  {
    var r := PullUp(s, k);
    if n == PLACES && k < PLACES - 1 {
      EntriesOf(r, PLACES);
    } else {
      assert Compact(r, n - 1);
      EntriesOf(r, n - 1);
      assert r[..n - 1] == s[..n][..k] + s[..n][k + 1..];
      var t := r[..n - 1];
      forall i, j | 0 <= i < j < n - 1 ensures t[i] != t[j] {
        assert s[..n][if i < k then i else i + 1] == r[i] && s[..n][if j < k then j else j + 1] == r[j];
      }
    }
  }

  // ------------------------------------------------------------------ adding a neighbour

  function FirstAt(s: seq<Addr>, a: Addr, i: nat := 0): (r: Option<nat>)
    requires i <= |s|
    ensures r.None? ==> forall k :: i <= k < |s| ==> s[k] != a
    ensures r.Some? ==> i <= r.value < |s| && s[r.value] == a && forall k :: i <= k < r.value ==> s[k] != a
    decreases |s| - i
  {
    if i == |s| then None else if s[i] == a then Some(i) else FirstAt(s, a, i + 1)
  }

  /** A known device not yet listed goes to the first blank place, if there is one. */
  function WithNeighbour(s: seq<Addr>, a: Addr): seq<Addr> {
    if a in s || FirstAt(s, 0).None? then s else s[FirstAt(s, 0).value := a]
  }

  /** It is then the last entry of the list, which stays compact and free of repeats; a full list stays as it is. */
  lemma WithNeighbourOk(s: seq<Addr>, a: Addr)
    requires ListOk(s) && a != 0
    ensures ListOk(WithNeighbour(s, a))
    ensures Entries(WithNeighbour(s, a)) ==
            if a !in Entries(s) && |Entries(s)| < PLACES then Entries(s) + [a] else Entries(s)
  {
    var n: nat :| Compact(s, n) && Distinct(s[..n]);
    EntriesOf(s, n);
    assert a in s <==> a in s[..n] by {
      if a in s {
        var i :| 0 <= i < |s| && s[i] == a;
        assert s[..n][i] == a;
      }
    }
    if a !in s && n < PLACES {
      assert s[n] == 0;
      assert FirstAt(s, 0) == Some(n);
      var r := s[n := a];
      assert Compact(r, n + 1) && r[..n + 1] == s[..n] + [a];
      EntriesOf(r, n + 1);
    }
  }

  // ------------------------------------------------------------------ the table

  /** nms_table_find, from row i on. */
  function FindRow(rows: seq<Row>, a: Addr, i: nat := 0): (r: Option<nat>)
    requires i <= |rows|
    ensures r.None? ==> forall k :: i <= k < |rows| ==> rows[k].addr != a
    ensures r.Some? ==>
              i <= r.value < |rows| && rows[r.value].addr == a && forall k :: i <= k < r.value ==> rows[k].addr != a
    decreases |rows| - i
  {
    if i == |rows| then None else if rows[i].addr == a then Some(i) else FindRow(rows, a, i + 1)
  }

  /** The dead node's own row is blanked first. */
  function DeadRow(r: Row): Row { r.(neighbours := BLANK, state := 0, uplink := BLANK) }

  function PurgedRow(r: Row, dead: Addr): Row requires |r.neighbours| == PLACES {
    r.(neighbours := Purged(r.neighbours, dead, 0), uplink := PurgedUplink(r.uplink, dead))
  }

  ghost predicate Sized(rows: seq<Row>) {
    |rows| == ROWS && forall i :: 0 <= i < ROWS ==> |rows[i].neighbours| == |rows[i].uplink| == PLACES
  }

  function PerrUpdated(rows: seq<Row>, dead: Addr): seq<Row>
    requires |rows| == ROWS && forall i :: 0 <= i < ROWS ==> |rows[i].neighbours| == |rows[i].uplink| == PLACES
  {
    var own := FindRow(rows, dead);
    seq(ROWS, i requires 0 <= i < ROWS && |rows[i].neighbours| == PLACES =>
      PurgedRow(if own == Some(i) then DeadRow(rows[i]) else rows[i], dead))
  }

  /** No place of any row but address columns names the dead node. */
  ghost predicate Forgotten(r: Row, dead: Addr) {
    dead !in r.neighbours && dead !in r.uplink
  }

  /**
   * The whole table: where every list is compact, free of repeats and not full, the dead node disappears from every
   * list and every uplink path; other rows keep the rest of their neighbours in order, and their uplink path unless
   * the dead node was on it; the dead node's own row is empty and marked dead.
   */
  lemma PerrUpdateExact(rows: seq<Row>, dead: Addr, i: nat)
    requires Sized(rows) && dead != 0 && i < ROWS && ListOk(rows[i].neighbours) && rows[i].neighbours[PLACES - 1] == 0
    ensures var r, r' := rows[i], PerrUpdated(rows, dead)[i];
            && r'.addr == r.addr && ListOk(r'.neighbours) && Forgotten(r', dead)
            && (if FindRow(rows, dead) == Some(i)
                then r'.state == 0 && Entries(r'.neighbours) == [] && r'.uplink == BLANK
                else r'.state == r.state && Entries(r'.neighbours) == Filter(Entries(r.neighbours), dead)
                     && r'.uplink == if dead in r.uplink then BLANK else r.uplink)
  {
    if FindRow(rows, dead) == Some(i) {
      BlankList();
      RowForgets(DeadRow(rows[i]), dead);
    } else {
      RowForgets(rows[i], dead);
    }
  }

  lemma RowForgets(r: Row, dead: Addr)
    requires ListOk(r.neighbours) && dead != 0 && r.neighbours[PLACES - 1] == 0
    ensures var r' := PurgedRow(r, dead);
            && r'.addr == r.addr && r'.state == r.state && ListOk(r'.neighbours) && Forgotten(r', dead)
            && Entries(r'.neighbours) == Filter(Entries(r.neighbours), dead)
            && r'.uplink == if dead in r.uplink then BLANK else r.uplink
  {
    PurgedList(r.neighbours, dead);
  }

  lemma BlankList()
    ensures ListOk(BLANK) && Entries(BLANK) == []
  {
    assert Compact(BLANK, 0) && BLANK[..0] == [];
    EntriesOf(BLANK, 0);
  }

  lemma PurgedList(l: seq<Addr>, dead: Addr)
    requires ListOk(l) && dead != 0 && l[PLACES - 1] == 0
    ensures var r := Purged(l, dead, 0); ListOk(r) && Entries(r) == Filter(Entries(l), dead) && dead !in r
  {
    var n: nat :| Compact(l, n) && Distinct(l[..n]);
    assert n < PLACES by { assert l[PLACES - 1] == 0; }
    PurgeIff(l, n, dead);
    var r := Purged(l, dead, 0);
    var m: nat :| Compact(r, m) && Distinct(r[..m]);
    EntriesOf(r, m);
    FilterDrops(Entries(l), dead);
    forall k | 0 <= k < |r| ensures r[k] != dead {
      if k < m { assert r[..m][k] == r[k]; }
    }
  }

  lemma {:induction false} FilterDrops(s: seq<Addr>, dead: Addr)
    ensures dead !in Filter(s, dead)
  {
    if s != [] { FilterDrops(s[1..], dead); }
  }

  // ------------------------------------------------------------------ the code

  class NmsTable {
    const rows: array<Row>

    /** nms_table_empty(12): blank rows, the first one the node itself. */
    constructor (me: Addr, channel: nat)
      ensures Valid() && fresh(rows) && rows[0] == Row(me, 1, channel, BLANK, BLANK)
      ensures forall i :: 1 <= i < ROWS ==> rows[i] == Row(0, 0, 0, BLANK, BLANK)
    {
      rows := new Row[ROWS](_ => Row(0, 0, 0, BLANK, BLANK));
      new;
      rows[0] := Row(me, 1, channel, BLANK, BLANK);
    }

    ghost predicate Valid()
      reads rows
    {
      Sized(rows[..])
    }

    method NmsTableFind(a: Addr) returns (r: Option<nat>)
      ensures r == FindRow(rows[..], a)
    {
      var i := 0;
      while i < rows.Length
        invariant 0 <= i <= rows.Length && FindRow(rows[..], a) == FindRow(rows[..], a, i)
      {
        if rows[i].addr == a { return Some(i); }
        i := i + 1;
      }
      return None;
    }

    /** Place j of row i: a dead uplink node blanks the path, a dead neighbour is removed and the rest moves up. */
    method PurgePlace(i: nat, j: nat, dead: Addr)
      requires Valid() && i < ROWS && j < PLACES
      modifies rows
      ensures Valid() && rows[..] == old(rows[..])[i := rows[i]]
      ensures var r := old(rows[i]);
              rows[i] == r.(uplink := if r.uplink[j] == dead then BLANK else r.uplink,
                            neighbours := if r.neighbours[j] == dead then PullUp(r.neighbours, j) else r.neighbours)
    {
      if rows[i].uplink[j] == dead {
        rows[i] := rows[i].(uplink := BLANK);
      }
      if rows[i].neighbours[j] == dead {
        var l := rows[i].neighbours[j := 0];
        if j != 7 {
          var tmp := l[j + 1..];
          l := l[..j] + tmp + [l[7]];
        }
        rows[i] := rows[i].(neighbours := l);
      }
    }

    /** One row: each place is looked at once, a removal shifting the rest up under the walk. */
    method PurgeRow(i: nat, dead: Addr)
      requires Valid() && i < ROWS
      modifies rows
      ensures Valid() && rows[..] == old(rows[..])[i := PurgedRow(old(rows[i]), dead)]
    {
      ghost var r := rows[i];
      var j := 0;
      while j < 8
        invariant 0 <= j <= 8 && Valid()
        invariant rows[..] == old(rows[..])[i := rows[i]]
        invariant rows[i] == r.(neighbours := rows[i].neighbours, uplink := rows[i].uplink)
        invariant Purged(r.neighbours, dead, 0) == Purged(rows[i].neighbours, dead, j)
        invariant rows[i].uplink == if dead in r.uplink[..j] then BLANK else r.uplink
      {
        assert r.uplink[..j + 1] == r.uplink[..j] + [r.uplink[j]];
        PurgePlace(i, j, dead);
        j := j + 1;
      }
      assert r.uplink[..8] == r.uplink;
    }

    method NmsTablePerrUpdate(dead: Addr)
      requires Valid()
      modifies rows
      ensures Valid() && rows[..] == PerrUpdated(old(rows[..]), dead)
    {
      ghost var old_ := rows[..];
      var own := NmsTableFind(dead);
      if own.Some? {
        rows[own.value] := rows[own.value].(neighbours := BLANK, state := 0, uplink := BLANK);
      }
      ghost var t := rows[..];
      var i := 0;
      while i < 12
        invariant 0 <= i <= 12 && Valid()
        invariant forall k :: 0 <= k < ROWS ==> rows[k] == if k < i then PurgedRow(t[k], dead) else t[k]
      {
        ghost var before := rows[..];
        PurgeRow(i, dead);
        forall k | 0 <= k < ROWS ensures rows[k] == if k < i + 1 then PurgedRow(t[k], dead) else t[k] {
          assert rows[k] == rows[..][k];
        }
        i := i + 1;
      }
    }

    /**
     * nms_table_update of row i; `devices` are the hard-coded addresses of mac_list. The source returns the place of
     * the neighbour, -1 for an unknown device, and no defined value for a full list without the neighbour.
     */
    method NmsTableUpdate(i: nat, neighbour: Addr, rch: nat, myChannel: nat, state: nat, isHello: bool,
                          devices: set<Addr>)
      returns (place: Option<int>)
      requires Valid() && i < ROWS
      modifies rows
      ensures Valid()
      ensures var r := old(rows[i]);
              rows[..] == old(rows[..])[i := r.(state := state, channel := if rch == 0 then myChannel else rch,
                uplink := if isHello then r.uplink[0 := r.addr] else r.uplink,
                neighbours := if neighbour in devices then WithNeighbour(r.neighbours, neighbour) else r.neighbours)]
      ensures neighbour !in devices ==> place == Some(-1)
      ensures neighbour in devices ==>
                match FirstAt(rows[i].neighbours, neighbour) case None => place == None case Some(j) => place == Some(j)
    {
      rows[i] := rows[i].(state := state);
      rows[i] := rows[i].(channel := if rch == 0 then myChannel else rch);
      if isHello { rows[i] := rows[i].(uplink := rows[i].uplink[0 := rows[i].addr]); }
      if neighbour !in devices { return Some(-1); }
      var l := rows[i].neighbours;
      var j := 0;
      while j < 8
        invariant 0 <= j <= 8 && forall k :: 0 <= k < j ==> l[k] != neighbour
      {
        if l[j] == neighbour { return Some(j); }
        j := j + 1;
      }
      j := 0;
      while j < 8
        invariant 0 <= j <= 8 && forall k :: 0 <= k < j ==> l[k] != 0
      {
        if l[j] == 0 {
          rows[i] := rows[i].(neighbours := l[j := neighbour]);
          return Some(j);
        }
        j := j + 1;
      }
      return None;
    }
  }
}
