/**
 * What each message handler and timer handler of wsm/aodv.c does to a node, as functions on values.
 * Module MeshNode holds the code in its own, imperative form and proves it equal to these functions.
 */
module Handlers {
  import opened Prelude
  import opened Messages
  import opened RouteTable

  /** One slot of tmp_preq: the request the root will answer when the slot's timer fires. */
  datatype Stored = Stored(used: bool, preq: Preq)

  /** The state of one node. `armed[i]` is route_select_timer[i].used. */
  datatype Node = Node(
    me: Addr, isRoot: bool, ip: nat,
    rt: seq<Route>, tmp: seq<Stored>, armed: seq<bool>,
    rootAddr: Addr, order: nat, rid: nat, metric: nat, rate: nat, channel: nat, reset: nat)

  /** Everything a handler reads that is not the node or the message: clock and stray memory. */
  datatype Env = Env(now: int, junk: int, past: seq<Addr>)

  // ------------------------------------------------------------------ blanking slots

  /** rt_table_empty on the slots in ks: the route is blanked and the stored request given up. */
  function Clear(n: Node, ks: set<nat>): Node
    requires |n.tmp| == |n.rt|
  {
    n.(rt := seq(|n.rt|, j requires 0 <= j < |n.rt| => if j in ks then EMPTY else n.rt[j]),
       tmp := seq(|n.tmp|, j requires 0 <= j < |n.tmp| => if j in ks then n.tmp[j].(used := false) else n.tmp[j]))
  }

  /** rt_table_empty(10), the routing half of rt_NMS_reset. */
  function ClearAll(n: Node): Node
    requires |n.tmp| == |n.rt|
  {
    n.(rt := seq(|n.rt|, _ => EMPTY),
       tmp := seq(|n.tmp|, j requires 0 <= j < |n.tmp| => n.tmp[j].(used := false)))
  }

  // ------------------------------------------------------------------ hello

  function HelloProcess(n: Node, h: Hello, now: int): Node {
    match First(n.rt, ByDest(h.orig))
    case None =>
      if h.ip != 0 then n.(rt := Insert(n.rt, Fresh(h.orig, h.orig, n.me, None, 1, h.ip, 1, 0, 0), now)) else n
    case Some(i) =>
      var e := n.rt[i];
      n.(rt := n.rt[i := e.(helloCnt := (e.helloCnt + 1) % TWO32, lastHello := now,
                             destIP := if e.destIP == 0 && h.ip != 0 then h.ip else e.destIP)])
  }

  function SchHelloProcess(n: Node, h: Hello, now: int): Node {
    match First(n.rt, ByDest(h.orig))
    case None => n
    case Some(i) =>
      var e := n.rt[i];
      n.(rt := n.rt[i := e.(schCnt := (e.schCnt + 1) % TWO32, heard := (e.heard + 1) % 256, lastHello := now)])
  }

  // ------------------------------------------------------------------ root announcement

  function AdoptMetric(n: Node, v: nat): Node requires |n.tmp| == |n.rt| {
    if v != n.metric && v != 0 then ClearAll(n.(metric := v)) else n
  }

  function AdoptChannel(n: Node, v: nat): Node requires |n.tmp| == |n.rt| {
    if v != n.channel && v != 0 then ClearAll(n.(channel := v)) else n
  }

  function AdoptRate(n: Node, v: nat): Node requires |n.tmp| == |n.rt| {
    if v != n.rate && v != 0 then ClearAll(n.(rate := v)) else n
  }

  /** A new announcer id starts a new epoch: order 0 and an empty table. */
  function JoinEpoch(n: Node, id: nat): Node requires |n.tmp| == |n.rt| {
    if id != n.rid then ClearAll(n.(rid := id, order := 0)) else n
  }

  function Adopt(n: Node, r: Rann): Node requires |n.tmp| == |n.rt| {
    var n1 := n.(order := r.order, rootAddr := r.orig);
    var n4 := AdoptRate(AdoptChannel(AdoptMetric(n1, r.metric), r.channel), r.rate);
    if r.reset == 1 then ClearAll(n4) else n4
  }

  /** Rann_ack_send: to the next hop of the node's own uplink, if that is a route of its own. */
  function AckOut(n: Node): seq<Out> {
    match First(n.rt, ByKey(n.rootAddr, n.me))
    case None => []
    case Some(i) =>
      var next := n.rt[i].next;
      if First(n.rt, ByDest(next)).None? then [] else [Unicast(next, RannAckMsg(n.me, next))]
  }

  /** Without an uplink of its own a node asks for one, otherwise it acknowledges. */
  function AnswerRann(n: Node): seq<Out> {
    if First(n.rt, ByKey(n.rootAddr, n.me)).None?
    then [Broadcast(PreqMsg(Preq(1, n.rootAddr, n.me, 4, n.order, n.ip, 0, [n.me])))]
    else AckOut(n)
  }

  predicate Accepts(n: Node, r: Rann) requires |n.tmp| == |n.rt| {
    r.order > JoinEpoch(n, r.id).order && !n.isRoot
  }

  function RannProcess(n: Node, r: Rann): (Node, seq<Out>) requires |n.tmp| == |n.rt| {
    var n0 := JoinEpoch(n, r.id);
    if Accepts(n, r) then
      var n5 := Adopt(n0, r);
      (n5, (if r.ttl > 1 then [Broadcast(RannMsg(r.(ttl := r.ttl - 1)))] else []) + AnswerRann(n5))
    else (n0, [])
  }

  // ------------------------------------------------------------------ acknowledgements and error reports

  /** The next hop towards the root for what originator s sends. */
  function NextHop(n: Node, s: Addr): Option<Addr> {
    match First(n.rt, ByKey(n.rootAddr, s)) case None => None case Some(i) => Some(n.rt[i].next)
  }

  /** Rann_ack_process: passed on by the node it names, if that node knows the originator. */
  function AckProcess(n: Node, orig: Addr, next: Addr): seq<Out> {
    if First(n.rt, ByDest(orig)).None? || n.me != next || n.isRoot || NextHop(n, orig).None? then [] else
    [Unicast(NextHop(n, orig).value, RannAckMsg(orig, NextHop(n, orig).value))]
  }

  /** Perr_unicast_process: passed on along the reporter's uplinks up to the root. */
  function ReportProcess(n: Node, timeout: Addr, reporter: Addr): seq<Out> {
    if n.isRoot || NextHop(n, reporter).None? then [] else
    [Unicast(NextHop(n, reporter).value, PerrUniMsg(timeout, reporter))]
  }

  // ------------------------------------------------------------------ path request

  /** The list positions the repeat check reads: 0, 1, 3, 6, ... */
  function Probe(i: nat): nat { if i == 0 then 0 else Probe(i - 1) + i }

  predicate RepeatHit(me: Addr, q: Preq, past: seq<Addr>) {
    exists i :: 0 <= i < q.hcnt && ExtAt(q.ext, past, Probe(i)) == me
  }

  /** ttl and hcnt are bytes: a ttl of 0 would wrap to 255 and be forwarded. */
  function PreqForward(me: Addr, q: Preq): seq<Out> {
    var ttl := (q.ttl + 255) % 256;
    if ttl == 0 then [] else [Broadcast(PreqMsg(q.(ttl := ttl, hcnt := (q.hcnt + 1) % 256, ext := q.ext + [me])))]
  }

  /** The metric grows by the link the request arrived on, when that link is known. */
  function AddLink(n: Node, src: Addr, q: Preq): Preq {
    match First(n.rt, ByDest(src))
    case None => q
    case Some(i) => q.(alm := (q.alm + n.rt[i].alm) % TWO32)
  }

  predicate Better(metric: nat, e: Route, q: Preq) {
    (metric == 1 && e.hcnt > q.hcnt) || (metric == 2 && q.alm > e.alm)
  }

  /** Does the root, holding route e for the originator, take the request over? */
  predicate Takes(metric: nat, e: Route, used: bool, q: Preq) {
    && e.hcnt != 1 && (metric == 1 || metric == 2)
    && (Better(metric, e, q) || (e.seqno < q.seqno && !used))
  }

  /** The root's half of Preq_process. The source ignores a full table here. */
  function RootPreq(n: Node, src: Addr, q: Preq, env: Env): Node
    requires |n.rt| == |n.tmp| == |n.armed|
    requires First(n.rt, ByDest(q.orig)).None? ==> First(n.rt, Free).Some?
  {
    match First(n.rt, ByDest(q.orig))
    case None =>
      var i := First(n.rt, Free).value;
      n.(rt := Insert(n.rt, Fresh(q.orig, src, n.me, None, q.hcnt, q.ip, 0, q.alm, q.seqno), env.now),
         tmp := n.tmp[i := Stored(true, q)], armed := n.armed[i := true])
    case Some(i) =>
      var e, k := n.rt[i], Last(n.rt, ByDest(q.orig), |n.rt|).value;
      if Takes(n.metric, e, n.tmp[k].used, q) then
        n.(rt := n.rt[i := Refresh(e, src, q.hcnt, q.alm, q.seqno, env.junk)],
           tmp := n.tmp[k := Stored(true, q)],
           armed := if n.tmp[k].used then n.armed else n.armed[k := true])
      else n
  }

  predicate PreqReady(n: Node, q: Preq) {
    n.me == q.dest && First(n.rt, ByDest(q.orig)).None? ==> First(n.rt, Free).Some?
  }

  function PreqProcess(n: Node, src: Addr, q: Preq, env: Env): (Node, seq<Out>)
    requires |n.rt| == |n.tmp| == |n.armed| && PreqReady(n, q)
  {
    var q1 := AddLink(n, src, q);
    if n.me == q.dest then (RootPreq(n, src, q1, env), [])
    else if RepeatHit(n.me, q, env.past) then (n, [])
    else (n, PreqForward(n.me, q1))
  }

  /** The selection timer of a slot fires: the stored request is answered. */
  function PrepFire(n: Node, slot: nat): (Node, seq<Out>)
    requires |n.rt| == |n.tmp| == |n.armed| && slot < |n.tmp|
    requires 1 <= n.tmp[slot].preq.hcnt <= |n.tmp[slot].preq.ext|
  {
    var q := n.tmp[slot].preq;
    var k := Last(n.rt, ByDest(q.orig), |n.rt|);
    (n.(armed := n.armed[slot := false],
        tmp := if k.Some? then n.tmp[k.value := n.tmp[k.value].(used := false)] else n.tmp),
     [Unicast(q.ext[q.hcnt - 1],
              PrepMsg(Prep(1, q.orig, n.rootAddr, q.ip, n.ip, q.seqno % 256, q.ext[..q.hcnt - 1])))])
  }

  // ------------------------------------------------------------------ path reply

  /** The source would follow a NULL pointer if the root itself received a reply for an unknown originator. */
  predicate PrepReady(n: Node, p: Prep) {
    n.me == p.orig ==> First(n.rt, ByKey(p.orig, p.dest)).Some?
  }

  function Uplink(n: Node, src: Addr, p: Prep, env: Env): Node {
    match First(n.rt, ByKey(p.orig, p.dest))
    case None =>
      var prev := if |p.ext| > 0 then Some(p.ext[|p.ext| - 1]) else None;
      n.(rt := Insert(n.rt, Fresh(p.orig, src, p.dest, prev, p.hcnt, p.origIP, 0, 0, p.seqno), env.now))
    case Some(i) =>
      n.(rt := n.rt[i := Refresh(n.rt[i], src, p.hcnt, 0, p.seqno, env.junk)])
  }

  /** The downlink's next hop is read at 2*(ext_length-1), inside the list only when ext_length is 1. */
  function Downlink(n: Node, src: Addr, p: Prep, env: Env): Node
    requires |p.ext| > 0
  {
    if First(n.rt, ByDest(p.dest)).Some? then n else
    n.(rt := Insert(n.rt, Fresh(p.dest, ExtAt(p.ext, env.past, 2 * (|p.ext| - 1)), p.orig, Some(src),
                                |p.ext|, p.destIP, 0, 0, 0), env.now))
  }

  function PrepForward(p: Prep): seq<Out>
    requires |p.ext| > 0
  {
    if p.ext[0] == 0 then [] else
    [Unicast(p.ext[|p.ext| - 1], PrepMsg(p.(hcnt := (p.hcnt + 1) % 256, ext := p.ext[..|p.ext| - 1])))]
  }

  function PrepProcess(n: Node, src: Addr, p: Prep, env: Env): (Node, seq<Out>)
    requires PrepReady(n, p)
  {
    var n1 := Uplink(n, src, p, env);
    if |p.ext| == 0 then (n1, []) else (Downlink(n1, src, p, env), PrepForward(p))
  }

  // ------------------------------------------------------------------ path error

  /** The route itself is the broken uplink of the node that reported: it is passed on. */
  predicate PerrEchoes(e: Route, rootAddr: Addr, p: Perr) {
    p.timeout != p.dest && e.next == p.dest && e.dest == rootAddr
  }

  predicate Names(e: Route, a: Addr) {
    e.next == a || e.source == a || e.prev == a
  }

  predicate PerrKills(e: Route, rootAddr: Addr, p: Perr) {
    if p.timeout == p.dest || e.next != p.dest then e.dest == p.timeout || Names(e, p.timeout)
    else e.dest == rootAddr
  }

  /** How many of the first i slots make the node pass the error on. */
  function EchoCount(t: seq<Route>, rootAddr: Addr, p: Perr, i: nat): (c: nat)
    requires i <= |t|
  {
    if i == 0 then 0 else EchoCount(t, rootAddr, p, i - 1) + if PerrEchoes(t[i - 1], rootAddr, p) then 1 else 0
  }

  function Repeat(o: Out, k: nat): seq<Out> { seq(k, _ => o) }

  function PerrVictims(t: seq<Route>, rootAddr: Addr, p: Perr): set<nat> {
    set j: nat | j < |t| && PerrKills(t[j], rootAddr, p)
  }

  function PerrProcess(n: Node, p: Perr): (Node, seq<Out>)
    requires |n.rt| == |n.tmp|
  {
    (Clear(n, PerrVictims(n.rt, n.rootAddr, p)),
     Repeat(Broadcast(PerrMsg(Perr(p.timeout, n.me))), EchoCount(n.rt, n.rootAddr, p, |n.rt|)))
  }

  // ------------------------------------------------------------------ hello timeout

  predicate Expired(e: Route, now: int, limit: int) {
    e.helloCnt > 0 && now - e.lastHello > limit
  }

  /** Slot i and every slot that names its neighbour. */
  function Doomed(t: seq<Route>, i: nat): set<nat>
    requires i < |t|
  {
    set j: nat | j < |t| && (j == i || Names(t[j], t[i].dest))
  }

  function Purge(n: Node, i: nat): Node
    requires |n.rt| == |n.tmp| && i < |n.rt|
  {
    Clear(n, Doomed(n.rt, i))
  }

  /** Did an uplink run through the neighbour of slot i? */
  predicate UplinkLost(n: Node, i: nat)
    requires i < |n.rt|
  {
    exists j :: 0 <= j < |n.rt| && j != i && n.rt[j].next == n.rt[i].dest && n.rt[j].dest == n.rootAddr
  }

  function TimeoutOuts(n: Node, i: nat): seq<Out>
    requires |n.rt| == |n.tmp| && i < |n.rt|
  {
    var dead := n.rt[i].dest;
    [Broadcast(PerrMsg(Perr(dead, dead)))]
    + (if UplinkLost(n, i) then [Broadcast(PerrMsg(Perr(dead, n.me)))] else [])
    + (if !n.isRoot && First(Purge(n, i).rt, ByKey(n.rootAddr, n.me)).Some?
       then [Broadcast(PerrUniMsg(dead, n.me))] else [])
  }

  /** Hello_timeout_process from slot i on. */
  function HelloTimeout(n: Node, now: int, limit: int, i: nat := 0): (Node, seq<Out>)
    requires |n.rt| == |n.tmp| && i <= |n.rt|
    decreases |n.rt| - i
  {
    if i == |n.rt| then (n, [])
    else
      var (n1, o1) := if Expired(n.rt[i], now, limit) then (Purge(n, i), TimeoutOuts(n, i)) else (n, []);
      var (n2, o2) := HelloTimeout(n1, now, limit, i + 1);
      (n2, o1 + o2)
  }

  // ------------------------------------------------------------------ link quality

  /** sch_hello_check on one slot: the next of the ten samples is written. */
  function Sample(e: Route): Route
    requires |e.hits| == 10 && e.hitPos < 10
  {
    if e.schCnt == 0 then e else
    e.(hits := e.hits[e.hitPos := if e.heard > 0 then 1 else 0],
       hitPos := if e.hitPos + 1 >= 10 then 0 else e.hitPos + 1, heard := 0)
  }

  function SumTo(s: seq<nat>, n: nat): nat
    requires n <= |s|
  {
    if n == 0 then 0 else SumTo(s, n - 1) + s[n - 1]
  }

  /** alm_calculator on one slot. A clock set back gives a negative `diff`: the loop adds nothing. */
  function Score(e: Route, now: int): Route
    requires |e.hits| == 10
  {
    if e.schCnt == 0 || e.hcnt != 1 then e else
    var diff := now - e.firstHello;
    var alm := if diff < 10 && diff != 0 then (if diff < 0 then 0 else SumTo(e.hits, diff) * 100 / diff)
               else SumTo(e.hits, 10) * 100 / 10;
    e.(almNext := alm, alm := alm)
  }

  function LinkCheck(n: Node): Node
    requires forall i :: 0 <= i < |n.rt| ==> |n.rt[i].hits| == 10 && n.rt[i].hitPos < 10
  {
    n.(rt := seq(|n.rt|, i requires 0 <= i < |n.rt| => Sample(n.rt[i])))
  }

  function LinkScore(n: Node, now: int): Node
    requires forall i :: 0 <= i < |n.rt| ==> |n.rt[i].hits| == 10
  {
    n.(rt := seq(|n.rt|, i requires 0 <= i < |n.rt| => Score(n.rt[i], now)))
  }

  // ------------------------------------------------------------------ the root's own announcements

  /** Rann_send: the order grows by one and the pending reset request is used up. */
  function RannSend(n: Node): (Node, seq<Out>) {
    (n.(order := n.order + 1, reset := 0),
     [Broadcast(RannMsg(Rann(n.me, n.order + 1, 3, n.metric, n.rate, n.channel, n.reset, n.rid)))])
  }
}
