/**
 * What a message does to the node that receives it, slot by slot and field by field, told in the table's own terms:
 * which slots change and to what, which stay, and what is sent. Nothing here mentions how the handlers compute it.
 */
module Effects {
  import opened Prelude
  import opened Messages
  import opened RouteTable
  import opened Handlers
  import opened NodeInvariants
  import opened Network

  // ------------------------------------------------------------------ places in a table

  /** Slot i is the first one in use for destination d. */
  predicate Leading(t: seq<Route>, i: nat, d: Addr) {
    i < |t| && t[i].valid && t[i].dest == d && forall k :: 0 <= k < i ==> !(t[k].valid && t[k].dest == d)
  }

  predicate Unknown(t: seq<Route>, d: Addr) { forall k :: 0 <= k < |t| ==> !(t[k].valid && t[k].dest == d) }

  /** Slot i is the first one in use for destination d and source s. */
  predicate LeadingFor(t: seq<Route>, i: nat, d: Addr, s: Addr) {
    && i < |t| && t[i].valid && t[i].dest == d && t[i].source == s
    && forall k :: 0 <= k < i ==> !(t[k].valid && t[k].dest == d && t[k].source == s)
  }

  predicate Routeless(t: seq<Route>, d: Addr, s: Addr) {
    forall k :: 0 <= k < |t| ==> !(t[k].valid && t[k].dest == d && t[k].source == s)
  }

  /** Slot i is the first free one. */
  predicate Vacant(t: seq<Route>, i: nat) {
    i < |t| && !t[i].valid && forall k :: 0 <= k < i ==> t[k].valid
  }

  /** Slot i is the second free one. */
  predicate NextVacant(t: seq<Route>, i: nat) {
    i < |t| && !t[i].valid && exists j :: 0 <= j < i && !t[j].valid && forall k :: 0 <= k < i && k != j ==> t[k].valid
  }

  predicate FreeAreBlank(t: seq<Route>) { forall k :: 0 <= k < |t| && !t[k].valid ==> t[k] == EMPTY }

  predicate Full(t: seq<Route>) { forall k :: 0 <= k < |t| ==> t[k].valid }

  /** Only slot i has changed. */
  predicate Only(t: seq<Route>, t': seq<Route>, i: nat) {
    |t'| == |t| && forall k :: 0 <= k < |t| && k != i ==> t'[k] == t[k]
  }

  /** A counter of that many values. */
  function Bumped(x: nat, values: nat): nat requires values > 0 { (x + 1) % values }

  // ------------------------------------------------------------------ hello

  /**
   * A hello from a known neighbour: its first slot counts the hello, notes the time, so that it is not overdue, and
   * learns a missing IP address. Nothing else changes, nothing is sent.
   */
  lemma HelloHeard(n: Node, src: Addr, h: Hello, env: Env, i: nat)
    requires |n.rt| == |n.tmp| == |n.armed| && Leading(n.rt, i, h.orig)
    ensures var (n', outs) := Receive(n, src, HelloMsg(h), env);
            && outs == [] && n' == n.(rt := n'.rt) && Only(n.rt, n'.rt, i)
            && n'.rt[i] == n.rt[i].(helloCnt := Bumped(n.rt[i].helloCnt, 0x1_0000_0000), lastHello := env.now,
                                    destIP := if n.rt[i].destIP == 0 then h.ip else n.rt[i].destIP)
  {
  }

  /** A hello from an unknown neighbour with an IP address takes the first free slot for a route of one hop. */
  lemma HelloNew(n: Node, src: Addr, h: Hello, env: Env, i: nat)
    requires |n.rt| == |n.tmp| == |n.armed| && Unknown(n.rt, h.orig) && h.ip != 0
    requires Vacant(n.rt, i) && FreeAreBlank(n.rt)
    ensures var (n', outs) := Receive(n, src, HelloMsg(h), env);
            && outs == [] && n' == n.(rt := n'.rt) && Only(n.rt, n'.rt, i)
            && n'.rt[i] == EMPTY.(dest := h.orig, next := h.orig, source := n.me, hcnt := 1, valid := true,
                                  destIP := h.ip, helloCnt := 1, firstHello := env.now, lastHello := env.now)
  {
  }

  /** Without an address, or with the table full, it changes nothing. */
  lemma HelloIgnored(n: Node, src: Addr, h: Hello, env: Env)
    requires |n.rt| == |n.tmp| == |n.armed| && Unknown(n.rt, h.orig) && (h.ip == 0 || Full(n.rt))
    ensures Receive(n, src, HelloMsg(h), env) == (n, [])
  {
  }

  /** A hello on the second channel keeps a known neighbour alive and is counted for the quality of its link. */
  lemma SchHelloHeard(n: Node, src: Addr, h: Hello, env: Env, i: nat)
    requires |n.rt| == |n.tmp| == |n.armed| && Leading(n.rt, i, h.orig)
    ensures var (n', outs) := Receive(n, src, SchHelloMsg(h), env);
            && outs == [] && n' == n.(rt := n'.rt) && Only(n.rt, n'.rt, i)
            && n'.rt[i] == n.rt[i].(schCnt := Bumped(n.rt[i].schCnt, 0x1_0000_0000),
                                    heard := Bumped(n.rt[i].heard, 256), lastHello := env.now)
  {
  }

  lemma SchHelloIgnored(n: Node, src: Addr, h: Hello, env: Env)
    requires |n.rt| == |n.tmp| == |n.armed| && Unknown(n.rt, h.orig)
    ensures Receive(n, src, SchHelloMsg(h), env) == (n, [])
  {
  }

  // ------------------------------------------------------------------ root announcement

  /** The announcement names another value, and one that is not 0. */
  predicate Other(mine: nat, told: nat) { told != 0 && told != mine }

  /** It is new to a node that is not the root; with another id every order above 0 is. */
  predicate News(n: Node, r: Rann) { !n.isRoot && r.order > if r.id == n.rid then n.order else 0 }

  predicate Resets(n: Node, r: Rann) {
    Other(n.metric, r.metric) || Other(n.channel, r.channel) || Other(n.rate, r.rate) || r.reset == 1
  }

  /** It makes the node forget its routes. */
  predicate Wipes(n: Node, r: Rann) {
    || r.id != n.rid
    || (News(n, r) && Resets(n, r))
  }

  function Chosen(mine: nat, told: nat): nat { if told == 0 then mine else told }

  /** Every slot is blank and every stored request given up, or both are as before. */
  predicate Forgotten(n: Node, n': Node, all: bool) {
    && |n'.rt| == |n.rt| && |n'.tmp| == |n.tmp|
    && (forall i :: 0 <= i < |n.rt| ==> n'.rt[i] == if all then EMPTY else n.rt[i])
    && (forall i :: 0 <= i < |n.tmp| ==> n'.tmp[i] == if all then Stored(false, n.tmp[i].preq) else n.tmp[i])
  }

  /**
   * An announcement makes the node forget its routes exactly if another id, another setting or the reset flag says so;
   * order, root and settings are taken over exactly if it is new.
   */
  lemma RannEffect(n: Node, src: Addr, r: Rann, env: Env)
    requires |n.rt| == |n.tmp| == |n.armed|
    ensures var n' := Receive(n, src, RannMsg(r), env).0; var news := News(n, r);
            && Forgotten(n, n', Wipes(n, r))
            && n'.rid == r.id && n'.order == (if news then r.order else if r.id == n.rid then n.order else 0)
            && n'.rootAddr == (if news then r.orig else n.rootAddr)
            && n'.metric == (if news then Chosen(n.metric, r.metric) else n.metric)
            && n'.channel == (if news then Chosen(n.channel, r.channel) else n.channel)
            && n'.rate == (if news then Chosen(n.rate, r.rate) else n.rate)
            && n'.me == n.me && n'.isRoot == n.isRoot && n'.ip == n.ip && n'.armed == n.armed && n'.reset == n.reset
  {
    var n0 := JoinEpoch(n, r.id);
    assert Forgotten(n, n0, r.id != n.rid);
    if News(n, r) { Adopting(n0, r); }
  }

  lemma Adopting(n: Node, r: Rann)
    requires |n.rt| == |n.tmp|
    ensures Forgotten(n, Adopt(n, r), Resets(n, r))
    ensures Adopt(n, r) == n.(order := r.order, rootAddr := r.orig, metric := Chosen(n.metric, r.metric),
                              channel := Chosen(n.channel, r.channel), rate := Chosen(n.rate, r.rate),
                              rt := Adopt(n, r).rt, tmp := Adopt(n, r).tmp)
  {
    var n1 := n.(order := r.order, rootAddr := r.orig);
    var n2 := AdoptMetric(n1, r.metric);
    assert Forgotten(n, n2, Other(n.metric, r.metric));
    var n3 := AdoptChannel(n2, r.channel);
    assert Forgotten(n, n3, Other(n.metric, r.metric) || Other(n.channel, r.channel));
    var n4 := AdoptRate(n3, r.rate);
    assert Forgotten(n, n4, Other(n.metric, r.metric) || Other(n.channel, r.channel) || Other(n.rate, r.rate));
  }

  /** What a node without an uplink of its own asks for after an announcement. */
  function AskFor(n: Node, r: Rann): Out {
    Broadcast(PreqMsg(Preq(1, r.orig, n.me, 4, r.order, n.ip, 0, [n.me])))
  }

  function PassedOn(r: Rann): seq<Out> {
    if r.ttl > 1 then [Broadcast(RannMsg(r.(ttl := r.ttl - 1)))] else []
  }

  /**
   * A new announcement is passed on while its ttl is above 1; then a node without an uplink of its own, in particular
   * one that has just forgotten its routes, asks for one. Nothing answers an announcement that is not new.
   */
  lemma RannAsks(n: Node, src: Addr, r: Rann, env: Env)
    requires |n.rt| == |n.tmp| == |n.armed|
    ensures var outs := Receive(n, src, RannMsg(r), env).1;
            && (!News(n, r) ==> outs == [])
            && (News(n, r) && (Wipes(n, r) || Routeless(n.rt, r.orig, n.me)) ==> outs == PassedOn(r) + [AskFor(n, r)])
  {
    RannEffect(n, src, r, env);
  }

  /** A node that keeps an uplink of its own acknowledges to its next hop, if it has a route to that node. */
  lemma RannAcknowledged(n: Node, src: Addr, r: Rann, env: Env, i: nat)
    requires |n.rt| == |n.tmp| == |n.armed| && News(n, r) && !Wipes(n, r) && LeadingFor(n.rt, i, r.orig, n.me)
    ensures Receive(n, src, RannMsg(r), env).1 == PassedOn(r) +
              if Unknown(n.rt, n.rt[i].next) then [] else [Unicast(n.rt[i].next, RannAckMsg(n.me, n.rt[i].next))]
  {
    RannEffect(n, src, r, env);
    assert Receive(n, src, RannMsg(r), env).0.rt == n.rt;
  }

  // ------------------------------------------------------------------ path request

  /** v is u with the quality of the link to src added, as 32-bit numbers; an unknown link adds nothing. */
  predicate Grown(t: seq<Route>, src: Addr, u: nat, v: nat) {
    && (Unknown(t, src) ==> v == u)
    && (forall i: nat :: i < |t| && Leading(t, i, src) ==> v == (u + t[i].alm) % 0x1_0000_0000)
  }

  /** The node stands in the list of the request at position 0, 1, 3 or 6, as far as the repeat check looks. */
  predicate Seen(me: Addr, q: Preq, past: seq<Addr>) {
    exists i :: 0 <= i < q.hcnt && ExtAt(q.ext, past, Triangle(i)) == me
  }

  function Triangle(i: nat): nat { i * (i + 1) / 2 }

  lemma {:induction false} ProbeIs(i: nat)
    ensures Probe(i) == Triangle(i)
  {
    if i > 0 {
      ProbeIs(i - 1);
      assert i * (i + 1) == (i - 1) * i + 2 * i;
    }
  }

  lemma SeenIs(me: Addr, q: Preq, past: seq<Addr>)
    ensures RepeatHit(me, q, past) <==> Seen(me, q, past)
  {
    forall i: nat ensures Probe(i) == Triangle(i) { ProbeIs(i); }
  }

  /**
   * A request at a node it is not for changes nothing. It is dropped if the check finds the node in it or its ttl
   * runs out, and is otherwise broadcast once, one hop longer, with the node behind its list and the link added.
   */
  lemma RequestForwarded(n: Node, src: Addr, q: Preq, env: Env, v: nat)
    requires |n.rt| == |n.tmp| == |n.armed| && n.me != q.dest && q.ttl < 256 && q.hcnt < 256
    requires Grown(n.rt, src, q.alm, v)
    ensures var ttl := if q.ttl == 0 then 255 else q.ttl - 1; var hcnt := if q.hcnt == 255 then 0 else q.hcnt + 1;
            Receive(n, src, PreqMsg(q), env) ==
            (n, if Seen(n.me, q, env.past) || q.ttl == 1 then [] else
                [Broadcast(PreqMsg(Preq(hcnt, q.dest, q.orig, ttl, q.seqno, q.ip, v, q.ext + [n.me])))])
  {
    SeenIs(n.me, q, env.past);
    GrownIs(n, src, q, v);
    OneLonger(n.me, q.(alm := v));
  }

  lemma GrownIs(n: Node, src: Addr, q: Preq, v: nat)
    requires Grown(n.rt, src, q.alm, v)
    ensures AddLink(n, src, q) == q.(alm := v)
  {
  }

  lemma OneLonger(me: Addr, q: Preq)
    requires q.ttl < 256 && q.hcnt < 256
    ensures var ttl := if q.ttl == 0 then 255 else q.ttl - 1; var hcnt := if q.hcnt == 255 then 0 else q.hcnt + 1;
            PreqForward(me, q) == if q.ttl == 1 then [] else
              [Broadcast(PreqMsg(Preq(hcnt, q.dest, q.orig, ttl, q.seqno, q.ip, q.alm, q.ext + [me])))]
  {
  }

  /** The first request of an originator takes the first free slot of the root, is stored and arms the slot's timer. */
  lemma RequestNew(n: Node, src: Addr, q: Preq, env: Env, v: nat, i: nat)
    requires |n.rt| == |n.tmp| == |n.armed| && n.me == q.dest && Grown(n.rt, src, q.alm, v)
    requires Unknown(n.rt, q.orig) && Vacant(n.rt, i) && FreeAreBlank(n.rt)
    ensures var (n', outs) := Receive(n, src, PreqMsg(q), env);
            && outs == [] && n' == n.(rt := n'.rt, tmp := n'.tmp, armed := n'.armed) && Only(n.rt, n'.rt, i)
            && n'.rt[i] == EMPTY.(dest := q.orig, next := src, source := n.me, hcnt := q.hcnt, valid := true,
                                  destIP := q.ip, alm := v, seqno := q.seqno,
                                  firstHello := env.now, lastHello := env.now)
            && n'.tmp == n.tmp[i := Stored(true, q.(alm := v))] && n'.armed == n.armed[i := true]
  {
  }

  /** What makes the root take over a request for an originator it has route e for; v is the metric it came with. */
  predicate TakenOver(metric: nat, e: Route, pending: bool, q: Preq, v: nat) {
    && e.hcnt != 1
    && match metric
       case 1 => q.hcnt < e.hcnt || (!pending && q.seqno > e.seqno)
       case 2 => v > e.alm || (!pending && q.seqno > e.seqno)
       case _ => false
  }

  /**
   * A later request replaces route and stored request if it is better under the metric, or newer with no window open;
   * a window that is not open opens. Otherwise nothing changes.
   */
  lemma RequestAgain(n: Node, src: Addr, q: Preq, env: Env, v: nat, i: nat)
    requires |n.rt| == |n.tmp| == |n.armed| && n.me == q.dest && Grown(n.rt, src, q.alm, v)
    requires DestUnique(n.rt) && Leading(n.rt, i, q.orig)
    ensures var (n', outs) := Receive(n, src, PreqMsg(q), env); var e := n.rt[i];
            && outs == []
            && if TakenOver(n.metric, e, n.tmp[i].used, q, v)
               then && n' == n.(rt := n'.rt, tmp := n'.tmp, armed := n'.armed) && Only(n.rt, n'.rt, i)
                    && n'.rt[i] == e.(next := src, hcnt := q.hcnt, alm := v, seqno := q.seqno, lastHello := env.junk)
                    && n'.tmp == n.tmp[i := Stored(true, q.(alm := v))]
                    && n'.armed == n.armed[i := n.tmp[i].used ==> n.armed[i]]
               else n' == n
  {
    GrownIs(n, src, q, v);
    Weighed(n, src, q.(alm := v), env, i);
  }

  lemma Weighed(n: Node, src: Addr, q: Preq, env: Env, i: nat)
    requires |n.rt| == |n.tmp| == |n.armed| && DestUnique(n.rt) && Leading(n.rt, i, q.orig)
    ensures var n', e := RootPreq(n, src, q, env), n.rt[i];
            if TakenOver(n.metric, e, n.tmp[i].used, q, q.alm)
            then && n'.rt == n.rt[i := e.(next := src, hcnt := q.hcnt, alm := q.alm, seqno := q.seqno,
                                          lastHello := env.junk)]
                 && n' == n.(rt := n'.rt, tmp := n.tmp[i := Stored(true, q)], armed := n'.armed)
                 && n'.armed == n.armed[i := n.tmp[i].used ==> n.armed[i]]
            else n' == n
  {
    FirstIsLast(n.rt, q.orig);
  }

  // ------------------------------------------------------------------ path reply

  /** The slot a reply takes for the way to the root. */
  function UpSlot(src: Addr, p: Prep, now: int): Route {
    EMPTY.(dest := p.orig, next := src, source := p.dest, prev := if p.ext == [] then 0 else p.ext[|p.ext| - 1],
           hcnt := p.hcnt, valid := true, destIP := p.origIP, seqno := p.seqno, firstHello := now, lastHello := now)
  }

  /** The slot it takes for the way to the originator; `next` is what the source finds at its doubled offset. */
  function DownSlot(src: Addr, p: Prep, next: Addr, now: int): Route {
    EMPTY.(dest := p.dest, next := next, source := p.orig, prev := src,
           hcnt := |p.ext|, valid := true, destIP := p.destIP, firstHello := now, lastHello := now)
  }

  /** The way to the originator is wanted: there are nodes left to visit and no slot is in use for it. */
  predicate WantsDown(t: seq<Route>, p: Prep) { p.ext != [] && p.dest != p.orig && Unknown(t, p.dest) }

  /** The uplink slot is there already: it is renewed, and a downlink goes to the first free slot. */
  lemma ReplyRenews(n: Node, src: Addr, p: Prep, env: Env, i: nat)
    requires |n.rt| == |n.tmp| == |n.armed| && LeadingFor(n.rt, i, p.orig, p.dest)
    requires FreeAreBlank(n.rt)
    ensures var n' := Receive(n, src, PrepMsg(p), env).0;
            && n' == n.(rt := n'.rt) && |n'.rt| == |n.rt|
            && forall j :: 0 <= j < |n.rt| ==>
                 n'.rt[j] ==
                 if j == i then n.rt[i].(next := src, hcnt := p.hcnt, alm := 0, seqno := p.seqno, lastHello := env.junk)
                 else if WantsDown(n.rt, p) && Vacant(n.rt, j)
                 then DownSlot(src, p, ExtAt(p.ext, env.past, 2 * |p.ext| - 2), env.now)
                 else n.rt[j]
  {
  }

  /** Once the first free slot is taken, the second is the first. */
  lemma OneTaken(t: seq<Route>, i: nat, e: Route, j: nat)
    requires Vacant(t, i) && e.valid
    ensures Vacant(t[i := e], j) <==> NextVacant(t, j)
  {
    if NextVacant(t, j) {
      var m :| 0 <= m < j && !t[m].valid && forall k :: 0 <= k < j && k != m ==> t[k].valid;
      assert m == i;
    }
    if Vacant(t[i := e], j) {
      assert i < j;
      forall k | 0 <= k < j && k != i ensures t[k].valid { assert t[i := e][k].valid; }
    }
  }

  /** It is not: the uplink takes the first free slot, if any, and a downlink the second. */
  lemma ReplyInstalls(n: Node, src: Addr, p: Prep, env: Env)
    requires |n.rt| == |n.tmp| == |n.armed| && n.me != p.orig && Routeless(n.rt, p.orig, p.dest)
    requires FreeAreBlank(n.rt)
    ensures var n' := Receive(n, src, PrepMsg(p), env).0;
            && n' == n.(rt := n'.rt) && |n'.rt| == |n.rt|
            && forall j :: 0 <= j < |n.rt| ==>
                 n'.rt[j] ==
                 if Vacant(n.rt, j) then UpSlot(src, p, env.now)
                 else if WantsDown(n.rt, p) && NextVacant(n.rt, j)
                 then DownSlot(src, p, ExtAt(p.ext, env.past, 2 * |p.ext| - 2), env.now)
                 else n.rt[j]
  {
    var n1 := Uplink(n, src, p, env);
    if First(n.rt, Free).Some? {
      var i := First(n.rt, Free).value;
      UpTaken(n, src, p, env, i);
      forall j | 0 <= j < |n.rt| ensures Vacant(n1.rt, j) <==> NextVacant(n.rt, j) { OneTaken(n.rt, i, n1.rt[i], j); }
    }
    if p.ext != [] { DownTaken(n1, src, p, env); }
  }

  lemma UpTaken(n: Node, src: Addr, p: Prep, env: Env, i: nat)
    requires Routeless(n.rt, p.orig, p.dest) && Vacant(n.rt, i) && FreeAreBlank(n.rt)
    ensures Uplink(n, src, p, env) == n.(rt := n.rt[i := UpSlot(src, p, env.now)])
    ensures Unknown(n.rt[i := UpSlot(src, p, env.now)], p.dest) <==> p.dest != p.orig && Unknown(n.rt, p.dest)
  {
    var t := n.rt[i := UpSlot(src, p, env.now)];
    assert t[i].valid && t[i].dest == p.orig;
    if p.dest != p.orig && Unknown(n.rt, p.dest) { assert Unknown(t, p.dest); }
    if Unknown(t, p.dest) {
      forall k | 0 <= k < |n.rt| ensures !(n.rt[k].valid && n.rt[k].dest == p.dest) {
        assert k != i ==> t[k] == n.rt[k];
      }
    }
  }

  lemma DownTaken(n: Node, src: Addr, p: Prep, env: Env)
    requires p.ext != [] && FreeAreBlank(n.rt)
    ensures var n' := Downlink(n, src, p, env);
            && n' == n.(rt := n'.rt) && |n'.rt| == |n.rt|
            && forall j :: 0 <= j < |n.rt| ==>
                 n'.rt[j] ==
                 if Unknown(n.rt, p.dest) && Vacant(n.rt, j)
                 then DownSlot(src, p, ExtAt(p.ext, env.past, 2 * |p.ext| - 2), env.now) else n.rt[j]
  {
  }

  /**
   * What is sent: the reply itself, one hop longer, to the last node of the list, unless none is left to visit
   * (or the list begins with the blank address).
   */
  lemma ReplySent(n: Node, src: Addr, p: Prep, env: Env)
    requires |n.rt| == |n.tmp| == |n.armed| && Ready(n, PrepMsg(p))
    ensures Receive(n, src, PrepMsg(p), env).1 ==
            if p.ext == [] || p.ext[0] == 0 then [] else
              var k, hcnt := |p.ext| - 1, Bumped(p.hcnt, 256);
              [Unicast(p.ext[k], PrepMsg(Prep(hcnt, p.dest, p.orig, p.destIP, p.origIP, p.seqno, p.ext[..k])))]
  {
  }

  /** There is a slot for a downlink: a free one that the uplink does not take. */
  predicate RoomLeft(t: seq<Route>, p: Prep) {
    if Routeless(t, p.orig, p.dest) then exists j :: 0 <= j < |t| && NextVacant(t, j)
    else exists j :: 0 <= j < |t| && Vacant(t, j)
  }

  /**
   * Main theorem on replies at a relay: no slot in use changes but the one for the reply's own uplink, so a route to
   * the originator that is there stays as it is; a new one appears exactly if there was none, some node is left to
   * visit and a slot is left.
   */
  lemma ReplyKeepsRoutes(n: Node, src: Addr, p: Prep, env: Env)
    requires |n.rt| == |n.tmp| == |n.armed| && Ready(n, PrepMsg(p)) && FreeAreBlank(n.rt)
    requires Keyed(n.rt)
    ensures var t, t' := n.rt, Receive(n, src, PrepMsg(p), env).0.rt;
            && |t'| == |t|
            && (forall j :: 0 <= j < |t| && t[j].valid && !(t[j].dest == p.orig && t[j].source == p.dest) ==>
                  t'[j] == t[j])
            && (p.dest != p.orig ==>
                  ((exists j :: 0 <= j < |t| && !t[j].valid && t'[j].valid && t'[j].dest == p.dest) <==>
                   p.ext != [] && Unknown(t, p.dest) && RoomLeft(t, p)))
  {
    if Routeless(n.rt, p.orig, p.dest) {
      ReplyInstalls(n, src, p, env);
    } else {
      ReplyRenews(n, src, p, env, First(n.rt, ByKey(p.orig, p.dest)).value);
    }
  }

  // ------------------------------------------------------------------ path error

  /** The route leads to d, or through it. */
  predicate Mentions(e: Route, d: Addr) { e.dest == d || e.next == d || e.source == d || e.prev == d }

  /** A route to the root by way of the node that reported another one dead. */
  predicate Severed(e: Route, rootAddr: Addr, p: Perr) {
    p.timeout != p.dest && e.next == p.dest && e.dest == rootAddr
  }

  function SeveredSlots(t: seq<Route>, rootAddr: Addr, p: Perr, i: nat): set<nat> {
    set j: nat | j < i && j < |t| && Severed(t[j], rootAddr, p)
  }

  /**
   * An error message blanks the routes it severs, and those that mention the dead node unless they run through the
   * reporter of another's death, which will see to them itself; all others stay. Each severed route is reported on.
   */
  lemma PerrEffect(n: Node, src: Addr, p: Perr, env: Env)
    requires |n.rt| == |n.tmp| == |n.armed|
    ensures var (n', outs) := Receive(n, src, PerrMsg(p), env);
            && n' == n.(rt := n'.rt, tmp := n'.tmp) && |n'.rt| == |n.rt| && |n'.tmp| == |n.tmp|
            && (forall j :: 0 <= j < |n.rt| ==>
                  var gone := Severed(n.rt[j], n.rootAddr, p)
                              || (Mentions(n.rt[j], p.timeout) && (p.timeout == p.dest || n.rt[j].next != p.dest));
                  && n'.rt[j] == (if gone then EMPTY else n.rt[j])
                  && n'.tmp[j] == (if gone then Stored(false, n.tmp[j].preq) else n.tmp[j]))
            && |outs| == |SeveredSlots(n.rt, n.rootAddr, p, |n.rt|)|
            && forall k :: 0 <= k < |outs| ==> outs[k] == Broadcast(PerrMsg(Perr(p.timeout, n.me)))
  {
    EchoesCounted(n.rt, n.rootAddr, p, |n.rt|);
  }

  lemma {:induction false} EchoesCounted(t: seq<Route>, rootAddr: Addr, p: Perr, i: nat)
    requires i <= |t|
    ensures EchoCount(t, rootAddr, p, i) == |SeveredSlots(t, rootAddr, p, i)|
  {
    if i > 0 {
      EchoesCounted(t, rootAddr, p, i - 1);
      var before := SeveredSlots(t, rootAddr, p, i - 1);
      assert SeveredSlots(t, rootAddr, p, i) == if Severed(t[i - 1], rootAddr, p) then before + {i - 1} else before;
    }
  }

  /**
   * So after a node has been declared dead by itself no route in use mentions it; after r has reported that it lost d,
   * no route leads to the root by way of r, and no route that does not run through r mentions d.
   */
  lemma PerrForgets(n: Node, src: Addr, p: Perr, env: Env, j: nat)
    requires |n.rt| == |n.tmp| == |n.armed| && j < |n.rt|
    ensures var e := Receive(n, src, PerrMsg(p), env).0.rt[j];
            e.valid ==>
              if p.timeout == p.dest then !Mentions(e, p.timeout)
              else !(e.next == p.dest && e.dest == n.rootAddr) && (e.next != p.dest ==> !Mentions(e, p.timeout))
  {
    PerrEffect(n, src, p, env);
  }

  // ------------------------------------------------------------------ timers

  /**
   * The selection timer: the stored request is answered with its own and the root's address and number; the timer is
   * off, the originator's window closed, and nothing else changes.
   */
  lemma WindowCloses(n: Node, slot: nat)
    requires |n.rt| == |n.tmp| == |n.armed| && slot < |n.tmp| && DestUnique(n.rt)
    requires 1 <= n.tmp[slot].preq.hcnt <= |n.tmp[slot].preq.ext|
    ensures var (n', outs) := PrepFire(n, slot); var q := n.tmp[slot].preq;
            && n' == n.(armed := n'.armed, tmp := n'.tmp) && n'.armed == n.armed[slot := false] && |n'.tmp| == |n.tmp|
            && (forall j :: 0 <= j < |n.tmp| ==>
                  n'.tmp[j] == if Leading(n.rt, j, q.orig) then Stored(false, n.tmp[j].preq) else n.tmp[j])
            && |outs| == 1 && outs[0].msg.PrepMsg? && var p := outs[0].msg.prep;
               && p.hcnt == 1 && p.dest == q.orig && p.destIP == q.ip && p.orig == n.rootAddr && p.origIP == n.ip
               && p.seqno == q.seqno % 256 && p.ext + [outs[0].to] == q.ext[..q.hcnt]
  {
    FirstIsLast(n.rt, n.tmp[slot].preq.orig);
  }

  /** Two announcements in a row: the orders follow on each other, and a reset asked for is announced once. */
  lemma ResetToldOnce(n: Node)
    ensures var (n1, o1) := RannSend(n); var (n2, o2) := RannSend(n1);
            && |o1| == |o2| == 1 && o1[0].msg.RannMsg? && o2[0].msg.RannMsg?
            && o1[0].msg.rann.order == n.order + 1 && o2[0].msg.rann.order == n.order + 2
            && o1[0].msg.rann.reset == n.reset && o2[0].msg.rann.reset == 0
            && n2 == n.(order := n.order + 2, reset := 0)
            && o2[0].msg.rann == o1[0].msg.rann.(order := n.order + 2, reset := 0)
  {
  }

  /**
   * What the operator does at the root: a route reset blanks its table and is announced next; new settings are
   * announced next, and blank the table only if it is said so.
   */
  lemma OperatorHeard(net: Net, v: Issue, wipe: bool)
    requires Can(net, RouteReset) && Can(net, Configure(v, wipe))
    ensures var n := net.nodes[net.c.root];
            var r, c := Turn(net, RouteReset).0, Turn(net, Configure(v, wipe)).0;
            var ro, co := RannSend(r).1, RannSend(c).1;
            && Forgotten(n, r, true) && r == n.(rt := r.rt, tmp := r.tmp, reset := 1)
            && Forgotten(n, c, wipe) && c.reset == n.reset && c.order == n.order
            && ro == [Broadcast(RannMsg(Rann(n.me, n.order + 1, 3, n.metric, n.rate, n.channel, 1, n.rid)))]
            && co == [Broadcast(RannMsg(Rann(n.me, n.order + 1, 3, v.metric, v.rate, v.channel, n.reset, n.rid)))]
  {
  }

  /** The check of the second channel, once a second: in every slot that has been heard there one ring entry is set. */
  lemma RingsChecked(n: Node, i: nat)
    requires (forall k :: 0 <= k < |n.rt| ==> |n.rt[k].hits| == 10 && n.rt[k].hitPos < 10) && i < |n.rt|
    ensures var n', e := LinkCheck(n), n.rt[i];
            && n' == n.(rt := n'.rt) && |n'.rt| == |n.rt|
            && n'.rt[i] == if e.schCnt == 0 then e else
                 e.(hits := e.hits[e.hitPos := if e.heard == 0 then 0 else 1],
                    hitPos := Bumped(e.hitPos, 10), heard := 0)
  {
  }

  /** The calculation of qualities: a slot changes only if it is a neighbour's that has been heard, and only in that. */
  lemma QualitiesSet(n: Node, now: int, i: nat)
    requires (forall k :: 0 <= k < |n.rt| ==> |n.rt[k].hits| == 10) && i < |n.rt|
    ensures var n', e := LinkScore(n, now), n.rt[i];
            && n' == n.(rt := n'.rt) && |n'.rt| == |n.rt|
            && n'.rt[i] == if e.schCnt == 0 || e.hcnt != 1 then e else
                 e.(alm := Score(e, now).alm, almNext := Score(e, now).alm)
  {
  }

  // ------------------------------------------------------------------ broadcast

  /** A broadcast puts a packet in flight to each node but the sender, and nothing else. */
  lemma {:induction false} BroadcastReaches(ids: set<Addr>, src: Addr, m: Msg, pk: Packet)
    ensures pk in Copies(ids, src, m) <==> pk == Packet(src, pk.dst, m, []) && pk.dst in ids && pk.dst != src
    decreases |ids|
  {
    if ids != {} { BroadcastReaches(ids - {Pick(ids)}, src, m, pk); }
  }

  /** One each. */
  lemma {:induction false} BroadcastOnce(ids: set<Addr>, src: Addr, m: Msg)
    ensures |Copies(ids, src, m)| == if src in ids then |ids| - 1 else |ids|
    decreases |ids|
  {
    if ids != {} { BroadcastOnce(ids - {Pick(ids)}, src, m); }
  }
}
