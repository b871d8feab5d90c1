/**
 * A node in the form of the source: global tables updated in place by loops, messages put on a transmit queue.
 * Every method is proved equal to its function in module Handlers, so what is proved about those functions holds of
 * this code. The transmit queue is the FIFO that module TransmitRing proves the ring to be; a full ring is a lost
 * message.
 */
module MeshNode {
  import opened Prelude
  import opened Messages
  import opened RouteTable
  import opened Handlers

  class MeshNode {
    const me: Addr
    const isRoot: bool
    const ip: nat
    const rt: array<Route>
    const tmp: array<Stored>
    const armed: array<bool>
    var rootAddr: Addr
    var order: nat
    var rid: nat
    var metric: nat
    var rate: nat
    var channel: nat
    var reset: nat
    var outbox: seq<Out>

    constructor (me: Addr, isRoot: bool, ip: nat, rid: nat, metric: nat, rate: nat, channel: nat)
      ensures Valid() && fresh(rt) && fresh(tmp) && fresh(armed) && outbox == []
      ensures this.me == me && this.isRoot == isRoot && order == 0 && rt[..] == seq(SLOTS, _ => EMPTY)
      ensures armed[..] == seq(SLOTS, _ => false) && forall j :: 0 <= j < SLOTS ==> !tmp[j].used
    {
      this.me, this.isRoot, this.ip := me, isRoot, ip;
      rt := new Route[SLOTS](_ => EMPTY);
      tmp := new Stored[SLOTS](_ => Stored(false, Preq(0, 0, 0, 0, 0, 0, 0, [])));
      armed := new bool[SLOTS](_ => false);
      rootAddr, order, this.rid := if isRoot then me else 0, 0, rid;
      this.metric, this.rate, this.channel, reset := metric, rate, channel, 0;
      outbox := [];
    }

    ghost predicate Valid() {
      rt.Length == SLOTS && tmp.Length == SLOTS && armed.Length == SLOTS
    }

    /** The node as a value. */
    function State(): Node
      reads this, rt, tmp, armed
    {
      Node(me, isRoot, ip, rt[..], tmp[..], armed[..], rootAddr, order, rid, metric, rate, channel, reset)
    }

    // ---------------------------------------------------------------- routing table

    method RtTableFind(q: Query) returns (r: Option<nat>)
      ensures r == First(rt[..], q)
    {
      var i := 0;
      while i < rt.Length
        invariant 0 <= i <= rt.Length
        invariant First(rt[..], q) == First(rt[..], q, i)
      {
        if Matches(rt[i], q) { return Some(i); }
        i := i + 1;
      }
      return None;
    }

    method RtTableGetIndex(dest: Addr) returns (r: Option<nat>)
      ensures r == Last(rt[..], ByDest(dest), rt.Length)
    {
      r := None;
      var i := 0;
      while i < rt.Length
        invariant 0 <= i <= rt.Length
        invariant r == Last(rt[..], ByDest(dest), i)
      {
        if Matches(rt[i], ByDest(dest)) { r := Some(i); }
        i := i + 1;
      }
    }

    method RtTableUpdate(i: nat, next: Addr, hcnt: nat, alm: nat, seqno: nat, junk: int)
      requires i < rt.Length
      modifies rt
      ensures rt[..] == old(rt[..])[i := Refresh(old(rt[i]), next, hcnt, alm, seqno, junk)]
    {
      rt[i] := rt[i].(next := next, lastHello := junk, hcnt := hcnt, alm := alm, valid := true, seqno := seqno);
    }

    method RtTableInsert(f: Fresh, now: int) returns (slot: Option<nat>)
      modifies rt
      ensures rt[..] == Insert(old(rt[..]), f, now) && slot == First(old(rt[..]), Free)
    {
      slot := RtTableFind(Free);
      if slot.Some? {
        var i := slot.value;
        rt[i] := rt[i].(dest := f.dest, next := f.next, source := f.source);
        if f.prev.Some? { rt[i] := rt[i].(prev := f.prev.value); }
        rt[i] := rt[i].(firstHello := now, lastHello := now, hcnt := f.hcnt, valid := true,
                        helloCnt := f.helloCnt, destIP := f.ip, alm := f.alm, seqno := f.seqno);
      }
    }

    /** Index 10 blanks the whole table, any other out-of-range index nothing. */
    method RtTableEmpty(index: int)
      requires Valid()
      modifies rt, tmp
      ensures index == 10 ==> State() == ClearAll(old(State()))
      ensures 0 <= index < 10 ==> State() == Clear(old(State()), {index})
      ensures index < 0 || index > 10 ==> State() == old(State())
    {
      if index == 10 {
        var i := 0;
        while i < 10
          invariant 0 <= i <= 10
          invariant forall k :: 0 <= k < 10 ==> rt[k] == if k < i then EMPTY else old(rt[k])
          invariant forall k :: 0 <= k < 10 ==> tmp[k] == if k < i then old(tmp[k]).(used := false) else old(tmp[k])
        {
          rt[i] := EMPTY;
          tmp[i] := tmp[i].(used := false);
          i := i + 1;
        }
        assert rt[..] == ClearAll(old(State())).rt && tmp[..] == ClearAll(old(State())).tmp;
      } else if 0 <= index < 10 {
        rt[index] := EMPTY;
        tmp[index] := tmp[index].(used := false);
        assert rt[..] == Clear(old(State()), {index}).rt && tmp[..] == Clear(old(State()), {index}).tmp;
      } else {
        assert rt[..] == old(rt[..]) && tmp[..] == old(tmp[..]);
      }
    }

    // ---------------------------------------------------------------- hello

    method HelloProcess(h: Hello, now: int)
      modifies rt
      ensures State() == Handlers.HelloProcess(old(State()), h, now)
    {
      var r := RtTableFind(ByDest(h.orig));
      if r.None? {
        if h.ip != 0 {
          var _ := RtTableInsert(Fresh(h.orig, h.orig, me, None, 1, h.ip, 1, 0, 0), now);
        }
      } else {
        var i := r.value;
        rt[i] := rt[i].(helloCnt := (rt[i].helloCnt + 1) % TWO32);
        rt[i] := rt[i].(lastHello := now);
        if rt[i].destIP == 0 && h.ip != 0 { rt[i] := rt[i].(destIP := h.ip); }
      }
    }

    method SchHelloProcess(h: Hello, now: int)
      modifies rt
      ensures State() == Handlers.SchHelloProcess(old(State()), h, now)
    {
      var r := RtTableFind(ByDest(h.orig));
      if r.Some? {
        var i := r.value;
        rt[i] := rt[i].(schCnt := (rt[i].schCnt + 1) % TWO32, heard := (rt[i].heard + 1) % 256);
        rt[i] := rt[i].(lastHello := now);
      }
    }

    // ---------------------------------------------------------------- root announcement

    method RannSend()
      modifies this
      ensures State() == Handlers.RannSend(old(State())).0 && outbox == old(outbox) + Handlers.RannSend(old(State())).1
    {
      order := order + 1;
      outbox := outbox + [Broadcast(RannMsg(Rann(me, order, 3, metric, rate, channel, reset, rid)))];
      reset := 0;
    }

    method RannAckSend()
      modifies this`outbox
      ensures outbox == old(outbox) + AckOut(State())
    {
      var r := RtTableFind(ByKey(rootAddr, me));
      if r.Some? {
        var next := rt[r.value].next;
        var hop := RtTableFind(ByDest(next));
        if hop.Some? { outbox := outbox + [Unicast(next, RannAckMsg(me, next))]; }
      }
    }

    /** The settings an accepted announcement changes, each change blanking the table. */
    method AdoptSettings(r: Rann)
      requires Valid()
      modifies this`metric, this`channel, this`rate, rt, tmp
      ensures State() == (var n := AdoptRate(AdoptChannel(AdoptMetric(old(State()), r.metric), r.channel), r.rate);
                          if r.reset == 1 then ClearAll(n) else n)
    {
      ghost var n0 := State();
      if r.metric != metric && r.metric != 0 {
        metric := r.metric;
        RtTableEmpty(10);
      }
      ghost var n1 := State();
      assert n1 == AdoptMetric(n0, r.metric);
      if r.channel != channel && r.channel != 0 {
        channel := r.channel;
        RtTableEmpty(10);
      }
      ghost var n2 := State();
      assert n2 == AdoptChannel(n1, r.channel);
      if r.rate != rate && r.rate != 0 {
        rate := r.rate;
        RtTableEmpty(10);
      }
      assert State() == AdoptRate(n2, r.rate);
      if r.reset == 1 { RtTableEmpty(10); }
    }

    method AcceptRann(r: Rann)
      requires Valid()
      modifies this, rt, tmp
      ensures State() == Adopt(old(State()), r)
      ensures outbox == old(outbox) + ((if r.ttl > 1 then [Broadcast(RannMsg(r.(ttl := r.ttl - 1)))] else [])
                                       + AnswerRann(State()))
    {
      order := r.order;
      rootAddr := r.orig;
      if r.ttl > 1 { outbox := outbox + [Broadcast(RannMsg(r.(ttl := r.ttl - 1)))]; }
      AdoptSettings(r);
      var up := RtTableFind(ByKey(rootAddr, me));
      if up.None? {
        outbox := outbox + [Broadcast(PreqMsg(Preq(1, rootAddr, me, 4, order, ip, 0, [me])))];
      } else {
        RannAckSend();
      }
    }

    method RannProcess(r: Rann)
      requires Valid()
      modifies this, rt, tmp
      ensures State() == Handlers.RannProcess(old(State()), r).0
      ensures outbox == old(outbox) + Handlers.RannProcess(old(State()), r).1
    {
      if r.id != rid {
        rid := r.id;
        order := 0;
        RtTableEmpty(10);
      }
      assert State() == JoinEpoch(old(State()), r.id);
      if r.order > order && !isRoot {
        AcceptRann(r);
      }
    }

    method RannAckProcess(orig: Addr, next: Addr)
      modifies this`outbox
      ensures outbox == old(outbox) + AckProcess(State(), orig, next)
    {
      var r := RtTableFind(ByDest(orig));
      if r.Some? && me == next && !isRoot {
        var up := RtTableFind(ByKey(rootAddr, orig));
        if up.Some? { outbox := outbox + [Unicast(rt[up.value].next, RannAckMsg(orig, rt[up.value].next))]; }
      }
    }

    method PerrUnicastProcess(timeout: Addr, reporter: Addr)
      modifies this`outbox
      ensures outbox == old(outbox) + ReportProcess(State(), timeout, reporter)
    {
      if !isRoot {
        var up := RtTableFind(ByKey(rootAddr, reporter));
        if up.Some? { outbox := outbox + [Unicast(rt[up.value].next, PerrUniMsg(timeout, reporter))]; }
      }
    }

    // ---------------------------------------------------------------- path request

    /** Prep_start: an armed timer is not restarted. */
    method PrepStart(i: nat)
      requires i < armed.Length
      modifies armed
      ensures armed[..] == old(armed[..])[i := true]
    {
      if !armed[i] { armed[i] := true; }
    }

    /** The room behind a stored request holds five addresses. */
    method Keep(i: nat, q: Preq)
      requires i < tmp.Length && q.hcnt <= 5
      modifies tmp
      ensures tmp[..] == old(tmp[..])[i := Stored(true, q)]
    {
      tmp[i] := Stored(true, q);
    }

    method RootPreq(src: Addr, q: Preq, env: Env)
      requires Valid() && q.hcnt <= 5
      requires First(rt[..], ByDest(q.orig)).None? ==> First(rt[..], Free).Some?
      modifies rt, tmp, armed
      ensures State() == Handlers.RootPreq(old(State()), src, q, env)
    {
      var r := RtTableFind(ByDest(q.orig));
      if r.None? {
        var slot := RtTableInsert(Fresh(q.orig, src, me, None, q.hcnt, q.ip, 0, q.alm, q.seqno), env.now);
        Keep(slot.value, q);
        PrepStart(slot.value);
      } else {
        var e := rt[r.value];
        if e.hcnt != 1 {
          var k := RtTableGetIndex(q.orig);
          if (metric == 1 && e.hcnt > q.hcnt) || (metric == 2 && q.alm > e.alm) {
            if tmp[k.value].used {
              Keep(k.value, q);
              RtTableUpdate(r.value, src, q.hcnt, q.alm, q.seqno, env.junk);
            } else {
              Keep(k.value, q);
              RtTableUpdate(r.value, src, q.hcnt, q.alm, q.seqno, env.junk);
              PrepStart(k.value);
            }
          } else if (metric == 1 || metric == 2) && e.seqno < q.seqno {
            if !tmp[k.value].used {
              Keep(k.value, q);
              RtTableUpdate(r.value, src, q.hcnt, q.alm, q.seqno, env.junk);
              PrepStart(k.value);
            }
          }
        }
      }
    }

    /** The source's repeat check: the cursor advances by 0, 1, 2, ... and so skips entries. */
    method RepeatCheck(q: Preq, past: seq<Addr>) returns (hit: bool)
      ensures hit == RepeatHit(me, q, past)
    {
      var i, pos := 0, 0;
      while i < q.hcnt
        invariant 0 <= i <= q.hcnt && pos == (if i == 0 then 0 else Probe(i - 1))
        invariant forall m :: 0 <= m < i ==> ExtAt(q.ext, past, Probe(m)) != me
      {
        pos := pos + i;
        if ExtAt(q.ext, past, pos) == me {
          assert ExtAt(q.ext, past, Probe(i)) == me;
          return true;
        }
        i := i + 1;
      }
      return false;
    }

    method PreqProcess(src: Addr, q: Preq, env: Env)
      requires Valid() && PreqReady(State(), q) && (me == q.dest ==> q.hcnt <= 5)
      modifies this`outbox, rt, tmp, armed
      ensures State() == Handlers.PreqProcess(old(State()), src, q, env).0
      ensures outbox == old(outbox) + Handlers.PreqProcess(old(State()), src, q, env).1
    {
      var r := RtTableFind(ByDest(src));
      var alm := if r.Some? then (q.alm + rt[r.value].alm) % TWO32 else q.alm;
      var q1 := q.(alm := alm);
      assert q1 == AddLink(State(), src, q);
      if me == q.dest {
        RootPreq(src, q1, env);
      } else {
        var hit := RepeatCheck(q, env.past);
        if !hit {
          var ttl := (q1.ttl + 255) % 256;
          if ttl != 0 {
            outbox := outbox + [Broadcast(PreqMsg(q1.(ttl := ttl, hcnt := (q1.hcnt + 1) % 256, ext := q1.ext + [me])))];
          }
        }
      }
    }

    /** Prep_send, run by the slot's timer, which is no longer in use then. */
    method PrepSend(slot: nat)
      requires Valid() && slot < SLOTS && 1 <= tmp[slot].preq.hcnt <= |tmp[slot].preq.ext|
      modifies this`outbox, tmp, armed
      ensures State() == PrepFire(old(State()), slot).0 && outbox == old(outbox) + PrepFire(old(State()), slot).1
    {
      armed[slot] := false;
      var q := tmp[slot].preq;
      var k := RtTableGetIndex(q.orig);
      if k.Some? { tmp[k.value] := tmp[k.value].(used := false); }
      var rest := q.hcnt - 1;
      outbox := outbox + [Unicast(q.ext[rest],
                                  PrepMsg(Prep(1, q.orig, rootAddr, q.ip, ip, q.seqno % 256, q.ext[..rest])))];
    }

    // ---------------------------------------------------------------- path reply

    method PrepProcess(src: Addr, p: Prep, env: Env)
      requires Valid() && PrepReady(State(), p)
      modifies this`outbox, rt
      ensures State() == Handlers.PrepProcess(old(State()), src, p, env).0
      ensures outbox == old(outbox) + Handlers.PrepProcess(old(State()), src, p, env).1
    {
      ghost var n := State();
      var prev := if |p.ext| > 0 then Some(p.ext[|p.ext| - 1]) else None;
      var r := RtTableFind(ByKey(p.orig, p.dest));
      if r.None? && me != p.orig {
        var _ := RtTableInsert(Fresh(p.orig, src, p.dest, prev, p.hcnt, p.origIP, 0, 0, p.seqno), env.now);
      } else {
        RtTableUpdate(r.value, src, p.hcnt, 0, p.seqno, env.junk);
      }
      assert State() == Uplink(n, src, p, env);
      if |p.ext| > 0 {
        var down := RtTableFind(ByDest(p.dest));
        if down.None? {
          var next := ExtAt(p.ext, env.past, 2 * (|p.ext| - 1));
          var _ := RtTableInsert(Fresh(p.dest, next, p.orig, Some(src), |p.ext|, p.destIP, 0, 0, 0), env.now);
        }
        if p.ext[0] != 0 {
          outbox := outbox + [Unicast(p.ext[|p.ext| - 1],
                                      PrepMsg(p.(hcnt := (p.hcnt + 1) % 256, ext := p.ext[..|p.ext| - 1])))];
        }
      }
    }

    // ---------------------------------------------------------------- path error

    method PerrProcess(p: Perr)
      requires Valid()
      modifies this`outbox, rt, tmp
      ensures State() == Handlers.PerrProcess(old(State()), p).0
      ensures outbox == old(outbox) + Handlers.PerrProcess(old(State()), p).1
    {
      ghost var t, u := rt[..], tmp[..];
      ghost var o := Broadcast(PerrMsg(Perr(p.timeout, me)));
      var i := 0;
      while i < 10
        invariant 0 <= i <= 10
        invariant Blanked(t, u, set k: nat | k < i && PerrKills(t[k], rootAddr, p))
        invariant outbox == old(outbox) + Repeat(o, EchoCount(t, rootAddr, p, i))
      {
        assert rt[i] == t[i];
        PerrSlot(i, p);
        i := i + 1;
      }
      BlankedIsClear(old(State()), PerrVictims(t, rootAddr, p));
    }

    /** One slot of the loop of Perr_process. */
    method PerrSlot(i: nat, p: Perr)
      requires Valid() && i < 10
      modifies this`outbox, rt, tmp
      ensures outbox == old(outbox) + Repeat(Broadcast(PerrMsg(Perr(p.timeout, me))),
                                             if PerrEchoes(old(rt[i]), rootAddr, p) then 1 else 0)
      ensures var kill := PerrKills(old(rt[i]), rootAddr, p);
              && (forall k :: 0 <= k < 10 ==> rt[k] == if k == i && kill then EMPTY else old(rt[k]))
              && (forall k :: 0 <= k < 10 ==>
                    tmp[k] == if k == i && kill then old(tmp[k]).(used := false) else old(tmp[k]))
    {
      var kill := false;
      if p.timeout == p.dest {
        kill := rt[i].dest == p.timeout || Names(rt[i], p.timeout);
      } else if rt[i].next == p.dest {
        if rt[i].dest == rootAddr {
          outbox := outbox + [Broadcast(PerrMsg(Perr(p.timeout, me)))];
          kill := true;
        }
      } else {
        kill := rt[i].dest == p.timeout || Names(rt[i], p.timeout);
      }
      if kill { BlankSlot(i); }
    }

    /** The slots in ks are blanked, all others as in t and u. */
    ghost predicate Blanked(t: seq<Route>, u: seq<Stored>, ks: set<nat>)
      requires |t| == |u| == SLOTS && Valid()
      reads rt, tmp
    {
      && (forall k :: 0 <= k < 10 ==> rt[k] == if k in ks then EMPTY else t[k])
      && (forall k :: 0 <= k < 10 ==> tmp[k] == if k in ks then u[k].(used := false) else u[k])
    }

    lemma BlankedIsClear(n: Node, ks: set<nat>)
      requires Valid() && |n.rt| == |n.tmp| == SLOTS && Blanked(n.rt, n.tmp, ks)
      ensures rt[..] == Clear(n, ks).rt && tmp[..] == Clear(n, ks).tmp
    {
    }

    method BlankSlot(i: nat)
      requires Valid() && i < 10
      modifies rt, tmp
      ensures forall k :: 0 <= k < 10 ==> rt[k] == if k == i then EMPTY else old(rt[k])
      ensures forall k :: 0 <= k < 10 ==> tmp[k] == if k == i then old(tmp[k]).(used := false) else old(tmp[k])
    {
      ghost var n := State();
      RtTableEmpty(i);
      forall k | 0 <= k < 10
        ensures rt[k] == (if k == i then EMPTY else n.rt[k])
        ensures tmp[k] == (if k == i then n.tmp[k].(used := false) else n.tmp[k])
      {
        assert rt[k] == State().rt[k] && tmp[k] == State().tmp[k];
      }
    }

    // ---------------------------------------------------------------- hello timeout

    /** The three passes over the table for one expired neighbour, and the slot of the neighbour itself. */
    method PurgeNeighbour(i: nat)
      requires Valid() && i < 10
      modifies this`outbox, rt, tmp
      ensures State() == Purge(old(State()), i)
      ensures outbox == old(outbox) + if UplinkLost(old(State()), i)
                                      then [Broadcast(PerrMsg(Perr(old(rt[i]).dest, me)))] else []
    {
      ghost var t, u := rt[..], tmp[..];
      PurgeByNext(i);
      PurgeBySource(i, t, u);
      PurgeByPrev(i, t, u);
      BlankSlot(i);
      BlankedIsClear(old(State()), Doomed(t, i));
    }

    /** The first pass also reports, once, that the way to the root is lost. */
    method PurgeByNext(i: nat)
      requires Valid() && i < 10
      modifies this`outbox, rt, tmp
      ensures var t := old(rt[..]); Blanked(t, old(tmp[..]), set k: nat | k < 10 && k != i && t[k].next == t[i].dest)
      ensures outbox == old(outbox) + if UplinkLost(old(State()), i)
                                      then [Broadcast(PerrMsg(Perr(old(rt[i]).dest, me)))] else []
    {
      ghost var t, u := rt[..], tmp[..];
      var dead := rt[i].dest;
      var sent := false;
      var j := 0;
      while j < 10
        invariant 0 <= j <= 10
        invariant Blanked(t, u, set k: nat | k < j && k != i && t[k].next == dead)
        invariant sent <==> exists k :: 0 <= k < j && k != i && t[k].next == dead && t[k].dest == rootAddr
        invariant outbox == old(outbox) + if sent then [Broadcast(PerrMsg(Perr(dead, me)))] else []
      {
        assert rt[j] == t[j];
        if j != i && rt[j].next == dead {
          if rt[j].dest == rootAddr && !sent {
            outbox := outbox + [Broadcast(PerrMsg(Perr(dead, me)))];
            sent := true;
          }
          BlankSlot(j);
        }
        j := j + 1;
      }
    }

    method PurgeBySource(i: nat, ghost t: seq<Route>, ghost u: seq<Stored>)
      requires Valid() && i < 10 && |t| == |u| == SLOTS
      requires Blanked(t, u, set k: nat | k < 10 && k != i && t[k].next == t[i].dest)
      modifies rt, tmp
      ensures Blanked(t, u, set k: nat | k < 10 && k != i && (t[k].next == t[i].dest || t[k].source == t[i].dest))
    {
      var dead := rt[i].dest;
      var j := 0;
      while j < 10
        invariant 0 <= j <= 10
        invariant Blanked(t, u, set k: nat | k < 10 && k != i && (t[k].next == dead || (k < j && t[k].source == dead)))
      {
        if j != i && rt[j].source == dead { BlankSlot(j); }
        j := j + 1;
      }
    }

    method PurgeByPrev(i: nat, ghost t: seq<Route>, ghost u: seq<Stored>)
      requires Valid() && i < 10 && |t| == |u| == SLOTS
      requires Blanked(t, u, set k: nat | k < 10 && k != i && (t[k].next == t[i].dest || t[k].source == t[i].dest))
      modifies rt, tmp
      ensures Blanked(t, u, set k: nat | k < 10 && k != i && Names(t[k], t[i].dest))
    {
      var dead := rt[i].dest;
      var j := 0;
      while j < 10
        invariant 0 <= j <= 10
        invariant Blanked(t, u, set k: nat | k < 10 && k != i &&
                    (t[k].next == dead || t[k].source == dead || (k < j && t[k].prev == dead)))
      {
        if j != i && rt[j].prev == dead { BlankSlot(j); }
        j := j + 1;
      }
    }

    method HelloTimeoutProcess(now: int, limit: int)
      requires Valid()
      modifies this`outbox, rt, tmp
      ensures State() == HelloTimeout(old(State()), now, limit).0
      ensures outbox == old(outbox) + HelloTimeout(old(State()), now, limit).1
    {
      ghost var all := HelloTimeout(State(), now, limit);
      var i := 0;
      while i < 10
        invariant 0 <= i <= 10
        invariant all.0 == HelloTimeout(State(), now, limit, i).0
        invariant old(outbox) + all.1 == outbox + HelloTimeout(State(), now, limit, i).1
      {
        ghost var n, sent := State(), outbox;
        CheckSlot(i, now, limit);
        OneSlot(n, now, limit, i, sent);
        i := i + 1;
      }
    }

    static lemma OneSlot(n: Node, now: int, limit: int, i: nat, sent: seq<Out>)
      requires |n.rt| == |n.tmp| && i < |n.rt|
      ensures var dead := Expired(n.rt[i], now, limit); var n1 := if dead then Purge(n, i) else n;
              var o1 := if dead then TimeoutOuts(n, i) else [];
              && HelloTimeout(n, now, limit, i).0 == HelloTimeout(n1, now, limit, i + 1).0
              && sent + HelloTimeout(n, now, limit, i).1 == sent + o1 + HelloTimeout(n1, now, limit, i + 1).1
    {
    }

    method CheckSlot(i: nat, now: int, limit: int)
      requires Valid() && i < 10
      modifies this`outbox, rt, tmp
      ensures State() == if Expired(old(rt[i]), now, limit) then Purge(old(State()), i) else old(State())
      ensures outbox == old(outbox) + if Expired(old(rt[i]), now, limit) then TimeoutOuts(old(State()), i) else []
    {
      if rt[i].helloCnt > 0 {
        if now - rt[i].lastHello > limit {
          var dead := rt[i].dest;
          outbox := outbox + [Broadcast(PerrMsg(Perr(dead, dead)))];
          PurgeNeighbour(i);
          ReportDead(dead);
        }
      }
    }

    method ReportDead(dead: Addr)
      requires Valid()
      modifies this`outbox
      ensures outbox == old(outbox) + if !isRoot && First(rt[..], ByKey(rootAddr, me)).Some?
                                      then [Broadcast(PerrUniMsg(dead, me))] else []
    {
      if !isRoot {
        var up := RtTableFind(ByKey(rootAddr, me));
        if up.Some? { outbox := outbox + [Broadcast(PerrUniMsg(dead, me))]; }
      }
    }

    // ---------------------------------------------------------------- link quality

    method SchHelloCheck()
      requires Valid() && forall i :: 0 <= i < 10 ==> |rt[i].hits| == 10 && rt[i].hitPos < 10
      modifies rt
      ensures State() == LinkCheck(old(State()))
    {
      ghost var n := State();
      var i := 0;
      while i < 10
        invariant 0 <= i <= 10
        invariant forall k :: 0 <= k < 10 ==> rt[k] == if k < i then Sample(n.rt[k]) else n.rt[k]
      {
        if rt[i].schCnt > 0 {
          var bit := if rt[i].heard > 0 then 1 else 0;
          rt[i] := rt[i].(hits := rt[i].hits[rt[i].hitPos := bit]);
          rt[i] := rt[i].(hitPos := rt[i].hitPos + 1);
          if rt[i].hitPos >= 10 { rt[i] := rt[i].(hitPos := 0); }
          rt[i] := rt[i].(heard := 0);
        }
        i := i + 1;
      }
      assert rt[..] == LinkCheck(n).rt;
    }

    /**
     * Hits in percent: over the seconds since the neighbour was first heard while there are fewer than ten, else over
     * ten.
     */
    static method Percentage(hits: seq<nat>, diff: int) returns (alm: nat)
      requires |hits| == 10
      ensures alm == if diff < 10 && diff != 0 then (if diff < 0 then 0 else SumTo(hits, diff) * 100 / diff)
                     else SumTo(hits, 10) * 100 / 10
    {
      var span := if diff < 10 && diff != 0 then diff else 10;
      var sum, j := 0, 0;
      while j < span
        invariant 0 <= j <= 10 && (j <= span || j == 0) && sum == SumTo(hits, j)
      {
        sum := sum + hits[j];
        j := j + 1;
      }
      alm := if span < 0 then 0 else sum * 100 / span;
    }

    method AlmCalculator(now: int)
      requires Valid() && forall i :: 0 <= i < 10 ==> |rt[i].hits| == 10
      modifies rt
      ensures State() == LinkScore(old(State()), now)
    {
      ghost var n := State();
      var i := 0;
      while i < 10
        invariant 0 <= i <= 10
        invariant forall k :: 0 <= k < 10 ==> rt[k] == if k < i then Score(n.rt[k], now) else n.rt[k]
      {
        var diff := now - rt[i].firstHello;
        if rt[i].schCnt > 0 && rt[i].hcnt == 1 {
          var alm := Percentage(rt[i].hits, diff);
          rt[i] := rt[i].(almNext := alm);
          rt[i] := rt[i].(alm := rt[i].almNext);
        }
        i := i + 1;
      }
      assert rt[..] == LinkScore(n, now).rt;
    }
  }
}
