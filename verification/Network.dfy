/**
 * The mesh as a whole: nodes, messages in flight, and the steps between them.
 * A broadcast becomes one packet for every other node; a node out of range is a packet that is lost, so losses
 * also cover every topology and every change of topology.
 */
module Network {
  import opened Prelude
  import opened Messages
  import opened RouteTable
  import opened Handlers
  import opened NodeInvariants

  /**
   * A message on its way. `trail` is history that no handler reads: for a path reply, the nodes it has visited,
   * latest first.
   */
  datatype Packet = Packet(src: Addr, dst: Addr, msg: Msg, trail: seq<Addr>)

  /** What one announcement of the root tells the mesh to use. */
  datatype Issue = Issue(metric: nat, rate: nat, channel: nat)

  /** `issued` is history: the k-th announcement is issued[k-1]. */
  datatype Net = Net(c: Config, rid: nat, nodes: map<Addr, Node>, bag: seq<Packet>, issued: seq<Issue>)

  datatype Step =
    | Deliver(i: nat, env: Env)
    | Lose(i: nat)
    | HelloSend(x: Addr)
    | SchHelloSend(x: Addr)
    | RannTimer
    | PrepTimer(slot: nat)
    | HelloCheck(x: Addr, now: int, limit: int)
    | LinkTimer(x: Addr)
    | ScoreTimer(x: Addr, now: int)
    | Configure(issue: Issue, wipe: bool)
    | RouteReset

  // ------------------------------------------------------------------ sending

  ghost function Pick(ids: set<Addr>): (x: Addr)
    requires ids != {}
    ensures x in ids
  {
    var x :| x in ids; x
  }

  /** One packet for every node but the sender. */
  ghost function Copies(ids: set<Addr>, src: Addr, m: Msg): seq<Packet>
    decreases |ids|
  {
    if ids == {} then [] else
    var x := Pick(ids);
    (if x != src then [Packet(src, x, m, [])] else []) + Copies(ids - {x}, src, m)
  }

  ghost function Send(c: Config, src: Addr, o: Out, trail: seq<Addr>): seq<Packet> {
    match o
    case Broadcast(m) => Copies(c.ids, src, m)
    case Unicast(to, m) => if to in c.ids && to != src then [Packet(src, to, m, trail)] else []
  }

  ghost function SendAll(c: Config, src: Addr, outs: seq<Out>, trail: seq<Addr>): seq<Packet> {
    if outs == [] then [] else Send(c, src, outs[0], trail) + SendAll(c, src, outs[1..], trail)
  }

  // ------------------------------------------------------------------ receiving

  /** Receive_process. */
  function Receive(n: Node, src: Addr, m: Msg, env: Env): (Node, seq<Out>)
    requires |n.rt| == |n.tmp| == |n.armed| && Ready(n, m)
  {
    match m
    case HelloMsg(h) => (HelloProcess(n, h, env.now), [])
    case SchHelloMsg(h) => (SchHelloProcess(n, h, env.now), [])
    case RannMsg(r) => RannProcess(n, r)
    case PreqMsg(q) => PreqProcess(n, src, q, env)
    case PrepMsg(p) => PrepProcess(n, src, p, env)
    case PerrMsg(p) => PerrProcess(n, p)
    case RannAckMsg(orig, next) => (n, AckProcess(n, orig, next))
    case PerrUniMsg(timeout, reporter) => (n, ReportProcess(n, timeout, reporter))
  }

  predicate Ready(n: Node, m: Msg) {
    match m
    case PreqMsg(q) => PreqReady(n, q)
    case PrepMsg(p) => PrepReady(n, p)
    case _ => true
  }

  // ------------------------------------------------------------------ steps

  predicate Shape(net: Net) {
    net.c.root in net.nodes &&
    forall x <- net.nodes.Keys :: |net.nodes[x].rt| == |net.nodes[x].tmp| == |net.nodes[x].armed| == SLOTS &&
      forall i :: 0 <= i < SLOTS ==> |net.nodes[x].rt[i].hits| == 10 && net.nodes[x].rt[i].hitPos < 10
  }

  predicate Can(net: Net, s: Step) {
    Shape(net) &&
    var root := net.c.root;
    match s
    case Deliver(i, _) =>
      i < |net.bag| && net.bag[i].dst in net.nodes && Ready(net.nodes[net.bag[i].dst], net.bag[i].msg)
    case Lose(i) => i < |net.bag|
    case HelloSend(x) => x in net.nodes
    case SchHelloSend(x) => x in net.nodes
    case RannTimer => net.nodes[root].order + 1 < TWO32
    case PrepTimer(slot) =>
      slot < SLOTS && net.nodes[root].armed[slot] &&
      1 <= net.nodes[root].tmp[slot].preq.hcnt <= |net.nodes[root].tmp[slot].preq.ext|
    case HelloCheck(x, _, _) => x in net.nodes
    case LinkTimer(x) => x in net.nodes
    case ScoreTimer(x, _) => x in net.nodes
    case Configure(v, _) => v.metric != 0 && v.rate != 0 && v.channel != 0
    case RouteReset => true
  }

  function Without(bag: seq<Packet>, i: nat): seq<Packet>
    requires i < |bag|
  {
    bag[..i] + bag[i + 1..]
  }

  /** The node that acts in a step. */
  function Actor(net: Net, s: Step): Addr
    requires Can(net, s)
  {
    match s
    case Deliver(i, _) => net.bag[i].dst
    case HelloSend(x) => x
    case SchHelloSend(x) => x
    case HelloCheck(x, _, _) => x
    case LinkTimer(x) => x
    case ScoreTimer(x, _) => x
    case _ => net.c.root
  }

  /** What that node becomes and sends. */
  function Turn(net: Net, s: Step): (Node, seq<Out>)
    requires Can(net, s)
  {
    var n := net.nodes[Actor(net, s)];
    match s
    case Deliver(i, env) => Receive(n, net.bag[i].src, net.bag[i].msg, env)
    case Lose(_) => (n, [])
    case HelloSend(x) => (n, [Broadcast(HelloMsg(Hello(x, n.ip)))])
    case SchHelloSend(x) => (n, [Broadcast(SchHelloMsg(Hello(x, n.ip)))])
    case RannTimer => RannSend(n)
    case PrepTimer(slot) => PrepFire(n, slot)
    case HelloCheck(_, now, limit) => HelloTimeout(n, now, limit)
    case LinkTimer(_) => (LinkCheck(n), [])
    case ScoreTimer(_, now) => (LinkScore(n, now), [])
    case Configure(v, wipe) =>
      var n1 := n.(metric := v.metric, rate := v.rate, channel := v.channel);
      (if wipe then ClearAll(n1) else n1, [])
    case RouteReset => (ClearAll(n.(reset := 1)), [])
  }

  /** Only a path reply has a trail to extend. */
  function NextTrail(pk: Packet): seq<Addr> {
    if pk.msg.PrepMsg? then [pk.dst] + pk.trail else []
  }

  function TrailOf(net: Net, s: Step): seq<Addr>
    requires Can(net, s)
  {
    if s.Deliver? then NextTrail(net.bag[s.i]) else []
  }

  /** The packets that stay in flight. */
  function Rest(net: Net, s: Step): seq<Packet>
    requires Can(net, s)
  {
    if s.Deliver? || s.Lose? then Without(net.bag, s.i) else net.bag
  }

  ghost function Apply(net: Net, s: Step): Net
    requires Can(net, s)
  {
    var x, t := Actor(net, s), Turn(net, s);
    var n := net.nodes[x];
    net.(nodes := net.nodes[x := t.0],
         bag := Rest(net, s) + SendAll(net.c, x, t.1, TrailOf(net, s)),
         issued := if s.RannTimer? then net.issued + [Issue(n.metric, n.rate, n.channel)] else net.issued)
  }

  ghost predicate Next(a: Net, s: Step, b: Net) { Can(a, s) && b == Apply(a, s) }

  /** A run: consecutive states with the steps between them. */
  datatype Run = Run(states: seq<Net>, steps: seq<Step>)

  ghost predicate IsRun(r: Run) {
    |r.states| == |r.steps| + 1 && forall k :: 0 <= k < |r.steps| ==> Next(r.states[k], r.steps[k], r.states[k + 1])
  }

  /** Power-on: blank tables, no message, no timer armed. */
  ghost predicate Init(net: Net) {
    && ConfigOk(net.c) && net.bag == [] && net.issued == []
    && net.nodes.Keys == net.c.ids
    && (forall x <- net.nodes.Keys :: InitNode(net.c, net.rid, x, net.nodes[x]))
  }

  ghost predicate InitNode(c: Config, rid: nat, x: Addr, n: Node) {
    && n.me == x && (n.isRoot <==> x == c.root)
    && n.rt == seq(SLOTS, _ => EMPTY) && n.armed == seq(SLOTS, _ => false)
    && n.tmp == seq(SLOTS, _ => Stored(false, Preq(0, 0, 0, 0, 0, 0, 0, [])))
    && n.order == 0 && n.rootAddr == (if n.isRoot then c.root else 0)
    && (n.isRoot ==> n.rid == rid && n.metric != 0 && n.rate != 0 && n.channel != 0)
  }

  // ------------------------------------------------------------------ the invariant

  ghost predicate PacketOk(c: Config, pk: Packet) {
    && pk.src in c.ids && pk.dst in c.ids && pk.src != pk.dst
    && (if pk.msg.PrepMsg? then PrepOk(c, pk.src, pk.dst, pk.msg.prep, pk.trail) else MsgOk(c, pk.src, pk.msg))
  }

  ghost predicate BagOk(c: Config, bag: seq<Packet>) {
    forall k :: 0 <= k < |bag| ==> PacketOk(c, bag[k])
  }

  ghost predicate NetOk(net: Net) {
    && ConfigOk(net.c) && net.nodes.Keys == net.c.ids
    && (forall x <- net.nodes.Keys :: NodeOk(net.c, net.nodes[x]) && net.nodes[x].me == x)
    && BagOk(net.c, net.bag)
  }

  lemma {:induction false} CopiesOk(c: Config, ids: set<Addr>, src: Addr, m: Msg)
    requires MsgOk(c, src, m) && src in c.ids && ids <= c.ids
    ensures BagOk(c, Copies(ids, src, m))
    decreases |ids|
  {
    if ids != {} { CopiesOk(c, ids - {Pick(ids)}, src, m); }
  }

  lemma {:induction false} SendAllOk(c: Config, src: Addr, outs: seq<Out>, trail: seq<Addr>)
    requires src in c.ids && OutsOk(c, src, outs, trail)
    ensures BagOk(c, SendAll(c, src, outs, trail))
  {
    if outs != [] {
      assert OutOk(c, src, outs[0], trail);
      if outs[0].Broadcast? { CopiesOk(c, c.ids, src, outs[0].msg); }
      assert BagOk(c, Send(c, src, outs[0], trail));
      SendAllOk(c, src, outs[1..], trail);
    }
  }

  /** Each message is handled in order, whoever receives it. */
  lemma ReceiveOk(c: Config, n: Node, pk: Packet, env: Env)
    requires ConfigOk(c) && NodeOk(c, n) && PacketOk(c, pk) && pk.dst == n.me && Ready(n, pk.msg)
    ensures var (n', outs) := Receive(n, pk.src, pk.msg, env);
            && NodeOk(c, n') && Same(n, n') && OutsOk(c, n.me, outs, NextTrail(pk))
            && (!pk.msg.PrepMsg? ==> OnlyOwnUplink(c, n, n'))
  {
    match pk.msg {
      case HelloMsg(h) => HelloOk(c, n, h, env.now);
      case SchHelloMsg(h) => SchHelloOk(c, n, h, env.now);
      case RannMsg(r) => RannOk(c, n, pk.src, r);
      case PreqMsg(q) => PreqStepOk(c, n, pk.src, q, env);
      case PrepMsg(p) => PrepStepOk(c, n, pk.src, p, pk.trail, env);
      case PerrMsg(p) => PerrOk(c, n, pk.src, p);
      case RannAckMsg(_, _) =>
      case PerrUniMsg(_, _) =>
    }
  }

  /** Every turn leaves its node in order, sends messages in order, and only replies install uplinks for others. */
  lemma TurnOk(a: Net, s: Step)
    requires NetOk(a) && Can(a, s)
    ensures var x := Actor(a, s); var n := a.nodes[x]; var (n', outs) := Turn(a, s);
            && x in a.c.ids && x in a.nodes && n.me == x
            && NodeOk(a.c, n') && Same(n, n') && OutsOk(a.c, x, outs, TrailOf(a, s))
            && ((s.Deliver? && a.bag[s.i].msg.PrepMsg?) || OnlyOwnUplink(a.c, n, n'))
  {
    var n := a.nodes[Actor(a, s)];
    assert NodeOk(a.c, n);
    match s {
      case Deliver(i, env) =>
        assert PacketOk(a.c, a.bag[i]);
        ReceiveOk(a.c, n, a.bag[i], env);
      case RannTimer =>
      case PrepTimer(slot) => PrepFireOk(a.c, n, slot);
      case HelloCheck(_, now, limit) => HelloTimeoutOk(a.c, n, now, limit, 0);
      case LinkTimer(_) => LinkCheckOk(a.c, n);
      case ScoreTimer(_, now) => LinkScoreOk(a.c, n, now);
      case Configure(v, _) => ClearAllOk(a.c, n.(metric := v.metric, rate := v.rate, channel := v.channel));
      case RouteReset => ClearAllOk(a.c, n.(reset := 1));
      case _ =>
    }
  }

  /** Every step keeps the network in order. */
  lemma NextOk(a: Net, s: Step, b: Net)
    requires NetOk(a) && Next(a, s, b)
    ensures NetOk(b) && b.c == a.c
  {
    TurnOk(a, s);
    SendAllOk(a.c, Actor(a, s), Turn(a, s).1, TrailOf(a, s));
    RestOk(a, s);
  }

  lemma RestOk(a: Net, s: Step)
    requires BagOk(a.c, a.bag) && Can(a, s)
    ensures BagOk(a.c, Rest(a, s))
  {
  }

  lemma InitOk(net: Net)
    requires Init(net)
    ensures NetOk(net)
  {
    forall x <- net.nodes.Keys ensures NodeOk(net.c, net.nodes[x]) {
      assert InitNode(net.c, net.rid, x, net.nodes[x]);
    }
  }

  /** Over every run from power-on, every node and every message in flight is in order. */
  lemma {:induction false} AlwaysOk(r: Run, k: nat)
    requires IsRun(r) && k < |r.states| && Init(r.states[0])
    ensures NetOk(r.states[k]) && r.states[k].c == r.states[0].c
  {
    if k == 0 {
      InitOk(r.states[0]);
    } else {
      AlwaysOk(r, k - 1);
      NextOk(r.states[k - 1], r.steps[k - 1], r.states[k]);
    }
  }
}
