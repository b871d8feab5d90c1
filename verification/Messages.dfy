/** The control messages of the mesh protocol (wsm/aodv.h:65-146), reduced to the fields routing reads. */
module Messages {

  /** A link-layer address; 0 stands for the blank address 00:00:00:00:00:00. */
  type Addr = nat

  const TWO32: nat := 0x1_0000_0000

  /** Neighbour beacon. */
  datatype Hello = Hello(orig: Addr, ip: nat)

  /** Root announcement. */
  datatype Rann = Rann(orig: Addr, order: nat, ttl: nat, metric: nat, rate: nat, channel: nat, reset: nat, id: nat)

  /** Path request; `ext` is the source route collected so far, `hcnt` the count the header claims for it. */
  datatype Preq = Preq(hcnt: nat, dest: Addr, orig: Addr, ttl: nat, seqno: nat, ip: nat, alm: nat, ext: seq<Addr>)

  /** Path reply; `ext` is the part of the source route still to be visited (ext_length is its length). */
  datatype Prep = Prep(hcnt: nat, dest: Addr, orig: Addr, destIP: nat, origIP: nat, seqno: nat, ext: seq<Addr>)

  /** Path error. */
  datatype Perr = Perr(timeout: Addr, dest: Addr)

  datatype Msg =
    | HelloMsg(hello: Hello)
    | SchHelloMsg(sch: Hello)
    | RannMsg(rann: Rann)
    | PreqMsg(preq: Preq)
    | PrepMsg(prep: Prep)
    | PerrMsg(perr: Perr)
    | RannAckMsg(orig: Addr, next: Addr)
    | PerrUniMsg(timeout: Addr, reporter: Addr)

  /** What a handler puts on the transmit queue. */
  datatype Out = Broadcast(msg: Msg) | Unicast(to: Addr, msg: Msg)

  /**
   * Entry `i` of an address list that is followed in memory by `past`.
   * Two places of the source index beyond the list; what they find there is arbitrary,
   * so every theorem quantifies over `past`.
   */
  function ExtAt(ext: seq<Addr>, past: seq<Addr>, i: nat): Addr {
    if i < |ext| then ext[i] else if i - |ext| < |past| then past[i - |ext|] else 0
  }
}
