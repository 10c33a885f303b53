/**
 Rounds of audio processing over the sandboxes of a group: the client writes an input, the
 sandboxes process side by side, the client reads an output and then copies between
 sandboxes.
 */
module Latency {
  import opened Order
  import opened AudioPass

  /** A connection between sandboxes, which the client copies after the sandboxes are done. */
  datatype CrossWire = CrossWire(src: Port, dst: Port)

  /** The local connections, the connections between sandboxes in the order the client goes
      through them, and each sandbox's processing order. */
  datatype Group = Group(wires: Wiring, cross: seq<CrossWire>, orders: seq<seq<Id>>)

  /** One call of audio_process: the block the client writes, the order in which the devices
      of all sandboxes happened to be processed, and what the devices compute. */
  datatype Round = Round(input: Block, schedule: seq<Id>, f: Plugins)

  /** The schedule runs through every sandbox's order, and any of them may be anywhere. */
  predicate Interleaves(schedule: seq<Id>, orders: seq<seq<Id>>) {
    && Distinct(schedule)
    && forall s :: 0 <= s < |orders| ==>
         && Distinct(orders[s])
         && (forall d | d in orders[s] :: d in schedule)
         && (forall a, b | a in orders[s] && b in orders[s] && Precedes(orders[s], a, b) :: Precedes(schedule, a, b))
  }

  predicate CrossShaped(st: Buffers, cross: seq<CrossWire>) {
    forall w | w in cross :: w.src in st.outs && w.dst in st.ins
  }

  function CrossCopies(st: Buffers, cross: seq<CrossWire>): (st': Buffers)
    requires CrossShaped(st, cross)
    ensures st'.ins.Keys == st.ins.Keys && st'.outs == st.outs
  {
    if cross == [] then st
    else
      var st1 := CrossCopies(st, cross[..|cross| - 1]);
      var w := cross[|cross| - 1];
      assert w in cross;
      st1.(ins := st1.ins[w.dst := st1.outs[w.src]])
  }

  /** process_cross_sbox_connections, as the client's loop over shared memory. */
  method ProcessCrossConnections(shared: Sandbox, cross: seq<CrossWire>)
    requires CrossShaped(shared.buffers, cross)
    modifies shared
    ensures shared.buffers == CrossCopies(old(shared.buffers), cross)
  {
    for i := 0 to |cross|
      invariant shared.buffers == CrossCopies(old(shared.buffers), cross[..i])
    {
      assert cross[i] in cross;
      shared.buffers :=
        shared.buffers.(ins := shared.buffers.ins[cross[i].dst := shared.buffers.outs[cross[i].src]]);
      assert cross[..i + 1][..i] == cross[..i];
    }
    assert cross[..|cross|] == cross;
  }

  ghost predicate GroupShaped(g: Group, st: Buffers, head: Port) {
    Shaped(st, g.wires) && CrossShaped(st, g.cross) && head in st.ins
  }

  predicate RoundOk(g: Group, r: Round) {
    Interleaves(r.schedule, g.orders) && AllWired(r.schedule, g.wires)
  }

  predicate SamePorts(st: Buffers, st': Buffers) {
    st'.ins.Keys == st.ins.Keys && st'.outs.Keys == st.outs.Keys
  }

  function Written(st: Buffers, head: Port, x: Block): Buffers {
    st.(ins := st.ins[head := x])
  }

  /** The buffers when all sandboxes are done, which is when the client reads its outputs. */
  function Processed(g: Group, st: Buffers, head: Port, r: Round): (st': Buffers)
    requires GroupShaped(g, st, head) && RoundOk(g, r)
    ensures GroupShaped(g, st', head) && SamePorts(st, st')
  {
    Pass(Written(st, head, r.input), g.wires, r.f, r.schedule)
  }

  predicate RoundsOk(g: Group, rs: seq<Round>) {
    forall t :: 0 <= t < |rs| ==> RoundOk(g, rs[t])
  }

  /** The buffers before round t. */
  function Before(g: Group, st: Buffers, head: Port, rs: seq<Round>, t: nat): (st': Buffers)
    requires GroupShaped(g, st, head) && RoundsOk(g, rs) && t <= |rs|
    ensures GroupShaped(g, st', head) && SamePorts(st, st')
  {
    if t == 0 then st
    else CrossCopies(Processed(g, Before(g, st, head, rs, t - 1), head, rs[t - 1]), g.cross)
  }

  lemma {:induction false} SameOutPorts(g: Group, st: Buffers, head: Port, rs: seq<Round>, t: nat)
    requires GroupShaped(g, st, head) && RoundsOk(g, rs) && t <= |rs|
    ensures Before(g, st, head, rs, t).outs.Keys == st.outs.Keys
    ensures Before(g, st, head, rs, t).ins.Keys == st.ins.Keys
  {
    if t > 0 {
      SameOutPorts(g, st, head, rs, t - 1);
    }
  }

  /** What the client reads at an output port in round t. */
  function Output(g: Group, st: Buffers, head: Port, rs: seq<Round>, t: nat, p: Port): Block
    requires GroupShaped(g, st, head) && RoundsOk(g, rs) && t < |rs| && p in st.outs
  {
    SameOutPorts(g, st, head, rs, t);
    Processed(g, Before(g, st, head, rs, t), head, rs[t]).outs[p]
  }

  // ---- chains ----

  /** A device of the chain, with the port the signal comes in and the one it leaves by. */
  datatype Hop = Hop(dev: Id, inPort: nat, outPort: nat)

  datatype Link =
    | LocalLink(conn: nat, sandbox: nat)
    | CrossLink(conn: nat)

  /** links[i] leads from hops[i] to hops[i + 1]. */
  datatype Chain = Chain(hops: seq<Hop>, links: seq<Link>)

  function In(h: Hop): Port {
    Port(h.dev, h.inPort)
  }

  function Out(h: Hop): Port {
    Port(h.dev, h.outPort)
  }

  predicate CrossAvoids(cross: seq<CrossWire>, port: Port) {
    forall i :: 0 <= i < |cross| ==> cross[i].dst != port
  }

  /** The link is the one wire that leads to b's input. */
  predicate LinkOk(g: Group, a: Hop, link: Link, b: Hop) {
    match link
    case LocalLink(conn, sandbox) =>
      && sandbox < |g.orders| && a.dev in g.orders[sandbox] && b.dev in g.orders[sandbox]
      && LastWire(g.wires, a.dev, conn, In(b)) && g.wires[a.dev][conn].thisPort == a.outPort
      && CrossAvoids(g.cross, In(b))
    case CrossLink(conn) =>
      && conn < |g.cross| && g.cross[conn] == CrossWire(Out(a), In(b))
      && CrossAvoids(g.cross[conn + 1..], In(b)) && PortUnwired(g.wires, In(b))
  }

  /** How many rounds the signal takes to cross the link. */
  function Delay(g: Group, a: Hop, link: Link, b: Hop): nat
    requires LinkOk(g, a, link, b)
  {
    if link.LocalLink? && Precedes(g.orders[link.sandbox], a.dev, b.dev) then 0 else 1
  }

  predicate ChainOk(g: Group, c: Chain) {
    && |c.hops| == |c.links| + 1
    && (forall i :: 0 < i < |c.hops| ==> In(c.hops[i]) != In(c.hops[0]))
    && (forall i :: 0 <= i < |c.links| ==> LinkOk(g, c.hops[i], c.links[i], c.hops[i + 1]))
    && PortUnwired(g.wires, In(c.hops[0])) && CrossAvoids(g.cross, In(c.hops[0]))
  }

  /** The buffers of every hop exist, and in every round every hop is processed and puts out
      what comes in. */
  ghost predicate PassesThrough(st: Buffers, h: Hop, r: Round) {
    && In(h) in st.ins && Out(h) in st.outs && h.dev in r.schedule
    && forall ins: map<nat, Block> :: h.inPort in ins ==> r.f(h.dev, h.outPort, ins) == ins[h.inPort]
  }

  ghost predicate AllPassThrough(st: Buffers, c: Chain, rs: seq<Round>) {
    forall i, t :: 0 <= i < |c.hops| && 0 <= t < |rs| ==> PassesThrough(st, c.hops[i], rs[t])
  }

  function Sum(ns: seq<nat>): nat {
    if ns == [] then 0 else Sum(ns[..|ns| - 1]) + ns[|ns| - 1]
  }

  lemma SumStep(ns: seq<nat>, n: nat)
    requires n < |ns|
    ensures Sum(ns[..n + 1]) == Sum(ns[..n]) + ns[n]
  {
    assert ns[..n + 1][..n] == ns[..n];
  }

  function Delays(g: Group, c: Chain): (ds: seq<nat>)
    requires ChainOk(g, c)
    ensures |ds| == |c.links|
    ensures forall i :: 0 <= i < |ds| ==> ds[i] == Delay(g, c.hops[i], c.links[i], c.hops[i + 1])
  {
    seq(|c.links|, i requires 0 <= i < |c.links| => Delay(g, c.hops[i], c.links[i], c.hops[i + 1]))
  }

  /** How many rounds the first n links delay the signal. */
  function TotalDelay(g: Group, c: Chain, n: nat): nat
    requires ChainOk(g, c) && n <= |c.links|
  {
    Sum(Delays(g, c)[..n])
  }

  // ---- one link ----

  lemma InputsOfAt(st: Buffers, p: Port)
    requires p in st.ins
    ensures p.index in InputsOf(st, p.dev) && InputsOf(st, p.dev)[p.index] == st.ins[p]
  {
    assert p == Port(p.dev, p.index);
  }

  /** A device that passes its input through puts out what it saw. */
  lemma PutsOutWhatItSees(st: Buffers, wires: Wiring, r: Round, h: Hop, k: nat)
    requires Shaped(st, wires) && AllWired(r.schedule, wires) && Distinct(r.schedule)
    requires PassesThrough(st, h, r) && k < |r.schedule| && r.schedule[k] == h.dev
    ensures Pass(st, wires, r.f, r.schedule).outs[Out(h)] == Pass(st, wires, r.f, r.schedule[..k]).ins[In(h)]
  {
    OutputsOf(st, wires, r.f, r.schedule, k, Out(h));
    InputsOfAt(Pass(st, wires, r.f, r.schedule[..k]), In(h));
  }

  lemma {:induction false} CrossCopyAvoids(st: Buffers, cross: seq<CrossWire>, port: Port)
    requires CrossShaped(st, cross) && port in st.ins && CrossAvoids(cross, port)
    ensures CrossCopies(st, cross).ins[port] == st.ins[port]
  {
    if cross != [] {
      CrossCopyAvoids(st, cross[..|cross| - 1], port);
    }
  }

  lemma {:induction false} CrossCopyReaches(st: Buffers, cross: seq<CrossWire>, i: nat)
    requires CrossShaped(st, cross) && i < |cross| && CrossAvoids(cross[i + 1..], cross[i].dst)
    ensures CrossCopies(st, cross).ins[cross[i].dst] == st.outs[cross[i].src]
  {
    var n := |cross| - 1;
    if i < n {
      assert cross[i + 1..][n - i - 1] == cross[n];
      assert cross[..n][i + 1..] == cross[i + 1..][..n - i - 1];
      CrossCopyReaches(st, cross[..n], i);
    }
  }

  /** The order of two devices of one sandbox is the same in every schedule. */
  lemma ScheduleKeepsOrder(schedule: seq<Id>, orders: seq<seq<Id>>, s: nat, a: Id, b: Id)
    requires Interleaves(schedule, orders) && s < |orders| && a in orders[s] && b in orders[s]
    ensures Precedes(schedule, a, b) <==> Precedes(orders[s], a, b)
  {
    PrecedesIsTotal(orders[s], a, b);
    if Precedes(schedule, a, b) {
      PrecedesIsAsymmetric(schedule, a, b);
    }
  }

  /** Without delay: b sees in this round what a puts out in this round. */
  lemma LinkWithoutDelay(g: Group, st: Buffers, r: Round, a: Hop, link: Link, b: Hop)
    requires Shaped(st, g.wires) && RoundOk(g, r) && LinkOk(g, a, link, b) && Delay(g, a, link, b) == 0
    requires PassesThrough(st, a, r) && PassesThrough(st, b, r)
    ensures var end := Pass(st, g.wires, r.f, r.schedule); end.outs[Out(b)] == end.outs[Out(a)]
  {
    var k :| 0 <= k < |r.schedule| && r.schedule[k] == b.dev;
    ScheduleKeepsOrder(r.schedule, g.orders, link.sandbox, a.dev, b.dev);
    DeviceSees(st, g.wires, r.f, r.schedule, k, a.dev, link.conn, In(b));
    PutsOutWhatItSees(st, g.wires, r, b, k);
  }

  /** With delay: b puts out what its input held when the round began. */
  lemma LinkWithDelay(g: Group, st: Buffers, r: Round, a: Hop, link: Link, b: Hop)
    requires Shaped(st, g.wires) && RoundOk(g, r) && LinkOk(g, a, link, b) && Delay(g, a, link, b) == 1
    requires PassesThrough(st, b, r)
    ensures Pass(st, g.wires, r.f, r.schedule).outs[Out(b)] == st.ins[In(b)]
  {
    var k :| 0 <= k < |r.schedule| && r.schedule[k] == b.dev;
    match link {
      case LocalLink(conn, sandbox) =>
        ScheduleKeepsOrder(r.schedule, g.orders, sandbox, a.dev, b.dev);
        DeviceSees(st, g.wires, r.f, r.schedule, k, a.dev, conn, In(b));
      case CrossLink(_) =>
        UnwiredPortKeepsInput(st, g.wires, r.f, r.schedule[..k], In(b));
    }
    PutsOutWhatItSees(st, g.wires, r, b, k);
  }

  lemma RoundLeavesLocally(g: Group, st: Buffers, r: Round, a: Hop, conn: nat, sandbox: nat, b: Hop)
    requires Shaped(st, g.wires) && CrossShaped(st, g.cross) && RoundOk(g, r)
    requires LinkOk(g, a, LocalLink(conn, sandbox), b) && PassesThrough(st, a, r) && PassesThrough(st, b, r)
    ensures CrossShaped(Pass(st, g.wires, r.f, r.schedule), g.cross)
    ensures var end := Pass(st, g.wires, r.f, r.schedule);
      CrossCopies(end, g.cross).ins[In(b)] == end.outs[Out(a)]
  {
    PassLeavesOutput(st, g.wires, r.f, r.schedule, a.dev, conn, In(b));
    CrossCopyAvoids(Pass(st, g.wires, r.f, r.schedule), g.cross, In(b));
  }

  lemma RoundLeavesAcross(g: Group, st: Buffers, r: Round, a: Hop, conn: nat, b: Hop)
    requires Shaped(st, g.wires) && CrossShaped(st, g.cross) && RoundOk(g, r)
    requires LinkOk(g, a, CrossLink(conn), b) && PassesThrough(st, a, r) && PassesThrough(st, b, r)
    ensures CrossShaped(Pass(st, g.wires, r.f, r.schedule), g.cross)
    ensures var end := Pass(st, g.wires, r.f, r.schedule);
      CrossCopies(end, g.cross).ins[In(b)] == end.outs[Out(a)]
  {
    CrossCopyReaches(Pass(st, g.wires, r.f, r.schedule), g.cross, conn);
  }

  /** After a round, copies included, b's input holds what a put out in it. */
  lemma RoundLeavesOutput(g: Group, st: Buffers, r: Round, a: Hop, link: Link, b: Hop)
    requires Shaped(st, g.wires) && CrossShaped(st, g.cross) && RoundOk(g, r) && LinkOk(g, a, link, b)
    requires PassesThrough(st, a, r) && PassesThrough(st, b, r)
    ensures CrossShaped(Pass(st, g.wires, r.f, r.schedule), g.cross)
    ensures var end := Pass(st, g.wires, r.f, r.schedule);
      CrossCopies(end, g.cross).ins[In(b)] == end.outs[Out(a)]
  {
    match link {
      case LocalLink(conn, sandbox) => RoundLeavesLocally(g, st, r, a, conn, sandbox, b);
      case CrossLink(conn) => RoundLeavesAcross(g, st, r, a, conn, b);
    }
  }

  // ---- the whole chain ----

  datatype Session = Session(g: Group, st: Buffers, c: Chain, rs: seq<Round>)

  ghost predicate SessionOk(s: Session) {
    && ChainOk(s.g, s.c) && GroupShaped(s.g, s.st, In(s.c.hops[0])) && RoundsOk(s.g, s.rs)
    && AllPassThrough(s.st, s.c, s.rs)
  }

  /** A chain of pass-through devices, and rounds of processing it. */
  type ChainSession = s: Session | SessionOk(s)
    witness Session(Group(map[], [], []), Buffers(map[Port(0, 0) := []], map[Port(0, 0) := []]),
                    Chain([Hop(0, 0, 0)], []), [])

  /** What the client reads at the i-th device of the chain in round t. */
  function HopOutput(s: ChainSession, t: nat, i: nat): Block
    requires t < |s.rs| && i < |s.c.hops|
  {
    assert PassesThrough(s.st, s.c.hops[i], s.rs[t]);
    Output(s.g, s.st, In(s.c.hops[0]), s.rs, t, Out(s.c.hops[i]))
  }

  /** The buffers that the sandboxes begin round t with. */
  function Start(s: ChainSession, t: nat): (st: Buffers)
    requires t < |s.rs|
    ensures Shaped(st, s.g.wires) && CrossShaped(st, s.g.cross)
    ensures st.ins.Keys == s.st.ins.Keys && st.outs.Keys == s.st.outs.Keys
  {
    SameOutPorts(s.g, s.st, In(s.c.hops[0]), s.rs, t);
    Written(Before(s.g, s.st, In(s.c.hops[0]), s.rs, t), In(s.c.hops[0]), s.rs[t].input)
  }

  lemma HopOutputAt(s: ChainSession, t: nat, i: nat)
    requires t < |s.rs| && i < |s.c.hops|
    ensures RoundOk(s.g, s.rs[t]) && PassesThrough(Start(s, t), s.c.hops[i], s.rs[t])
    ensures HopOutput(s, t, i) == Pass(Start(s, t), s.g.wires, s.rs[t].f, s.rs[t].schedule).outs[Out(s.c.hops[i])]
  {
    assert PassesThrough(s.st, s.c.hops[i], s.rs[t]);
  }

  lemma HeadOutput(s: ChainSession, t: nat)
    requires t < |s.rs|
    ensures HopOutput(s, t, 0) == s.rs[t].input
  {
    var h, r, start := s.c.hops[0], s.rs[t], Start(s, t);
    HopOutputAt(s, t, 0);
    var k :| 0 <= k < |r.schedule| && r.schedule[k] == h.dev;
    UnwiredPortKeepsInput(start, s.g.wires, r.f, r.schedule[..k], In(h));
    PutsOutWhatItSees(start, s.g.wires, r, h, k);
  }

  lemma SameRound(s: ChainSession, t: nat, i: nat)
    requires t < |s.rs| && i < |s.c.links|
    requires Delay(s.g, s.c.hops[i], s.c.links[i], s.c.hops[i + 1]) == 0
    ensures HopOutput(s, t, i + 1) == HopOutput(s, t, i)
  {
    HopOutputAt(s, t, i);
    HopOutputAt(s, t, i + 1);
    LinkWithoutDelay(s.g, Start(s, t), s.rs[t], s.c.hops[i], s.c.links[i], s.c.hops[i + 1]);
  }

  /** A round begins with what the round before has left at every input of the chain but the head. */
  lemma StartHolds(s: ChainSession, t: nat, i: nat)
    requires 0 < t < |s.rs| && 0 < i < |s.c.hops| && In(s.c.hops[i]) in s.st.ins
    ensures RoundOk(s.g, s.rs[t - 1])
    ensures CrossShaped(Pass(Start(s, t - 1), s.g.wires, s.rs[t - 1].f, s.rs[t - 1].schedule), s.g.cross)
    ensures Start(s, t).ins[In(s.c.hops[i])] ==
      CrossCopies(Pass(Start(s, t - 1), s.g.wires, s.rs[t - 1].f, s.rs[t - 1].schedule), s.g.cross).ins[In(s.c.hops[i])]
  {
  }

  lemma NextRound(s: ChainSession, t: nat, i: nat)
    requires 0 < t < |s.rs| && i < |s.c.links|
    requires Delay(s.g, s.c.hops[i], s.c.links[i], s.c.hops[i + 1]) == 1
    ensures HopOutput(s, t, i + 1) == HopOutput(s, t - 1, i)
  {
    var a, link, b := s.c.hops[i], s.c.links[i], s.c.hops[i + 1];
    HopOutputAt(s, t, i + 1);
    HopOutputAt(s, t - 1, i);
    HopOutputAt(s, t - 1, i + 1);
    LinkWithDelay(s.g, Start(s, t), s.rs[t], a, link, b);
    RoundLeavesOutput(s.g, Start(s, t - 1), s.rs[t - 1], a, link, b);
    StartHolds(s, t, i + 1);
  }

  /** seen[t][i] is what comes out of the i-th device of the chain in round t. */
  ghost predicate Tabulates(s: ChainSession, seen: seq<seq<Block>>) {
    && |seen| == |s.rs| && (forall t :: 0 <= t < |seen| ==> |seen[t]| == |s.c.hops|)
    && forall t: nat, i: nat {:trigger HopOutput(s, t, i)} ::
         t < |s.rs| && i < |s.c.hops| ==> HopOutput(s, t, i) == seen[t][i]
  }

  lemma Tabulate(s: ChainSession) returns (seen: seq<seq<Block>>)
    ensures Tabulates(s, seen)
  {
    seen := seq(|s.rs|, t requires 0 <= t < |s.rs| =>
      seq(|s.c.hops|, i requires 0 <= i < |s.c.hops| => HopOutput(s, t, i)));
  }

  predicate Crosses(seen: seq<seq<Block>>, delay: nat, t: nat, i: nat) {
    delay <= t < |seen| && i + 1 < |seen[t]| && i < |seen[t - delay]| ==> seen[t][i + 1] == seen[t - delay][i]
  }

  /** Link i brings to device i + 1 what came out of device i as many rounds ago as its delay. */
  predicate LinkHolds(seen: seq<seq<Block>>, delays: seq<nat>, i: nat) {
    i < |delays| && forall t: nat :: t < |seen| ==> Crosses(seen, delays[i], t, i)
  }

  lemma LinkWithoutDelayHolds(s: ChainSession, seen: seq<seq<Block>>, delays: seq<nat>, i: nat)
    requires Tabulates(s, seen) && i < |s.c.links| && i < |delays|
    requires Delay(s.g, s.c.hops[i], s.c.links[i], s.c.hops[i + 1]) == 0 == delays[i]
    ensures LinkHolds(seen, delays, i)
  {
    forall t: nat | t < |seen|
      ensures Crosses(seen, 0, t, i)
    {
      SameRound(s, t, i);
    }
  }

  lemma LinkWithDelayHolds(s: ChainSession, seen: seq<seq<Block>>, delays: seq<nat>, i: nat)
    requires Tabulates(s, seen) && i < |s.c.links| && i < |delays|
    requires Delay(s.g, s.c.hops[i], s.c.links[i], s.c.hops[i + 1]) == 1 == delays[i]
    ensures LinkHolds(seen, delays, i)
  {
    forall t: nat | t < |seen|
      ensures Crosses(seen, 1, t, i)
    {
      if 1 <= t {
        NextRound(s, t, i);
      }
    }
  }

  predicate AllLinksHold(seen: seq<seq<Block>>, delays: seq<nat>) {
    && (forall t :: 0 <= t < |seen| ==> |seen[t]| == |delays| + 1)
    && forall i :: 0 <= i < |delays| ==> LinkHolds(seen, delays, i)
  }

  lemma LinksHold(s: ChainSession, seen: seq<seq<Block>>)
    requires Tabulates(s, seen)
    ensures AllLinksHold(seen, Delays(s.g, s.c))
  {
    var delays := Delays(s.g, s.c);
    forall i | 0 <= i < |s.c.links|
      ensures LinkHolds(seen, delays, i)
    {
      if delays[i] == 0 {
        LinkWithoutDelayHolds(s, seen, delays, i);
      } else {
        LinkWithDelayHolds(s, seen, delays, i);
      }
    }
  }

  lemma {:induction false} DelaysAddUp(seen: seq<seq<Block>>, delays: seq<nat>, t: nat, n: nat, past: nat)
    requires AllLinksHold(seen, delays)
    requires t < |seen| && n <= |delays| && past + Sum(delays[..n]) == t
    ensures seen[t][n] == seen[past][0]
  {
    if n > 0 {
      SumStep(delays, n - 1);
      assert LinkHolds(seen, delays, n - 1) && Crosses(seen, delays[n - 1], t, n - 1);
      DelaysAddUp(seen, delays, t - delays[n - 1], n - 1, past);
    }
  }

  lemma TabulatedAt(s: ChainSession, seen: seq<seq<Block>>, t: nat, n: nat)
    requires Tabulates(s, seen) && t < |s.rs| && n < |s.c.hops|
    ensures seen[t][n] == HopOutput(s, t, n)
  {
  }

  lemma TabulatedHead(s: ChainSession, seen: seq<seq<Block>>, t: nat)
    requires Tabulates(s, seen) && t < |s.rs|
    ensures seen[t][0] == s.rs[t].input
  {
    HeadOutput(s, t);
  }

  lemma TableLatency(s: ChainSession, seen: seq<seq<Block>>, t: nat, n: nat, past: nat)
    requires Tabulates(s, seen) && t < |s.rs| && n < |s.c.hops|
    requires past + TotalDelay(s.g, s.c, n) == t
    ensures seen[t][n] == seen[past][0]
  {
    LinksHold(s, seen);
    DelaysAddUp(seen, Delays(s.g, s.c), t, n, past);
  }

  /** What comes out of the n-th device of a chain of pass-through devices in round t is what
      the client wrote at the head as many rounds before as the links in between delay it,
      however the sandboxes interleave in each round. */
  lemma ChainLatency(s: ChainSession, t: nat, n: nat, past: nat)
    requires t < |s.rs| && n < |s.c.hops| && past + TotalDelay(s.g, s.c, n) == t
    ensures HopOutput(s, t, n) == s.rs[past].input
  {
    var seen := Tabulate(s);
    TableLatency(s, seen, t, n, past);
    TabulatedHead(s, seen, past);
    TabulatedAt(s, seen, t, n);
  }

  // ---- what the processing order makes of a chain in one sandbox ----

  /** The chain lies in the sandbox of this table: hops[k] is the device that iteration yields
      at place[k]. */
  predicate InSandbox(g: Group, c: Chain, table: seq<Device>, place: seq<nat>) {
    && DistinctIds(table) && (forall d | d in table :: d.id in g.wires && g.wires[d.id] == d.outputConns)
    && |place| == |c.hops| == |c.links| + 1
    && (forall k :: 0 <= k < |c.hops| ==> place[k] < |table| && table[place[k]].id == c.hops[k].dev)
    && (forall k :: 0 <= k < |c.links| ==>
          && c.links[k].LocalLink? && c.links[k].sandbox < |g.orders|
          && g.orders[c.links[k].sandbox] == Ids(ProcessingOrder(table)))
  }

  lemma LinkFeeds(g: Group, c: Chain, table: seq<Device>, place: seq<nat>, k: nat)
    requires ChainOk(g, c) && InSandbox(g, c, table, place) && k < |c.links|
    ensures Feeds(table[place[k]], c.hops[k + 1].dev)
  {
    var d, conn := table[place[k]], c.links[k].conn;
    assert LinkOk(g, c.hops[k], c.links[k], c.hops[k + 1]);
    assert d in table && d.outputConns[conn] in d.outputConns;
  }

  /** A link inside a sandbox costs a round when the consumer precedes the producer. */
  lemma ConsumerFirstDelays(g: Group, a: Hop, link: Link, b: Hop, order: seq<Device>, p: Device, c: Device)
    requires LinkOk(g, a, link, b) && link.LocalLink? && g.orders[link.sandbox] == Ids(order)
    requires Distinct(Ids(order)) && p.id == a.dev && c.id == b.dev && Precedes(order, c, p)
    ensures Delay(g, a, link, b) == 1
  {
    var m, n :| 0 <= m < n < |order| && order[m] == c && order[n] == p;
    assert Ids(order)[m] == c.id && Ids(order)[n] == p.id;
    assert Precedes(Ids(order), c.id, p.id);
    PrecedesIsAsymmetric(Ids(order), c.id, p.id);
  }

  lemma {:induction false} SumIsAtLeast(ns: seq<nat>, i: nat)
    requires i < |ns|
    ensures Sum(ns) >= ns[i]
  {
    if i < |ns| - 1 {
      SumIsAtLeast(ns[..|ns| - 1], i);
    }
  }

  /** A chain inside one sandbox whose first device no device of the sandbox feeds never goes
      through in one round, where the documentation describes that it does: in every iteration
      order of the table the first link already costs a round. */
  lemma UnfedChainAlwaysDelays(g: Group, c: Chain, table: seq<Device>, place: seq<nat>, n: nat)
    requires ChainOk(g, c) && InSandbox(g, c, table, place) && n <= |c.links|
    requires forall d | d in table :: !Feeds(d, c.hops[0].dev)
    ensures TotalDelay(g, c, n) == 0 <==> n == 0
  {
    if n > 0 {
      LinkFeeds(g, c, table, place, 0);
      UnfedProducerComesLater(table, table[place[0]], table[place[1]]);
      OrderIsDistinct(table);
      var order := ProcessingOrder(table);
      ConsumerFirstDelays(g, c.hops[0], c.links[0], c.hops[1], order, table[place[0]], table[place[1]]);
      SumIsAtLeast(Delays(g, c)[..n], 0);
    }
  }

  predicate IteratesInSignalOrder(place: seq<nat>) {
    forall k :: 0 <= k < |place| - 1 ==> place[k] < place[k + 1]
  }

  lemma SignalOrderDelays(g: Group, c: Chain, table: seq<Device>, place: seq<nat>, k: nat)
    requires ChainOk(g, c) && InSandbox(g, c, table, place) && IteratesInSignalOrder(place) && k < |c.links|
    ensures Delay(g, c.hops[k], c.links[k], c.hops[k + 1]) == 1
  {
    LinkFeeds(g, c, table, place, k);
    ConsumerBeforeEarlierProducer(table, place[k], place[k + 1]);
    OrderIsDistinct(table);
    var order := ProcessingOrder(table);
    ConsumerFirstDelays(g, c.hops[k], c.links[k], c.hops[k + 1], order, table[place[k]], table[place[k + 1]]);
  }

  /** The worst case: when the table iterates in signal order, every link costs a round. */
  lemma {:induction false} OneSandboxChainDelaysEveryLink(
      g: Group, c: Chain, table: seq<Device>, place: seq<nat>, n: nat)
    requires ChainOk(g, c) && InSandbox(g, c, table, place) && IteratesInSignalOrder(place) && n <= |c.links|
    ensures TotalDelay(g, c, n) == n
  {
    if n > 0 {
      OneSandboxChainDelaysEveryLink(g, c, table, place, n - 1);
      SignalOrderDelays(g, c, table, place, n - 1);
      SumStep(Delays(g, c), n - 1);
    }
  }
}
