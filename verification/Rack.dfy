/**
 An effect rack of devices in series, each in a sandbox of its own: the first scenario of
 the documentation, for any number of devices.
 */
module Rack {
  import opened Order
  import opened AudioPass
  import opened Latency

  function NoWires(n: nat): (wires: Wiring)
    ensures forall d :: d in wires <==> 0 <= d < n
    ensures forall d | d in wires :: wires[d] == []
  {
    if n == 0 then map[] else NoWires(n - 1)[n - 1 := []]
  }

  /** Device i is the only one of sandbox i, and its output leads to device i + 1. */
  function RackGroup(n: nat): (g: Group)
    ensures forall d :: d in g.wires <==> 0 <= d < n
    ensures forall d | d in g.wires :: g.wires[d] == []
    ensures |g.orders| == n && forall i :: 0 <= i < n ==> g.orders[i] == [i]
    ensures |g.cross| == (if n == 0 then 0 else n - 1)
    ensures forall i :: 0 <= i < |g.cross| ==> g.cross[i] == CrossWire(Port(i, 0), Port(i + 1, 0))
  {
    Group(NoWires(n), seq(if n == 0 then 0 else n - 1, i => CrossWire(Port(i, 0), Port(i + 1, 0))), seq(n, i => [i]))
  }

  function RackChain(n: nat): (c: Chain)
    requires n > 0
    ensures |c.hops| == n && forall i :: 0 <= i < n ==> c.hops[i] == Hop(i, 0, 0)
    ensures |c.links| == n - 1 && forall i :: 0 <= i < n - 1 ==> c.links[i] == CrossLink(i)
  {
    Chain(seq(n, i => Hop(i, 0, 0)), seq(n - 1, i requires 0 <= i => CrossLink(i)))
  }

  /** Every device has one input and one output port. */
  ghost predicate RackBuffers(st: Buffers, n: nat) {
    forall p :: (p in st.ins <==> 0 <= p.dev < n && p.index == 0) && (p in st.outs <==> 0 <= p.dev < n && p.index == 0)
  }

  /** All devices are processed, in some order, and every one passes its input through. */
  ghost predicate RackRound(r: Round, n: nat) {
    && Distinct(r.schedule) && (forall d :: d in r.schedule <==> 0 <= d < n)
    && forall d, ins: map<nat, Block> :: 0 in ins ==> r.f(d, 0, ins) == ins[0]
  }

  lemma ChainIsOk(n: nat)
    requires n > 0
    ensures ChainOk(RackGroup(n), RackChain(n))
  {
    forall i | 0 <= i < n - 1
      ensures LinkOk(RackGroup(n), RackChain(n).hops[i], RackChain(n).links[i], RackChain(n).hops[i + 1])
    {
    }
  }

  lemma RoundIsOk(r: Round, n: nat)
    requires RackRound(r, n)
    ensures RoundOk(RackGroup(n), r)
  {
    var orders := RackGroup(n).orders;
    assert forall i :: 0 <= i < n ==> i in orders[i];
  }

  /** Any rounds of processing a rack of n sandboxes. */
  ghost predicate IsRack(s: Session, n: nat) {
    && n > 0 && s.g == RackGroup(n) && s.c == RackChain(n)
    && RackBuffers(s.st, n) && forall r | r in s.rs :: RackRound(r, n)
  }

  lemma RackIsSession(s: Session, n: nat)
    requires IsRack(s, n)
    ensures SessionOk(s)
  {
    ChainIsOk(n);
    forall t | 0 <= t < |s.rs|
      ensures RoundOk(s.g, s.rs[t])
    {
      RoundIsOk(s.rs[t], n);
    }
    forall i, t | 0 <= i < |s.c.hops| && 0 <= t < |s.rs|
      ensures PassesThrough(s.st, s.c.hops[i], s.rs[t])
    {
      assert RackRound(s.rs[t], n) && s.c.hops[i] == Hop(i, 0, 0);
    }
    assert Shaped(s.st, s.g.wires) && CrossShaped(s.st, s.g.cross);
  }

  lemma {:induction false} EveryLinkDelays(n: nat, k: nat)
    requires k < n
    ensures ChainOk(RackGroup(n), RackChain(n)) && TotalDelay(RackGroup(n), RackChain(n), k) == k
  {
    ChainIsOk(n);
    if k > 0 {
      EveryLinkDelays(n, k - 1);
      SumStep(Delays(RackGroup(n), RackChain(n)), k - 1);
    }
  }

  lemma RackDelays(s: Session, n: nat, k: nat)
    requires IsRack(s, n) && k < n
    ensures ChainOk(s.g, s.c) && TotalDelay(s.g, s.c, k) == k
  {
    EveryLinkDelays(n, k);
  }

  /** Device k puts out what the client wrote k rounds before: one buffer of latency between
      each sandbox and the next. */
  lemma OneRoundPerSandbox(s: Session, n: nat, t: nat, k: nat, past: nat)
    requires IsRack(s, n) && k < n && past + k == t < |s.rs|
    ensures SessionOk(s) && HopOutput(s, t, k) == s.rs[past].input
  {
    RackIsSession(s, n);
    RackDelays(s, n, k);
    ChainLatency(s, t, k, past);
  }
}
