/**
 The effect rack of the documentation's first scenario on the barrier: its sandboxes process
 side by side, in whatever way their threads run.
 */
module RackCalls {
  import opened Order
  import opened AudioPass
  import opened Latency
  import opened RoundHistory
  import opened AudioRounds
  import opened AudioCalls
  import opened Rack

  /** Every device of the rack passes its input through in every call. */
  ghost predicate RackForwards(calls: seq<Call>) {
    forall t, d, ins: map<nat, Block> :: 0 <= t < |calls| && 0 in ins ==> calls[t].f(d, 0, ins) == ins[0]
  }

  lemma RackIsPlaced(n: nat, st: Buffers)
    requires n > 0 && RackBuffers(st, n)
    ensures GroupOk(RackGroup(n)) && ChainPlaced(RackGroup(n), st, RackChain(n))
    ensures GroupShaped(RackGroup(n), st, Port(0, 0)) && In(RackChain(n).hops[0]) == Port(0, 0)
  {
    var g := RackGroup(n);
    forall h | h in RackChain(n).hops
      ensures InSomeOrder(g, h.dev)
    {
      assert h.dev in g.orders[h.dev];
    }
  }

  /** In every run of a rack of n sandboxes over the barrier, what the client reads at device k in
      its t-th call is what it wrote k calls before. */
  lemma RackRunsHaveLatency(n: nat, st: Buffers, steps: seq<Step>, t: nat, k: nat, past: nat)
    requires n > 0 && RackBuffers(st, n) && k < n && past + k == t
    ensures GroupOk(RackGroup(n)) && GroupShaped(RackGroup(n), st, Port(0, 0))
    ensures
      var written := Writes(RackGroup(n), Initial(RackGroup(n), st), Port(0, 0), steps);
      var found := Reads(RackGroup(n), Initial(RackGroup(n), st), Port(0, 0), steps);
      RackForwards(written) && t < |found| ==>
        past < |written| && Port(k, 0) in found[t].outs && found[t].outs[Port(k, 0)] == written[past].input
  {
    var g, c := RackGroup(n), RackChain(n);
    RackIsPlaced(n, st);
    ChainIsOk(n);
    EveryLinkDelays(n, k);
    var written := Writes(g, Initial(g, st), Port(0, 0), steps);
    if RackForwards(written) && t < |Reads(g, Initial(g, st), Port(0, 0), steps)| {
      forall i | 0 <= i < |written|
        ensures Forwards(c, written[i].f)
      {
      }
      RunsHaveLatency(g, st, c, steps, t, k, past);
      assert Out(c.hops[k]) == Port(k, 0);
    }
  }
}
