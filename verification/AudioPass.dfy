/**
 One pass of audio processing: each device in turn turns its input buffers into output
 buffers, which are then copied into the inputs they are connected to.
 */
module AudioPass {
  import opened Order

  type Block = seq<real>

  datatype Port = Port(dev: Id, index: nat)

  /** The audio_in and audio_out ports of all devices. */
  datatype Buffers = Buffers(ins: map<Port, Block>, outs: map<Port, Block>)

  /** The output connections of every device. */
  type Wiring = map<Id, seq<PortConn>>

  /** What the devices compute in this pass: a device, one of its output ports, its inputs. */
  type Plugins = (Id, nat, map<nat, Block>) -> Block

  /** Every connection joins ports that exist. */
  predicate Connectable(outs: set<Port>, ins: set<Port>, d: Id, conns: seq<PortConn>) {
    forall i :: 0 <= i < |conns| ==>
      Port(d, conns[i].thisPort) in outs && Port(conns[i].otherDevice, conns[i].otherPort) in ins
  }

  predicate Shaped(st: Buffers, wires: Wiring) {
    forall d | d in wires :: Connectable(st.outs.Keys, st.ins.Keys, d, wires[d])
  }

  function CopyConn(st: Buffers, d: Id, c: PortConn): Buffers
    requires Port(d, c.thisPort) in st.outs
  {
    st.(ins := st.ins[Port(c.otherDevice, c.otherPort) := st.outs[Port(d, c.thisPort)]])
  }

  /** The output connections of d, copied one after the other. */
  function CopyConns(st: Buffers, d: Id, conns: seq<PortConn>): (st': Buffers)
    requires Connectable(st.outs.Keys, st.ins.Keys, d, conns)
    ensures st'.ins.Keys == st.ins.Keys && st'.outs == st.outs
  {
    if conns == [] then st
    else
      var st1 := CopyConns(st, d, conns[..|conns| - 1]);
      var last := conns[|conns| - 1];
      assert Port(last.otherDevice, last.otherPort) in st.ins.Keys;
      CopyConn(st1, d, last)
  }

  /** The blocks at the input ports of d, by the index of the port. */
  function InputsOf(st: Buffers, d: Id): (ins: map<nat, Block>)
    ensures forall i: nat :: i in ins <==> Port(d, i) in st.ins
    ensures forall i: nat | i in ins :: ins[i] == st.ins[Port(d, i)]
  {
    assert forall p | p in st.ins && p.dev == d :: p == Port(d, p.index);
    map p | p in st.ins && p.dev == d :: p.index := st.ins[p]
  }

  function Process(st: Buffers, f: Plugins, d: Id): (st': Buffers)
    ensures st'.ins == st.ins && st'.outs.Keys == st.outs.Keys
  {
    st.(outs := map p | p in st.outs :: if p.dev == d then f(d, p.index, InputsOf(st, d)) else st.outs[p])
  }

  function ProcessDevice(st: Buffers, wires: Wiring, f: Plugins, d: Id): (st': Buffers)
    requires Shaped(st, wires) && d in wires
    ensures Shaped(st', wires) && st'.ins.Keys == st.ins.Keys && st'.outs.Keys == st.outs.Keys
  {
    CopyConns(Process(st, f, d), d, wires[d])
  }

  predicate AllWired(order: seq<Id>, wires: Wiring) {
    forall d | d in order :: d in wires
  }

  /** The buffers after all devices of the order have been processed. */
  function Pass(st: Buffers, wires: Wiring, f: Plugins, order: seq<Id>): (st': Buffers)
    requires Shaped(st, wires) && AllWired(order, wires)
    ensures Shaped(st', wires) && st'.ins.Keys == st.ins.Keys && st'.outs.Keys == st.outs.Keys
  {
    if order == [] then st
    else ProcessDevice(Pass(st, wires, f, order[..|order| - 1]), wires, f, order[|order| - 1])
  }

  // ---- what copying does to a port ----

  /** No connection of d leads to this input port. */
  predicate Avoids(conns: seq<PortConn>, port: Port) {
    forall i :: 0 <= i < |conns| ==> conns[i].otherDevice != port.dev || conns[i].otherPort != port.index
  }

  /** The i-th is the last of the connections that lead to this input port. */
  predicate LastTo(conns: seq<PortConn>, i: int, port: Port) {
    && 0 <= i < |conns| && conns[i].otherDevice == port.dev && conns[i].otherPort == port.index
    && forall j :: i < j < |conns| ==> conns[j].otherDevice != port.dev || conns[j].otherPort != port.index
  }

  /** An input port that no connection names keeps what it held. */
  lemma {:induction false} CopyAvoids(st: Buffers, d: Id, conns: seq<PortConn>, port: Port)
    requires Connectable(st.outs.Keys, st.ins.Keys, d, conns) && port in st.ins
    requires forall i :: 0 <= i < |conns| ==> conns[i].otherDevice != port.dev || conns[i].otherPort != port.index
    ensures CopyConns(st, d, conns).ins[port] == st.ins[port]
  {
    if conns != [] {
      CopyAvoids(st, d, conns[..|conns| - 1], port);
    }
  }

  /** The last connection that names an input port brings it the output that it names. */
  lemma {:induction false} CopyReaches(st: Buffers, d: Id, conns: seq<PortConn>, i: nat)
    requires Connectable(st.outs.Keys, st.ins.Keys, d, conns) && i < |conns|
    requires forall j :: i < j < |conns| ==>
      conns[j].otherDevice != conns[i].otherDevice || conns[j].otherPort != conns[i].otherPort
    ensures Port(conns[i].otherDevice, conns[i].otherPort) in st.ins && Port(d, conns[i].thisPort) in st.outs
    ensures CopyConns(st, d, conns).ins[Port(conns[i].otherDevice, conns[i].otherPort)]
      == st.outs[Port(d, conns[i].thisPort)]
  {
    var n := |conns| - 1;
    assert CopyConns(st, d, conns) == CopyConn(CopyConns(st, d, conns[..n]), d, conns[n]);
    if i < n {
      CopyReaches(st, d, conns[..n], i);
    }
  }

  lemma {:induction false} LastToOrAvoids(conns: seq<PortConn>, port: Port)
    ensures Avoids(conns, port) || exists i :: LastTo(conns, i, port)
  {
    if conns != [] {
      var n := |conns| - 1;
      LastToOrAvoids(conns[..n], port);
      if conns[n].otherDevice == port.dev && conns[n].otherPort == port.index {
        assert LastTo(conns, n, port);
      } else if !Avoids(conns[..n], port) {
        var i :| LastTo(conns[..n], i, port);
        assert LastTo(conns, i, port);
      }
    }
  }

  /** Every input port holds what the last connection to it has brought, if there is one, and
      what it held before if not. */
  lemma CopiesDecide(st: Buffers, d: Id, conns: seq<PortConn>)
    requires Connectable(st.outs.Keys, st.ins.Keys, d, conns)
    ensures forall p | p in st.ins ::
      var after := CopyConns(st, d, conns).ins[p];
      (exists i :: LastTo(conns, i, p) && after == st.outs[Port(d, conns[i].thisPort)])
      || (Avoids(conns, p) && after == st.ins[p])
  {
    forall p | p in st.ins
      ensures var after := CopyConns(st, d, conns).ins[p];
        (exists i :: LastTo(conns, i, p) && after == st.outs[Port(d, conns[i].thisPort)])
        || (Avoids(conns, p) && after == st.ins[p])
    {
      LastToOrAvoids(conns, p);
      if Avoids(conns, p) {
        CopyAvoids(st, d, conns, p);
      } else {
        var i :| LastTo(conns, i, p);
        CopyReaches(st, d, conns, i);
      }
    }
  }

  // ---- the loops, on shared memory ----

  lemma PassSnoc(st: Buffers, wires: Wiring, f: Plugins, order: seq<Id>, n: nat)
    requires Shaped(st, wires) && AllWired(order, wires) && n < |order|
    ensures Pass(st, wires, f, order[..n + 1])
      == ProcessDevice(Pass(st, wires, f, order[..n]), wires, f, order[n])
  {
    assert order[..n + 1][..n] == order[..n];
  }

  class Sandbox {
    var buffers: Buffers

    constructor (buffers: Buffers)
      ensures this.buffers == buffers
    {
      this.buffers := buffers;
    }

    method CopyDataFromConnectedOutputs(d: Id, conns: seq<PortConn>)
      requires Connectable(buffers.outs.Keys, buffers.ins.Keys, d, conns)
      modifies this
      ensures buffers == CopyConns(old(buffers), d, conns)
      ensures buffers.outs == old(buffers).outs && buffers.ins.Keys == old(buffers).ins.Keys
      ensures forall p | p in buffers.ins ::
        (exists i :: LastTo(conns, i, p) && buffers.ins[p] == buffers.outs[Port(d, conns[i].thisPort)])
        || (Avoids(conns, p) && buffers.ins[p] == old(buffers).ins[p])
    {
      for i := 0 to |conns|
        invariant buffers == CopyConns(old(buffers), d, conns[..i])
      {
        var conn := conns[i];
        var output := buffers.outs[Port(d, conn.thisPort)];
        assert Port(conn.otherDevice, conn.otherPort) in old(buffers).ins;
        buffers := buffers.(ins := buffers.ins[Port(conn.otherDevice, conn.otherPort) := output]);
        assert conns[..i + 1][..i] == conns[..i];
      }
      assert conns[..|conns|] == conns;
      CopiesDecide(old(buffers), d, conns);
    }

    method DoProcessing(wires: Wiring, f: Plugins, order: seq<Id>)
      requires Shaped(buffers, wires) && AllWired(order, wires)
      modifies this
      ensures buffers == Pass(old(buffers), wires, f, order)
    {
      for i := 0 to |order|
        invariant Shaped(buffers, wires) && buffers == Pass(old(buffers), wires, f, order[..i])
      {
        ghost var before := buffers;
        buffers := Process(buffers, f, order[i]);
        CopyDataFromConnectedOutputs(order[i], wires[order[i]]);
        assert buffers == ProcessDevice(before, wires, f, order[i]);
        PassSnoc(old(buffers), wires, f, order, i);
      }
      assert order[..|order|] == order;
    }
  }

  // ---- what a pass does to a port ----

  /** The i-th connection of d is the last of d's that leads to this input port, and those of
      other devices lead elsewhere. */
  predicate LastWire(wires: Wiring, d: Id, i: nat, port: Port) {
    && d in wires && LastTo(wires[d], i, port)
    && forall e | e in wires && e != d :: Avoids(wires[e], port)
  }

  predicate PortUnwired(wires: Wiring, port: Port) {
    forall e | e in wires :: Avoids(wires[e], port)
  }

  lemma {:induction false} PassAvoids(st: Buffers, wires: Wiring, f: Plugins, order: seq<Id>, port: Port)
    requires Shaped(st, wires) && AllWired(order, wires) && port in st.ins
    requires forall d | d in order :: Avoids(wires[d], port)
    ensures Pass(st, wires, f, order).ins[port] == st.ins[port]
  {
    if order != [] {
      var init, d := order[..|order| - 1], order[|order| - 1];
      PassAvoids(st, wires, f, init, port);
      CopyAvoids(Process(Pass(st, wires, f, init), f, d), d, wires[d], port);
    }
  }

  /** An input port to which nothing leads keeps what the client wrote. */
  lemma UnwiredPortKeepsInput(st: Buffers, wires: Wiring, f: Plugins, order: seq<Id>, port: Port)
    requires Shaped(st, wires) && AllWired(order, wires) && port in st.ins && PortUnwired(wires, port)
    ensures Pass(st, wires, f, order).ins[port] == st.ins[port]
  {
    PassAvoids(st, wires, f, order, port);
  }

  /** Devices that are not d leave d's outputs alone. */
  lemma {:induction false} OutputsKept(st: Buffers, wires: Wiring, f: Plugins, order: seq<Id>, p: Port)
    requires Shaped(st, wires) && AllWired(order, wires) && p in st.outs && p.dev !in order
    ensures Pass(st, wires, f, order).outs[p] == st.outs[p]
  {
    if order != [] {
      OutputsKept(st, wires, f, order[..|order| - 1], p);
    }
  }

  lemma {:induction false} PassConcat(st: Buffers, wires: Wiring, f: Plugins, a: seq<Id>, b: seq<Id>)
    requires Shaped(st, wires) && AllWired(a, wires) && AllWired(b, wires)
    ensures AllWired(a + b, wires)
    ensures Pass(st, wires, f, a + b) == Pass(Pass(st, wires, f, a), wires, f, b)
  {
    if b == [] {
      assert a + b == a;
    } else {
      var n := |b| - 1;
      PassConcat(st, wires, f, a, b[..n]);
      assert (a + b)[..|a + b| - 1] == a + b[..n];
    }
  }

  /** The pass seen from the k-th device: those before it, it, those after it. */
  lemma PassSplit(st: Buffers, wires: Wiring, f: Plugins, order: seq<Id>, k: nat)
    requires Shaped(st, wires) && AllWired(order, wires) && k < |order|
    ensures AllWired(order[..k], wires) && AllWired(order[k + 1..], wires)
    ensures Pass(st, wires, f, order)
      == Pass(ProcessDevice(Pass(st, wires, f, order[..k]), wires, f, order[k]), wires, f, order[k + 1..])
  {
    PassSnoc(st, wires, f, order, k);
    assert order == order[..k + 1] + order[k + 1..];
    PassConcat(st, wires, f, order[..k + 1], order[k + 1..]);
  }

  /** A device's outputs at the end of a pass are what it made of the inputs it was given. */
  lemma OutputsOf(st: Buffers, wires: Wiring, f: Plugins, order: seq<Id>, k: nat, p: Port)
    requires Shaped(st, wires) && AllWired(order, wires) && Distinct(order) && k < |order|
    requires p in st.outs && p.dev == order[k]
    ensures Pass(st, wires, f, order).outs[p] == f(p.dev, p.index, InputsOf(Pass(st, wires, f, order[..k]), p.dev))
  {
    var before := Pass(st, wires, f, order[..k]);
    PassSplit(st, wires, f, order, k);
    OutputsKept(ProcessDevice(before, wires, f, order[k]), wires, f, order[k + 1..], p);
    assert ProcessDevice(before, wires, f, order[k]).outs == Process(before, f, order[k]).outs;
  }

  /** Of several devices that lead to an input port, the one processed last decides what a pass
      leaves there. */
  lemma LastProducerDecides(st: Buffers, wires: Wiring, f: Plugins, order: seq<Id>, d: Id, i: nat, port: Port)
    requires Shaped(st, wires) && AllWired(order, wires) && Distinct(order) && d in order
    requires d in wires && LastTo(wires[d], i, port)
    requires forall e | e in order && Precedes(order, d, e) :: Avoids(wires[e], port)
    ensures port in st.ins && Port(d, wires[d][i].thisPort) in st.outs
    ensures var end := Pass(st, wires, f, order); end.ins[port] == end.outs[Port(d, wires[d][i].thisPort)]
  {
    var k :| 0 <= k < |order| && order[k] == d;
    var before := Pass(st, wires, f, order[..k]);
    var done := ProcessDevice(before, wires, f, d);
    assert Connectable(before.outs.Keys, before.ins.Keys, d, wires[d]);
    assert port == Port(wires[d][i].otherDevice, wires[d][i].otherPort);
    CopyReaches(Process(before, f, d), d, wires[d], i);
    PassSplit(st, wires, f, order, k);
    forall e | e in order[k + 1..]
      ensures Avoids(wires[e], port)
    {
      assert e in order && Precedes(order, d, e);
    }
    PassAvoids(done, wires, f, order[k + 1..], port);
    OutputsKept(done, wires, f, order[k + 1..], Port(d, wires[d][i].thisPort));
  }

  /** What a pass leaves at a wired port is its producer's output, for the next pass to find. */
  lemma PassLeavesOutput(st: Buffers, wires: Wiring, f: Plugins, order: seq<Id>, d: Id, i: nat, port: Port)
    requires Shaped(st, wires) && AllWired(order, wires) && Distinct(order) && d in order
    requires LastWire(wires, d, i, port)
    ensures port in st.ins && Port(d, wires[d][i].thisPort) in st.outs
    ensures var end := Pass(st, wires, f, order); end.ins[port] == end.outs[Port(d, wires[d][i].thisPort)]
  {
    LastProducerDecides(st, wires, f, order, d, i, port);
  }

  lemma PrecedesIffInPrefix(order: seq<Id>, d: Id, k: nat)
    requires Distinct(order) && k < |order|
    ensures Precedes(order, d, order[k]) <==> d in order[..k]
    ensures d in order[..k] ==> d !in order[k..]
  {
    if d in order[..k] {
      var j :| 0 <= j < k && order[..k][j] == d;
      assert order[j] == d;
    }
  }

  /** When a device is processed, a wired input port holds what its producer puts out in this
      pass if the producer comes earlier in the order, and otherwise (a device feeding itself
      included) what the port held when the pass began. */
  lemma DeviceSees(st: Buffers, wires: Wiring, f: Plugins, order: seq<Id>, k: nat, d: Id, i: nat, port: Port)
    requires Shaped(st, wires) && AllWired(order, wires) && Distinct(order) && k < |order|
    requires LastWire(wires, d, i, port) && port.dev == order[k]
    ensures port in st.ins && Port(d, wires[d][i].thisPort) in st.outs
    ensures
      var seen := Pass(st, wires, f, order[..k]).ins[port];
      if Precedes(order, d, order[k]) then seen == Pass(st, wires, f, order).outs[Port(d, wires[d][i].thisPort)]
      else seen == st.ins[port]
  {
    assert Connectable(st.outs.Keys, st.ins.Keys, d, wires[d]);
    PrecedesIffInPrefix(order, d, k);
    if d in order[..k] {
      PassLeavesOutput(st, wires, f, order[..k], d, i, port);
      assert order == order[..k] + order[k..];
      PassConcat(st, wires, f, order[..k], order[k..]);
      OutputsKept(Pass(st, wires, f, order[..k]), wires, f, order[k..], Port(d, wires[d][i].thisPort));
    } else {
      PassAvoids(st, wires, f, order[..k], port);
    }
  }

  /** Two passes in a row: a device whose producer does not come earlier in the order sees
      what the producer put out in the pass before. */
  lemma DeviceSeesPreviousPass(st: Buffers, wires: Wiring, f: Plugins, g: Plugins, order: seq<Id>, k: nat, d: Id,
                               i: nat, port: Port)
    requires Shaped(st, wires) && AllWired(order, wires) && Distinct(order) && k < |order| && d in order
    requires LastWire(wires, d, i, port) && port.dev == order[k] && !Precedes(order, d, order[k])
    ensures port in st.ins && Port(d, wires[d][i].thisPort) in st.outs
    ensures
      var first := Pass(st, wires, f, order);
      Pass(first, wires, g, order[..k]).ins[port] == first.outs[Port(d, wires[d][i].thisPort)]
  {
    PassLeavesOutput(st, wires, f, order, d, i, port);
    DeviceSees(Pass(st, wires, f, order), wires, g, order, k, d, i, port);
  }
}
