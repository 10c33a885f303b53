/**
 What connecting and disconnecting the ports of two devices of a sandbox does to the audio:
 the model of Rewiring with the passes of AudioPass.
 */
module Patching {
  import opened Order
  import opened AudioPass
  import opened Rewiring
  import opened Interleaving

  lemma HasIffIdIn(devices: seq<Device>, id: Id)
    ensures Has(devices, id) <==> id in Ids(devices)
  {
    if Has(devices, id) {
      var i :| 0 <= i < |devices| && devices[i].id == id;
      assert Ids(devices)[i] == id;
    }
  }

  /** The connections of the devices in the table, as a pass looks them up. */
  function WiringOf(devices: seq<Device>): (wires: Wiring)
    ensures forall id :: id in wires <==> Has(devices, id)
    ensures forall id | id in wires :: wires[id] == devices[IndexOf(devices, id)].outputConns
  {
    assert forall id :: Has(devices, id) <==> id in Ids(devices) by {
      forall id
        ensures Has(devices, id) <==> id in Ids(devices)
      {
        HasIffIdIn(devices, id);
      }
    }
    map id | id in Ids(devices) :: devices[IndexOf(devices, id)].outputConns
  }

  lemma OrderIsWired(devices: seq<Device>)
    requires DistinctIds(devices)
    ensures var order := Ids(ProcessingOrder(devices));
      Distinct(order) && AllWired(order, WiringOf(devices)) && forall id :: id in order <==> Has(devices, id)
  {
    OrderIsDistinct(devices);
    forall id
      ensures id in Ids(ProcessingOrder(devices)) <==> Has(devices, id)
    {
      SameIds(devices, id);
    }
  }

  /** No device but this one has a connection to this input port. */
  predicate OthersAvoid(devices: seq<Device>, id: Id, port: Port) {
    forall d, c | d in devices && d.id != id && c in d.outputConns ::
      c.otherDevice != port.dev || c.otherPort != port.index
  }

  lemma RewiredOthersAvoid(ds: seq<Device>, ds': seq<Device>, i: nat, conns: seq<PortConn>, port: Port)
    requires Rewired(ds, ds', i, conns) && OthersAvoid(ds, ds[i].id, port)
    ensures forall e | e in WiringOf(ds') && e != ds[i].id :: Avoids(WiringOf(ds')[e], port)
  {
    forall e | e in WiringOf(ds') && e != ds[i].id
      ensures Avoids(WiringOf(ds')[e], port)
    {
      var k := IndexOf(ds', e);
      assert ds'[k] == ds[k] && ds[k] in ds;
      assert forall j :: 0 <= j < |ds[k].outputConns| ==> ds[k].outputConns[j] in ds[k].outputConns;
    }
  }

  lemma RewiredIndexOf(ds: seq<Device>, ds': seq<Device>, i: nat, conns: seq<PortConn>)
    requires DistinctIds(ds) && Rewired(ds, ds', i, conns)
    ensures DistinctIds(ds') && Has(ds', ds[i].id) && IndexOf(ds', ds[i].id) == i
  {
    assert ds'[i] in ds';
  }

  lemma OkIsRebuilt(m: Model, out: Id, outPort: nat, into: Id, inPort: nat)
    ensures var r := Connect(m, out, outPort, into, inPort); r.Ok? ==> r.model == Rebuilt(r.model.devices)
    ensures var r := Disconnect(m, out, outPort, into, inPort); r.Ok? ==> r.model == Rebuilt(r.model.devices)
  {
  }

  /** Once two ports are connected, and as no other device leads to the same input, every pass
      leaves there what the one device puts out at its port: whatever the order, and whatever
      other connections the device has. */
  lemma ConnectedPortsCarry(m: Model, out: Id, outPort: nat, into: Id, inPort: nat, st: Buffers, f: Plugins)
    requires DistinctIds(m.devices) && OthersAvoid(m.devices, out, Port(into, inPort))
    requires Connect(m, out, outPort, into, inPort).Ok?
    requires Shaped(st, WiringOf(Connect(m, out, outPort, into, inPort).model.devices))
    ensures
      var m' := Connect(m, out, outPort, into, inPort).model;
      var wires := WiringOf(m'.devices);
      && AllWired(m'.processingOrder, wires)
      && Port(into, inPort) in st.ins && Port(out, outPort) in st.outs
      && var end := Pass(st, wires, f, m'.processingOrder); end.ins[Port(into, inPort)] == end.outs[Port(out, outPort)]
  {
    var m', port := Connect(m, out, outPort, into, inPort).model, Port(into, inPort);
    var wires := WiringOf(m'.devices);
    ConnectAppends(m, out, outPort, into, inPort);
    OkIsRebuilt(m, out, outPort, into, inPort);
    var i: nat, c :| FirstAt(m.devices, i, out) && Joins(c, outPort, into, inPort)
      && Rewired(m.devices, m'.devices, i, m.devices[i].outputConns + [c]);
    RewiredIndexOf(m.devices, m'.devices, i, m.devices[i].outputConns + [c]);
    RewiredOthersAvoid(m.devices, m'.devices, i, m.devices[i].outputConns + [c], port);
    OrderIsWired(m'.devices);
    var n := |m.devices[i].outputConns|;
    assert wires[out][n] == c && LastWire(wires, out, n, port);
    PassLeavesOutput(st, wires, f, m'.processingOrder, out, n, port);
  }

  /** At most one of these connections leads to this input port. */
  predicate AtMostOneTo(conns: seq<PortConn>, port: Port) {
    forall j, k :: 0 <= j < k < |conns| ==> Avoids([conns[j]], port) || Avoids([conns[k]], port)
  }

  lemma RemovedAvoids(conns: seq<PortConn>, k: nat, port: Port)
    requires AtMostOneTo(conns, port) && k < |conns|
    requires conns[k].otherDevice == port.dev && conns[k].otherPort == port.index
    ensures Avoids(conns[..k] + conns[k + 1..], port)
  {
    var rest := conns[..k] + conns[k + 1..];
    assert !Avoids([conns[k]], port) by {
      assert [conns[k]][0] == conns[k];
    }
    forall i | 0 <= i < |rest|
      ensures rest[i].otherDevice != port.dev || rest[i].otherPort != port.index
    {
      var j := if i < k then i else i + 1;
      assert rest[i] == conns[j] == [conns[j]][0];
      assert Avoids([conns[j]], port);
    }
  }

  /** Once the only connection to an input port is gone, no pass touches the port. */
  lemma DisconnectedPortIsKept(m: Model, out: Id, outPort: nat, into: Id, inPort: nat, st: Buffers, f: Plugins)
    requires DistinctIds(m.devices) && OthersAvoid(m.devices, out, Port(into, inPort))
    requires Disconnect(m, out, outPort, into, inPort).Ok?
    requires forall d | d in m.devices && d.id == out :: AtMostOneTo(d.outputConns, Port(into, inPort))
    requires Shaped(st, WiringOf(Disconnect(m, out, outPort, into, inPort).model.devices))
    requires Port(into, inPort) in st.ins
    ensures
      var m' := Disconnect(m, out, outPort, into, inPort).model;
      && AllWired(m'.processingOrder, WiringOf(m'.devices))
      && Pass(st, WiringOf(m'.devices), f, m'.processingOrder).ins[Port(into, inPort)] == st.ins[Port(into, inPort)]
  {
    var m', port := Disconnect(m, out, outPort, into, inPort).model, Port(into, inPort);
    var wires := WiringOf(m'.devices);
    DisconnectRemovesFirst(m, out, outPort, into, inPort);
    OkIsRebuilt(m, out, outPort, into, inPort);
    var i: nat, k: nat :| FirstAt(m.devices, i, out) && FirstConnAt(m.devices, i, k, outPort, into, inPort)
      && Rewired(m.devices, m'.devices, i, m.devices[i].outputConns[..k] + m.devices[i].outputConns[k + 1..]);
    var conns := m.devices[i].outputConns;
    RewiredIndexOf(m.devices, m'.devices, i, conns[..k] + conns[k + 1..]);
    RewiredOthersAvoid(m.devices, m'.devices, i, conns[..k] + conns[k + 1..], port);
    OrderIsWired(m'.devices);
    assert m.devices[i] in m.devices;
    RemovedAvoids(conns, k, port);
    assert wires[out] == conns[..k] + conns[k + 1..];
    UnwiredPortKeepsInput(st, wires, f, m'.processingOrder, port);
  }

  /** Whenever the last update of a sandbox's model has rebuilt the order, its connections stay
      inside the sandbox, and its audio thread goes through all its devices. */
  lemma RebuiltIsWiredInside(ops: seq<Op>)
    requires ops != [] && Rebuilds(Rewiring.Run(Model([], []), ops[..|ops| - 1]), ops[|ops| - 1])
    ensures var m := Rewiring.Run(Model([], []), ops);
      WiredInside(WiringOf(m.devices), m.processingOrder) && Distinct(m.processingOrder)
      && forall d :: d in m.processingOrder <==> d in WiringOf(m.devices)
  {
    RunsKeepOrderAndEndpoints(ops);
    var m := Rewiring.Run(Model([], []), ops);
    var wires: Wiring := WiringOf(m.devices);
    forall d, i | d in wires && d in m.processingOrder && 0 <= i && i < |wires[d]|
      ensures wires[d][i].otherDevice in m.processingOrder
    {
      var k := IndexOf(m.devices, d);
      assert m.devices[k] in m.devices && wires[d][i] in m.devices[k].outputConns;
    }
  }
}
