/**
 What connecting devices of different sandboxes does to the audio: the client's model with the
 copies that it makes after each round.
 */
module CrossPatching {
  import L = Lifetimes
  import R = LifetimeRuns
  import U = ModelUpdates
  import opened AudioPass
  import opened Latency

  /** The copies for a group's connections, in the order in which iteration yields them. */
  function CrossWires(order: seq<L.CrossConn>): (cross: seq<CrossWire>)
    ensures |cross| == |order|
    ensures forall i :: 0 <= i < |cross| ==>
      cross[i] == CrossWire(Port(order[i].outDev, order[i].outPort), Port(order[i].inDev, order[i].inPort))
  {
    seq(|order|, i requires 0 <= i < |order| =>
      CrossWire(Port(order[i].outDev, order[i].outPort), Port(order[i].inDev, order[i].inPort)))
  }

  /** order holds each connection of the set once. */
  predicate Iterates(order: seq<L.CrossConn>, conns: set<L.CrossConn>) {
    && (forall c | c in order :: c in conns) && (forall c | c in conns :: c in order)
    && forall i, j :: 0 <= i < j < |order| ==> order[i] != order[j]
  }

  /** Of these connections only c, if any, leads to c's input port. */
  predicate AloneAtInput(conns: set<L.CrossConn>, c: L.CrossConn) {
    forall x | x in conns && x != c :: x.inDev != c.inDev || x.inPort != c.inPort
  }

  lemma OthersAvoid(order: seq<L.CrossConn>, conns: set<L.CrossConn>, c: L.CrossConn)
    requires Iterates(order, conns) && AloneAtInput(conns, c)
    ensures forall i :: 0 <= i < |order| && order[i] != c ==> CrossWires(order)[i].dst != Port(c.inDev, c.inPort)
  {
    forall i | 0 <= i < |order| && order[i] != c
      ensures CrossWires(order)[i].dst != Port(c.inDev, c.inPort)
    {
      assert order[i] in conns;
    }
  }

  /** Once devices in different sandboxes of a group are connected, and as nothing else leads to the
      same input, the client's copies bring there what the one device has put out at its port,
      whatever the order in which it goes through the connections. */
  lemma CrossConnectedPortsCarry(w: R.World, c: L.CrossConn, g: L.Id, running: set<L.Id>,
                                 order: seq<L.CrossConn>, st: Buffers)
    requires L.Valid(w.model) && U.ApartIn(w.model, c.outDev, c.inDev, g)
    requires g in w.model.groups && AloneAtInput(w.model.groups[g].conns, c)
    requires var m' := R.Apply(w, R.Connect(c), running).model; g in m'.groups && Iterates(order, m'.groups[g].conns)
    requires CrossShaped(st, CrossWires(order))
    ensures Port(c.inDev, c.inPort) in st.ins && Port(c.outDev, c.outPort) in st.outs
    ensures CrossCopies(st, CrossWires(order)).ins[Port(c.inDev, c.inPort)] == st.outs[Port(c.outDev, c.outPort)]
  {
    var m' := R.Apply(w, R.Connect(c), running).model;
    U.RewireChangesOne(w, c, true, running);
    assert c in m'.groups[g].conns;
    assert AloneAtInput(m'.groups[g].conns, c);
    OthersAvoid(order, m'.groups[g].conns, c);
    var i :| 0 <= i < |order| && order[i] == c;
    assert CrossWires(order)[i] in CrossWires(order);
    CrossCopyReaches(st, CrossWires(order), i);
  }

  /** Once they are disconnected, the copies leave the input port alone. */
  lemma CrossDisconnectedPortIsKept(w: R.World, c: L.CrossConn, g: L.Id, running: set<L.Id>,
                                    order: seq<L.CrossConn>, st: Buffers)
    requires L.Valid(w.model) && U.ApartIn(w.model, c.outDev, c.inDev, g)
    requires g in w.model.groups && AloneAtInput(w.model.groups[g].conns, c)
    requires var m' := R.Apply(w, R.Disconnect(c), running).model; g in m'.groups && Iterates(order, m'.groups[g].conns)
    requires CrossShaped(st, CrossWires(order)) && Port(c.inDev, c.inPort) in st.ins
    ensures CrossCopies(st, CrossWires(order)).ins[Port(c.inDev, c.inPort)] == st.ins[Port(c.inDev, c.inPort)]
  {
    var m' := R.Apply(w, R.Disconnect(c), running).model;
    U.RewireChangesOne(w, c, false, running);
    assert AloneAtInput(m'.groups[g].conns, c);
    OthersAvoid(order, m'.groups[g].conns, c);
    assert c !in order;
    CrossCopyAvoids(st, CrossWires(order), Port(c.inDev, c.inPort));
  }
}
