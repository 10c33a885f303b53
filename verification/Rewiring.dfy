/**
 A sandbox's model under device creation, connection and disconnection.
 */
module Rewiring {
  import opened Order

  datatype Model = Model(devices: seq<Device>, processingOrder: seq<Id>)

  datatype Result = Ok(model: Model) | NoInputDevice | NoOutputDevice | NotConnected

  predicate Has(devices: seq<Device>, id: Id) {
    exists d | d in devices :: d.id == id
  }

  /** Where iteration yields the device with this id. */
  function IndexOf(devices: seq<Device>, id: Id): (i: nat)
    requires Has(devices, id)
    ensures i < |devices| && devices[i].id == id
  {
    if devices[0].id == id then 0 else 1 + IndexOf(devices[1..], id)
  }

  function Rebuilt(devices: seq<Device>): Model {
    Model(devices, Ids(ProcessingOrder(devices)))
  }

  function FirstIndex(conns: seq<PortConn>, c: PortConn): (i: nat)
    ensures i <= |conns| && (i < |conns| <==> c in conns)
    ensures i < |conns| ==> conns[i] == c
    ensures forall k :: 0 <= k < i ==> conns[k] != c
  {
    if conns == [] || conns[0] == c then 0 else 1 + FirstIndex(conns[1..], c)
  }

  function WithConns(devices: seq<Device>, i: nat, conns: seq<PortConn>): seq<Device>
    requires i < |devices|
  {
    devices[i := devices[i].(outputConns := conns)]
  }

  function Connect(m: Model, out: Id, outPort: nat, into: Id, inPort: nat): Result {
    if !Has(m.devices, into) then NoInputDevice
    else if !Has(m.devices, out) then NoOutputDevice
    else
      var i := IndexOf(m.devices, out);
      Ok(Rebuilt(WithConns(m.devices, i, m.devices[i].outputConns + [PortConn(into, outPort, inPort)])))
  }

  function Disconnect(m: Model, out: Id, outPort: nat, into: Id, inPort: nat): Result {
    if !Has(m.devices, into) then NoInputDevice
    else if !Has(m.devices, out) then NoOutputDevice
    else
      var i := IndexOf(m.devices, out);
      var conns := m.devices[i].outputConns;
      var k := FirstIndex(conns, PortConn(into, outPort, inPort));
      if k == |conns| then NotConnected
      else Ok(Rebuilt(WithConns(m.devices, i, conns[..k] + conns[k + 1..])))
  }

  /** A new device is published before the order is rebuilt.  table is how the iteration comes
      out with it, which may shuffle the others. */
  function WithDevice(m: Model, table: seq<Device>): Model {
    m.(devices := table)
  }

  predicate Inserts(m: Model, id: Id, table: seq<Device>) {
    !Has(m.devices, id) && multiset(table) == multiset(m.devices) + multiset{Device(id, [])}
  }

  // ---- what connecting and disconnecting do ----

  predicate Absent(devices: seq<Device>, id: Id) {
    forall d | d in devices :: d.id != id
  }

  predicate FirstAt(devices: seq<Device>, i: nat, id: Id) {
    i < |devices| && devices[i].id == id && forall k :: 0 <= k < i ==> devices[k].id != id
  }

  /** c leads from this output port to that input port of that device. */
  predicate Joins(c: PortConn, outPort: nat, into: Id, inPort: nat) {
    c.otherDevice == into && c.thisPort == outPort && c.otherPort == inPort
  }

  /** devices' is devices, but that the i-th has these connections. */
  predicate Rewired(devices: seq<Device>, devices': seq<Device>, i: nat, conns: seq<PortConn>) {
    && i < |devices| == |devices'|
    && devices'[i].id == devices[i].id && devices'[i].outputConns == conns
    && forall k :: 0 <= k < |devices| && k != i ==> devices'[k] == devices[k]
  }

  ghost predicate ConnAppended(ds: seq<Device>, ds': seq<Device>, out: Id, outPort: nat, into: Id, inPort: nat) {
    exists i: nat, c ::
      FirstAt(ds, i, out) && Joins(c, outPort, into, inPort) && Rewired(ds, ds', i, ds[i].outputConns + [c])
  }

  predicate NoSuchConn(ds: seq<Device>, i: nat, outPort: nat, into: Id, inPort: nat)
    requires i < |ds|
  {
    forall c | c in ds[i].outputConns :: !Joins(c, outPort, into, inPort)
  }

  /** The k-th is the first connection of the i-th device between these ports. */
  predicate FirstConnAt(ds: seq<Device>, i: nat, k: nat, outPort: nat, into: Id, inPort: nat) {
    && i < |ds| && k < |ds[i].outputConns| && Joins(ds[i].outputConns[k], outPort, into, inPort)
    && forall j :: 0 <= j < k ==> !Joins(ds[i].outputConns[j], outPort, into, inPort)
  }

  ghost predicate ConnRemoved(ds: seq<Device>, ds': seq<Device>, out: Id, outPort: nat, into: Id, inPort: nat) {
    exists i: nat, k: nat ::
      FirstAt(ds, i, out) && FirstConnAt(ds, i, k, outPort, into, inPort)
      && Rewired(ds, ds', i, ds[i].outputConns[..k] + ds[i].outputConns[k + 1..])
  }

  lemma {:induction false} IndexOfIsFirst(devices: seq<Device>, id: Id)
    requires Has(devices, id)
    ensures FirstAt(devices, IndexOf(devices, id), id)
  {
    if devices[0].id != id {
      IndexOfIsFirst(devices[1..], id);
    }
  }

  /** Connecting fails exactly when a device is missing; else the one connection is added, as the
      last of its device. */
  lemma ConnectAppends(m: Model, out: Id, outPort: nat, into: Id, inPort: nat)
    ensures match Connect(m, out, outPort, into, inPort)
      case NoInputDevice => Absent(m.devices, into)
      case NoOutputDevice => !Absent(m.devices, into) && Absent(m.devices, out)
      case NotConnected => false
      case Ok(m') =>
        !Absent(m.devices, into) && ConnAppended(m.devices, m'.devices, out, outPort, into, inPort)
  {
    if Has(m.devices, into) && Has(m.devices, out) {
      var i, c := IndexOf(m.devices, out), PortConn(into, outPort, inPort);
      IndexOfIsFirst(m.devices, out);
      assert Joins(c, outPort, into, inPort);
      assert Rewired(m.devices, Connect(m, out, outPort, into, inPort).model.devices, i,
                     m.devices[i].outputConns + [c]);
    }
  }

  /** Disconnecting fails exactly when a device is missing or there is no such connection; else
      the first such connection is taken out, and the others stay in their order. */
  lemma DisconnectRemovesFirst(m: Model, out: Id, outPort: nat, into: Id, inPort: nat)
    ensures match Disconnect(m, out, outPort, into, inPort)
      case NoInputDevice => Absent(m.devices, into)
      case NoOutputDevice => !Absent(m.devices, into) && Absent(m.devices, out)
      case NotConnected =>
        !Absent(m.devices, into) && exists i: nat ::
          FirstAt(m.devices, i, out) && NoSuchConn(m.devices, i, outPort, into, inPort)
      case Ok(m') =>
        !Absent(m.devices, into) && ConnRemoved(m.devices, m'.devices, out, outPort, into, inPort)
  {
    if Has(m.devices, into) && Has(m.devices, out) {
      var i, c := IndexOf(m.devices, out), PortConn(into, outPort, inPort);
      IndexOfIsFirst(m.devices, out);
      assert forall x :: Joins(x, outPort, into, inPort) <==> x == c;
      var conns := m.devices[i].outputConns;
      var k := FirstIndex(conns, c);
      if k < |conns| {
        assert FirstConnAt(m.devices, i, k, outPort, into, inPort);
        assert Rewired(m.devices, Disconnect(m, out, outPort, into, inPort).model.devices, i,
                       conns[..k] + conns[k + 1..]);
      }
    }
  }

  // ---- the same on the published model ----

  class App {
    var model: Model

    constructor ()
      ensures model == Model([], [])
    {
      model := Model([], []);
    }

    /** An update that throws publishes nothing. */
    method DeviceConnect(out: Id, outPort: nat, into: Id, inPort: nat) returns (result: Result)
      modifies this
      ensures result == Connect(old(model), out, outPort, into, inPort)
      ensures model == if result.Ok? then result.model else old(model)
    {
      if !Has(model.devices, into) {
        return NoInputDevice;
      }
      if !Has(model.devices, out) {
        return NoOutputDevice;
      }
      var i := IndexOf(model.devices, out);
      var outDev := model.devices[i];
      outDev := outDev.(outputConns := outDev.outputConns + [PortConn(into, outPort, inPort)]);
      var devices := model.devices[i := outDev];
      var order := MakeDeviceProcessingOrder(devices);
      model := Model(devices, order);
      result := Ok(model);
    }

    method DeviceDisconnect(out: Id, outPort: nat, into: Id, inPort: nat) returns (result: Result)
      modifies this
      ensures result == Disconnect(old(model), out, outPort, into, inPort)
      ensures model == if result.Ok? then result.model else old(model)
    {
      if !Has(model.devices, into) {
        return NoInputDevice;
      }
      if !Has(model.devices, out) {
        return NoOutputDevice;
      }
      var i := IndexOf(model.devices, out);
      var conns, conn := model.devices[i].outputConns, PortConn(into, outPort, inPort);
      var pos := 0;
      while pos < |conns| && conns[pos] != conn
        invariant pos <= |conns| && forall k :: 0 <= k < pos ==> conns[k] != conn
      {
        pos := pos + 1;
      }
      assert pos == FirstIndex(conns, conn);
      if pos == |conns| {
        return NotConnected;
      }
      var devices := model.devices[i := model.devices[i].(outputConns := conns[..pos] + conns[pos + 1..])];
      var order := MakeDeviceProcessingOrder(devices);
      model := Model(devices, order);
      result := Ok(model);
    }

    /** The second update of device_create, after the device is in the table. */
    method RebuildOrder()
      modifies this
      ensures model == Rebuilt(old(model).devices)
    {
      var order := MakeDeviceProcessingOrder(model.devices);
      model := Model(model.devices, order);
    }
  }

  // ---- runs ----

  /** The updates that publish a model; creating a device takes the first two. */
  datatype Op =
    | InsertDevice(id: Id, table: seq<Device>)
    | RebuildOrder
    | ConnectPorts(out: Id, outPort: nat, into: Id, inPort: nat)
    | DisconnectPorts(out: Id, outPort: nat, into: Id, inPort: nat)

  function OrElse(r: Result, m: Model): Model {
    if r.Ok? then r.model else m
  }

  /** Ids come from a generator, so a created device is new; anything else is not taken. */
  function Apply(m: Model, op: Op): Model {
    match op
    case InsertDevice(id, table) => if Inserts(m, id, table) then WithDevice(m, table) else m
    case RebuildOrder => Rebuilt(m.devices)
    case ConnectPorts(out, outPort, into, inPort) => OrElse(Connect(m, out, outPort, into, inPort), m)
    case DisconnectPorts(out, outPort, into, inPort) => OrElse(Disconnect(m, out, outPort, into, inPort), m)
  }

  function Run(m: Model, ops: seq<Op>): Model {
    if ops == [] then m else Apply(Run(m, ops[..|ops| - 1]), ops[|ops| - 1])
  }

  /** Every connection leads to a device of this sandbox. */
  predicate EndpointsPresent(devices: seq<Device>) {
    forall d, c | d in devices && c in d.outputConns :: Has(devices, c.otherDevice)
  }

  /** The order names devices of the table, each at most once. */
  predicate OrderSound(m: Model) {
    Distinct(m.processingOrder) && forall id | id in m.processingOrder :: Has(m.devices, id)
  }

  /** The order names exactly the devices of the table. */
  ghost predicate OrderComplete(m: Model) {
    forall id :: id in m.processingOrder <==> Has(m.devices, id)
  }

  predicate Valid(m: Model) {
    DistinctIds(m.devices) && EndpointsPresent(m.devices) && OrderSound(m)
  }

  lemma SameIds(devices: seq<Device>, id: Id)
    ensures id in Ids(ProcessingOrder(devices)) <==> Has(devices, id)
  {
    var order := ProcessingOrder(devices);
    if id in Ids(order) {
      var i :| 0 <= i < |order| && order[i].id == id;
      InOrder(devices, order[i]);
    }
    if Has(devices, id) {
      var d :| d in devices && d.id == id;
      InOrder(devices, d);
      var i :| 0 <= i < |order| && order[i] == d;
      assert Ids(order)[i] == id;
    }
  }

  lemma RebuiltIsComplete(devices: seq<Device>)
    requires DistinctIds(devices)
    ensures OrderSound(Rebuilt(devices)) && OrderComplete(Rebuilt(devices))
  {
    OrderIsDistinct(devices);
    forall id
      ensures id in Rebuilt(devices).processingOrder <==> Has(devices, id)
    {
      SameIds(devices, id);
    }
  }

  lemma RewiredIsValid(m: Model, i: nat, conns: seq<PortConn>)
    requires Valid(m) && i < |m.devices|
    requires forall c | c in conns :: Has(m.devices, c.otherDevice)
    ensures Valid(Rebuilt(WithConns(m.devices, i, conns))) && OrderComplete(Rebuilt(WithConns(m.devices, i, conns)))
  {
    var devices := WithConns(m.devices, i, conns);
    forall id | Has(m.devices, id)
      ensures Has(devices, id)
    {
      var k :| 0 <= k < |m.devices| && m.devices[k].id == id;
      assert devices[k] in devices && devices[k].id == id;
    }
    forall d, c | d in devices && c in d.outputConns
      ensures Has(devices, c.otherDevice)
    {
      var k :| 0 <= k < |devices| && devices[k] == d;
      assert m.devices[k] in m.devices;
    }
    RebuiltIsComplete(devices);
  }

  lemma InsertedMembers(m: Model, id: Id, table: seq<Device>)
    requires Inserts(m, id, table)
    ensures forall d :: d in table <==> d == Device(id, []) || d in m.devices
  {
    forall d
      ensures d in table <==> d == Device(id, []) || d in m.devices
    {
      assert d in table <==> d in multiset(table);
      assert d in m.devices <==> d in multiset(m.devices);
    }
  }

  lemma InsertedIsDistinct(m: Model, id: Id, table: seq<Device>)
    requires DistinctIds(m.devices) && Inserts(m, id, table)
    ensures DistinctIds(table)
  {
    var all := m.devices + [Device(id, [])];
    assert multiset(table) == multiset(all);
    assert forall d | d in m.devices :: d.id != id;
    forall i, j | 0 <= i < j < |table|
      ensures table[i].id != table[j].id
    {
      SameCountsSameDistinctness(all, table, i, j);
    }
  }

  lemma InsertedIsValid(m: Model, id: Id, table: seq<Device>)
    requires Valid(m) && Inserts(m, id, table)
    ensures Valid(WithDevice(m, table))
  {
    InsertedMembers(m, id, table);
    InsertedIsDistinct(m, id, table);
    forall x | Has(m.devices, x)
      ensures Has(table, x)
    {
      var d :| d in m.devices && d.id == x;
      assert d in table;
    }
  }

  /** The update rebuilds the order, rather than publish nothing or a new device alone. */
  predicate Rebuilds(m: Model, op: Op) {
    match op
    case InsertDevice(_, _) => false
    case RebuildOrder => true
    case ConnectPorts(out, outPort, into, inPort) => Connect(m, out, outPort, into, inPort).Ok?
    case DisconnectPorts(out, outPort, into, inPort) => Disconnect(m, out, outPort, into, inPort).Ok?
  }

  lemma ApplyKeepsValid(m: Model, op: Op)
    requires Valid(m)
    ensures Valid(Apply(m, op)) && (Rebuilds(m, op) ==> OrderComplete(Apply(m, op)))
  {
    match op
    case InsertDevice(id, table) =>
      if Inserts(m, id, table) {
        InsertedIsValid(m, id, table);
      }
    case RebuildOrder => RebuiltIsComplete(m.devices);
    case ConnectPorts(out, outPort, into, inPort) =>
      if Connect(m, out, outPort, into, inPort).Ok? {
        var i := IndexOf(m.devices, out);
        RewiredIsValid(m, i, m.devices[i].outputConns + [PortConn(into, outPort, inPort)]);
      }
    case DisconnectPorts(out, outPort, into, inPort) =>
      if Disconnect(m, out, outPort, into, inPort).Ok? {
        var i := IndexOf(m.devices, out);
        var conns := m.devices[i].outputConns;
        var k := FirstIndex(conns, PortConn(into, outPort, inPort));
        assert forall c | c in conns[..k] + conns[k + 1..] :: c in conns;
        RewiredIsValid(m, i, conns[..k] + conns[k + 1..]);
      }
  }

  /** Creating a device puts it into the table without connections, wherever iteration then yields
      it; the order is left as it is until it is rebuilt, and then has the device as well. */
  lemma CreateAdds(m: Model, id: Id, table: seq<Device>)
    requires Absent(m.devices, id) && multiset(table) == multiset(m.devices) + multiset{Device(id, [])}
    ensures var m' := Apply(m, InsertDevice(id, table));
      && m'.devices == table && m'.processingOrder == m.processingOrder
      && forall x :: x in Apply(m', RebuildOrder).processingOrder <==> x == id || !Absent(m.devices, x)
  {
    assert !Has(m.devices, id);
    InsertedMembers(m, id, table);
    forall x
      ensures x in Rebuilt(table).processingOrder <==> x == id || !Absent(m.devices, x)
    {
      SameIds(table, x);
      assert Has(table, x) <==> x == id || Has(m.devices, x) by {
        if Has(m.devices, x) {
          var d :| d in m.devices && d.id == x;
          assert d in table;
        }
        assert Device(id, []) in table;
      }
    }
  }

  lemma {:induction false} RunKeepsValid(m: Model, ops: seq<Op>)
    requires Valid(m)
    ensures Valid(Run(m, ops))
  {
    if ops != [] {
      RunKeepsValid(m, ops[..|ops| - 1]);
      ApplyKeepsValid(Run(m, ops[..|ops| - 1]), ops[|ops| - 1]);
    }
  }

  /** In every published model of every run, connections lead to existing devices and the
      processing order names existing devices, each once; and it names all of them whenever
      the last update rebuilt it, which leaves out only the moment in which a created device
      is in the table and not yet in the order. */
  lemma RunsKeepOrderAndEndpoints(ops: seq<Op>)
    ensures var m := Run(Model([], []), ops);
      && EndpointsPresent(m.devices) && Distinct(m.processingOrder)
      && forall id | id in m.processingOrder :: Has(m.devices, id)
    ensures ops != [] && Rebuilds(Run(Model([], []), ops[..|ops| - 1]), ops[|ops| - 1]) ==>
      forall id :: id in Run(Model([], []), ops).processingOrder <==> Has(Run(Model([], []), ops).devices, id)
  {
    RunKeepsValid(Model([], []), ops);
    if ops != [] {
      RunKeepsValid(Model([], []), ops[..|ops| - 1]);
      ApplyKeepsValid(Run(Model([], []), ops[..|ops| - 1]), ops[|ops| - 1]);
    }
  }

  // ---- connecting and disconnecting again ----

  /** Tables that agree on ids and on who feeds whom. */
  predicate SameFeeds(a: seq<Device>, b: seq<Device>) {
    |a| == |b| && forall i :: 0 <= i < |a| ==>
      a[i].id == b[i].id && multiset(a[i].outputConns) == multiset(b[i].outputConns)
  }

  lemma SameConnsFeedSame(a: Device, b: Device, id: Id)
    requires multiset(a.outputConns) == multiset(b.outputConns)
    ensures Feeds(a, id) <==> Feeds(b, id)
  {
    assert forall c :: c in a.outputConns <==> c in multiset(a.outputConns);
    assert forall c :: c in b.outputConns <==> c in multiset(b.outputConns);
  }

  lemma {:induction false} SameInsertionIndex(a: seq<Device>, b: seq<Device>, d: Device, e: Device)
    requires SameFeeds(a, b) && d.id == e.id
    ensures InsertionIndex(a, d) == InsertionIndex(b, e)
  {
    if a != [] {
      SameConnsFeedSame(a[0], b[0], d.id);
      SameInsertionIndex(a[1..], b[1..], d, e);
    }
  }

  lemma SameInsert(a: seq<Device>, b: seq<Device>, d: Device, e: Device)
    requires SameFeeds(a, b) && SameFeeds([d], [e])
    ensures SameFeeds(Insert(a, d), Insert(b, e))
  {
    assert [d][0] == d && [e][0] == e;
    SameInsertionIndex(a, b, d, e);
  }

  /** The processing order depends only on the ids and on who feeds whom. */
  lemma {:induction false} SameFeedsSameOrder(a: seq<Device>, b: seq<Device>)
    requires SameFeeds(a, b)
    ensures SameFeeds(ProcessingOrder(a), ProcessingOrder(b))
  {
    if a != [] {
      var n := |a| - 1;
      SameFeedsSameOrder(a[..n], b[..n]);
      SameInsert(ProcessingOrder(a[..n]), ProcessingOrder(b[..n]), a[n], b[n]);
    }
  }

  lemma RemoveAppended(conns: seq<PortConn>, c: PortConn)
    ensures var all := conns + [c];
      var k := FirstIndex(all, c);
      k < |all| && multiset(all[..k] + all[k + 1..]) == multiset(conns)
  {
    var all := conns + [c];
    var k := FirstIndex(all, c);
    assert all[|conns|] == c;
    assert all == all[..k] + [c] + all[k + 1..];
    assert multiset(all) == multiset(conns) + multiset{c};
    assert multiset(all) == multiset(all[..k] + [c]) + multiset(all[k + 1..]);
    assert multiset(all[..k] + [c]) == multiset(all[..k]) + multiset{c};
    var rest := multiset(all[..k] + all[k + 1..]);
    assert rest == multiset(all[..k]) + multiset(all[k + 1..]);
    assert rest + multiset{c} == multiset(conns) + multiset{c};
    assert rest == rest + multiset{c} - multiset{c} == multiset(conns) + multiset{c} - multiset{c} == multiset(conns);
  }

  lemma {:induction false} IndexOfKept(devices: seq<Device>, id: Id, i: nat, conns: seq<PortConn>)
    requires Has(devices, id) && i == IndexOf(devices, id)
    ensures var after := WithConns(devices, i, conns); Has(after, id) && IndexOf(after, id) == i
  {
    var after := WithConns(devices, i, conns);
    assert after[i] in after;
    if i > 0 {
      assert devices[1..][i - 1].id == id && devices[1..][i - 1] in devices[1..];
      IndexOfKept(devices[1..], id, i - 1, conns);
      assert after[1..] == WithConns(devices[1..], i - 1, conns);
    }
  }

  /** A successful connect and the matching disconnect leave every device with the connections
      it had, in some order, and the processing order exactly as it was. */
  lemma DisconnectUndoesConnect(m: Model, out: Id, outPort: nat, into: Id, inPort: nat)
    requires m.processingOrder == Ids(ProcessingOrder(m.devices))
    requires Connect(m, out, outPort, into, inPort).Ok?
    ensures
      var back := Disconnect(Connect(m, out, outPort, into, inPort).model, out, outPort, into, inPort);
      back.Ok? && SameFeeds(back.model.devices, m.devices) && back.model.processingOrder == m.processingOrder
  {
    var i, c := IndexOf(m.devices, out), PortConn(into, outPort, inPort);
    var conns := m.devices[i].outputConns + [c];
    var m1 := Connect(m, out, outPort, into, inPort).model;
    assert m1.devices == WithConns(m.devices, i, conns);
    IndexOfKept(m.devices, out, i, conns);
    RemoveAppended(m.devices[i].outputConns, c);
    var n :| 0 <= n < |m.devices| && m.devices[n].id == into;
    assert m1.devices[n].id == into && m1.devices[n] in m1.devices;
    var back := Disconnect(m1, out, outPort, into, inPort);
    SameFeedsSameOrder(back.model.devices, m.devices);
  }
}
