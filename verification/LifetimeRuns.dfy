/**
 Runs of the client's model: creation, deletion, activation, crashes and connections, in
 any order and with any set of processes running at each step.
 */
module LifetimeRuns {
  import opened Lifetimes

  /** The model and the id generator that all kinds of id share. */
  datatype World = World(model: Model, nextId: Id)

  const EMPTY := World(Model(map[], map[], map[]), 0)

  datatype Op =
    | CreateGroup
    | CreateSandbox(group: Id, launches: bool)
    | CreateDevice(sbox: Id)
    | EraseOne(x: Ref)
    | ConfirmActivated(sbox: Id)    // msg::out::confirm_activated arrives
    | Stopped(sbox: Id)             // the poll thread finds that the process has stopped
    | Connect(conn: CrossConn)
    | Disconnect(conn: CrossConn)

  function AddGroup(m: Model, g: Id): Model {
    m.(groups := m.groups[g := Group({}, {}, 0, false)])
  }

  function Recount(m: Model, running: set<Id>, g: Id): Model {
    if g in m.groups then
      m.(groups := m.groups[g := m.groups[g].(totalActive := ActiveCount(m, running, m.groups[g].sandboxes))])
    else m
  }

  function AddSandboxToGroup(m: Model, running: set<Id>, g: Id, s: Id): Model {
    if g in m.groups then
      Recount(m.(groups := m.groups[g := m.groups[g].(sandboxes := m.groups[g].sandboxes + {s})]), running, g)
    else m
  }

  /** A process that does not launch throws before the model is changed. */
  function AddSandbox(m: Model, running: set<Id>, g: Id, s: Id, launches: bool): Model {
    if g !in m.groups || !launches then m
    else
      var sbox := Sandbox(g, {}, true, false, false);
      AddSandboxToGroup(m.(sandboxes := m.sandboxes[s := sbox]), running, g, s)
  }

  function AddDevice(m: Model, s: Id, d: Id): Model {
    if s !in m.sandboxes then m
    else
      m.(sandboxes := m.sandboxes[s := m.sandboxes[s].(devices := m.sandboxes[s].devices + {d})],
         devices := m.devices[d := Device(s)])
  }

  function Confirm(m: Model, running: set<Id>, s: Id): Model {
    if s !in m.sandboxes then m
    else Recount(m.(sandboxes := m.sandboxes[s := m.sandboxes[s].(confirmed := true)]), running, m.sandboxes[s].group)
  }

  function Stop(m: Model, running: set<Id>, s: Id): Model {
    if s !in m.sandboxes || !m.sandboxes[s].launched || s in running then m
    else Recount(m.(sandboxes := m.sandboxes[s := m.sandboxes[s].(launched := false)]), running, m.sandboxes[s].group)
  }

  /** The group that holds the connection, when both devices are in it in different sandboxes. */
  predicate JoinsInGroup(m: Model, c: CrossConn, g: Id) {
    && c.outDev in m.devices && c.inDev in m.devices
    && m.devices[c.outDev].sbox != m.devices[c.inDev].sbox
    && m.devices[c.outDev].sbox in m.sandboxes && m.devices[c.inDev].sbox in m.sandboxes
    && m.sandboxes[m.devices[c.outDev].sbox].group == g == m.sandboxes[m.devices[c.inDev].sbox].group
    && g in m.groups
  }

  function Rewire(m: Model, c: CrossConn, add: bool): Model {
    if c.outDev !in m.devices || m.devices[c.outDev].sbox !in m.sandboxes then m
    else
      var g := m.sandboxes[m.devices[c.outDev].sbox].group;
      if JoinsInGroup(m, c, g) then
        var conns := if add then m.groups[g].conns + {c} else m.groups[g].conns - {c};
        m.(groups := m.groups[g := m.groups[g].(conns := conns)])
      else m
  }

  /** An update that throws leaves the model as it was. */
  function Apply(w: World, op: Op, running: set<Id>): World {
    var m := w.model;
    match op
    case CreateGroup => World(AddGroup(m, w.nextId), w.nextId + 1)
    case CreateSandbox(g, launches) => World(AddSandbox(m, running, g, w.nextId, launches), w.nextId + 1)
    case CreateDevice(s) => World(AddDevice(m, s, w.nextId), w.nextId + 1)
    case EraseOne(x) => (match Erase(m, running, x) case Ok(m1) => w.(model := m1) case NotFound => w)
    case ConfirmActivated(s) => w.(model := Confirm(m, running, s))
    case Stopped(s) => w.(model := Stop(m, running, s))
    case Connect(c) => w.(model := Rewire(m, c, true))
    case Disconnect(c) => w.(model := Rewire(m, c, false))
  }

  function Run(w: World, ops: seq<(Op, set<Id>)>): World
    decreases |ops|
  {
    if ops == [] then w else Run(Apply(w, ops[0].0, ops[0].1), ops[1..])
  }

  predicate IdsBelow(m: Model, n: Id) {
    && (forall d | d in m.devices :: d < n)
    && (forall s | s in m.sandboxes :: s < n)
    && (forall g | g in m.groups :: g < n)
  }

  predicate WorldValid(w: World) {
    Valid(w.model) && IdsBelow(w.model, w.nextId)
  }

  lemma RecountIsValid(m: Model, running: set<Id>, g: Id)
    requires DevicesLinked(m) && SandboxesLinked(m) && NoneReady(m)
    requires forall h | h in m.groups && h != g :: 0 <= m.groups[h].totalActive <= |m.groups[h].sandboxes|
    ensures Valid(Recount(m, running, g))
  {
  }

  lemma AddSandboxIsValid(m: Model, running: set<Id>, g: Id, s: Id, launches: bool)
    requires Valid(m) && s !in m.sandboxes
    ensures Valid(AddSandbox(m, running, g, s, launches))
  {
    if g in m.groups && launches {
      var m1 := m.(sandboxes := m.sandboxes[s := Sandbox(g, {}, true, false, false)]);
      var m2 := m1.(groups := m1.groups[g := m1.groups[g].(sandboxes := m1.groups[g].sandboxes + {s})]);
      assert DevicesLinked(m2) && SandboxesLinked(m2) && NoneReady(m2);
      RecountIsValid(m2, running, g);
    }
  }

  lemma AddDeviceIsValid(m: Model, s: Id, d: Id)
    requires Valid(m) && d !in m.devices
    ensures Valid(AddDevice(m, s, d))
  {
  }

  lemma FlagsKeepValid(m: Model, running: set<Id>, s: Id, x: Sandbox)
    requires Valid(m) && s in m.sandboxes
    requires x == m.sandboxes[s].(launched := x.launched, confirmed := x.confirmed)
    ensures Valid(Recount(m.(sandboxes := m.sandboxes[s := x]), running, x.group))
  {
    RecountIsValid(m.(sandboxes := m.sandboxes[s := x]), running, x.group);
  }

  lemma AddGroupIsValid(m: Model, g: Id)
    requires Valid(m) && g !in m.groups
    ensures Valid(AddGroup(m, g))
  {
  }

  lemma RewireIsValid(m: Model, c: CrossConn, add: bool)
    requires Valid(m)
    ensures Valid(Rewire(m, c, add))
  {
  }

  lemma EraseOneIsValid(m: Model, running: set<Id>, x: Ref)
    requires Valid(m)
    ensures match Erase(m, running, x)
      case Ok(m1) =>
        && Valid(m1) && m1.devices.Keys <= m.devices.Keys
        && m1.sandboxes.Keys <= m.sandboxes.Keys && m1.groups.Keys <= m.groups.Keys
      case NotFound => true
  {
    EraseIsAfter(m, running, x);
    AfterIsValid(m, running, {x});
  }

  lemma ApplyKeepsValid(w: World, op: Op, running: set<Id>)
    requires WorldValid(w)
    ensures Valid(Apply(w, op, running).model)
  {
    var m := w.model;
    match op
    case CreateGroup => AddGroupIsValid(m, w.nextId);
    case CreateSandbox(g, launches) => AddSandboxIsValid(m, running, g, w.nextId, launches);
    case CreateDevice(s) => AddDeviceIsValid(m, s, w.nextId);
    case EraseOne(x) => EraseOneIsValid(m, running, x);
    case ConfirmActivated(s) =>
      if s in m.sandboxes {
        FlagsKeepValid(m, running, s, m.sandboxes[s].(confirmed := true));
      }
    case Stopped(s) =>
      if s in m.sandboxes {
        FlagsKeepValid(m, running, s, m.sandboxes[s].(launched := false));
      }
    case Connect(c) => RewireIsValid(m, c, true);
    case Disconnect(c) => RewireIsValid(m, c, false);
  }

  lemma ApplyKeepsIdsBelow(w: World, op: Op, running: set<Id>)
    requires WorldValid(w)
    ensures IdsBelow(Apply(w, op, running).model, Apply(w, op, running).nextId)
  {
    if op.EraseOne? {
      EraseOneIsValid(w.model, running, op.x);
    }
  }

  lemma {:induction false} RunKeepsValid(w: World, ops: seq<(Op, set<Id>)>)
    requires WorldValid(w)
    ensures WorldValid(Run(w, ops))
    decreases |ops|
  {
    if ops != [] {
      ApplyKeepsValid(w, ops[0].0, ops[0].1);
      ApplyKeepsIdsBelow(w, ops[0].0, ops[0].1);
      RunKeepsValid(Apply(w, ops[0].0, ops[0].1), ops[1..]);
    }
  }

  /** Every reachable model links groups, sandboxes and devices both ways, holds nothing that
      is marked and empty, and counts no more active sandboxes than a group has. */
  lemma ReachableModelsAreValid(ops: seq<(Op, set<Id>)>)
    ensures Valid(Run(EMPTY, ops).model)
  {
    RunKeepsValid(EMPTY, ops);
  }

  // ---- a connection left dangling ----

  lemma {:induction false} RunOneMore(w: World, ops: seq<(Op, set<Id>)>, k: nat)
    requires k < |ops|
    ensures Run(w, ops[..k + 1]) == Apply(Run(w, ops[..k]), ops[k].0, ops[k].1)
    decreases k
  {
    if k > 0 {
      assert ops[..k + 1][1..] == ops[1..][..k] && ops[..k][1..] == ops[1..][..k - 1];
      RunOneMore(Apply(w, ops[0].0, ops[0].1), ops[1..], k - 1);
    } else {
      assert ops[..1][1..] == [];
    }
  }

  const CONN := CrossConn(3, 4, 0, 0)

  /** Two sandboxes with a device each, which are connected; then one device is erased. */
  const DANGLING: seq<(Op, set<Id>)> := [
    (CreateGroup, {}),
    (CreateSandbox(0, true), {}),
    (CreateSandbox(0, true), {}),
    (CreateDevice(1), {}),
    (CreateDevice(2), {}),
    (Connect(CONN), {}),
    (EraseOne(DeviceRef(4)), {})
  ]

  predicate TwoSandboxes(m: Model) {
    && m.groups.Keys == {0} && m.groups[0].conns == {}
    && m.sandboxes.Keys == {1, 2} && m.sandboxes[1].group == 0 == m.sandboxes[2].group
  }

  lemma SandboxesAreCreated(w: World)
    requires w == Apply(EMPTY, CreateGroup, {})
    ensures var w' := Apply(Apply(w, CreateSandbox(0, true), {}), CreateSandbox(0, true), {});
      TwoSandboxes(w'.model) && w'.model.devices == map[] && w'.nextId == 3
  {
  }

  lemma DevicesAreCreated(w: World)
    requires TwoSandboxes(w.model) && w.model.devices == map[] && w.nextId == 3
    ensures var w' := Apply(Apply(w, CreateDevice(1), {}), CreateDevice(2), {});
      TwoSandboxes(w'.model) && w'.model.devices == map[3 := Device(1), 4 := Device(2)]
  {
  }

  lemma ConnectionDangles(w: World)
    requires TwoSandboxes(w.model) && w.model.devices == map[3 := Device(1), 4 := Device(2)] && Valid(w.model)
    ensures var w' := Apply(w, Connect(CONN), {});
      ConnsValid(w'.model) && !ConnsValid(Apply(w', EraseOne(DeviceRef(4)), {}).model)
  {
    var m := Apply(w, Connect(CONN), {}).model;
    RewireIsValid(w.model, CONN, true);
    assert m.groups[0].conns == {CONN};
    EraseIsAfter(m, {}, DeviceRef(4));
    assert DeviceStays(m, {DeviceRef(4)}, 3);
    assert !m.groups[0].marked || m.groups[0].sandboxes != {};
    assert 1 in m.groups[0].sandboxes && SandboxStays(m, {DeviceRef(4)}, 1) by {
      assert 3 in m.sandboxes[1].devices;
    }
    assert GroupStays(m, {DeviceRef(4)}, 0);
    ConnsValidIffUntouched(m, {}, {DeviceRef(4)});
    assert Touches(CONN, {DeviceRef(4)});
  }

  lemma AfterThree()
    ensures var w := Run(EMPTY, DANGLING[..3]);
      TwoSandboxes(w.model) && w.model.devices == map[] && w.nextId == 3
  {
    RunOneMore(EMPTY, DANGLING, 0);
    RunOneMore(EMPTY, DANGLING, 1);
    RunOneMore(EMPTY, DANGLING, 2);
    assert Run(EMPTY, DANGLING[..0]) == EMPTY;
    SandboxesAreCreated(Run(EMPTY, DANGLING[..1]));
  }

  lemma AfterFive()
    ensures var w := Run(EMPTY, DANGLING[..5]);
      TwoSandboxes(w.model) && w.model.devices == map[3 := Device(1), 4 := Device(2)] && Valid(w.model)
  {
    AfterThree();
    RunOneMore(EMPTY, DANGLING, 3);
    RunOneMore(EMPTY, DANGLING, 4);
    DevicesAreCreated(Run(EMPTY, DANGLING[..3]));
    ReachableModelsAreValid(DANGLING[..5]);
  }

  lemma LastTwo()
    ensures Run(EMPTY, DANGLING)
      == Apply(Apply(Run(EMPTY, DANGLING[..5]), Connect(CONN), {}), EraseOne(DeviceRef(4)), {})
  {
    RunOneMore(EMPTY, DANGLING, 5);
    RunOneMore(EMPTY, DANGLING, 6);
    assert DANGLING[..7] == DANGLING;
  }

  /** A reachable model in which process_cross_sbox_connections looks for a deleted device. */
  lemma DanglingIsReachable()
    ensures !ConnsValid(Run(EMPTY, DANGLING).model)
  {
    LastTwo();
    AfterFive();
    ConnectionDangles(Run(EMPTY, DANGLING[..5]));
  }
}
