/**
 The client's tables of groups, sandboxes and devices, with deferred deletion.
 Updates take a model and return a new one, as the persistent tables do.
 running is the set of sandboxes whose process is running.
 */
module Lifetimes {

  type Id = int

  datatype Device = Device(sbox: Id)

  datatype Sandbox = Sandbox(group: Id, devices: set<Id>, launched: bool, confirmed: bool, marked: bool)

  datatype CrossConn = CrossConn(outDev: Id, inDev: Id, outPort: nat, inPort: nat)

  datatype Group = Group(sandboxes: set<Id>, conns: set<CrossConn>, totalActive: int, marked: bool)

  datatype Model = Model(devices: map<Id, Device>, sandboxes: map<Id, Sandbox>, groups: map<Id, Group>)

  /** An id together with the kind of thing it names. */
  datatype Ref = DeviceRef(id: Id) | SandboxRef(id: Id) | GroupRef(id: Id)

  /** NotFound is what at() throws for an id that is not in the table. */
  datatype Result = Ok(model: Model) | NotFound

  predicate Exists(m: Model, x: Ref) {
    match x
    case DeviceRef(d) => d in m.devices
    case SandboxRef(s) => s in m.sandboxes
    case GroupRef(g) => g in m.groups
  }

  predicate Marked(m: Model, x: Ref) {
    match x
    case DeviceRef(_) => false
    case SandboxRef(s) => s in m.sandboxes && m.sandboxes[s].marked
    case GroupRef(g) => g in m.groups && m.groups[g].marked
  }

  // ---- active sandboxes ----

  predicate Active(m: Model, running: set<Id>, s: Id) {
    s in m.sandboxes && m.sandboxes[s].launched && m.sandboxes[s].confirmed && s in running
  }

  lemma {:induction false} SubsetSize<T>(a: set<T>, b: set<T>)
    requires a <= b
    ensures |a| <= |b|
  {
    if a != {} {
      var x :| x in a;
      SubsetSize(a - {x}, b - {x});
    }
  }

  function ActiveCount(m: Model, running: set<Id>, ids: set<Id>): (n: nat)
    ensures n <= |ids|
  {
    SubsetSize((set s | s in ids && Active(m, running, s)), ids);
    |set s | s in ids && Active(m, running, s)|
  }

  lemma Pick<T>(s: set<T>) returns (x: T)
    requires s != {}
    ensures x in s
  {
    x :| x in s;
  }

  function Elems(ids: seq<Id>): set<Id> {
    set s | s in ids
  }

  lemma CountOneMore(m: Model, running: set<Id>, order: seq<Id>, i: nat)
    requires i < |order| && order[i] !in order[..i]
    ensures ActiveCount(m, running, Elems(order[..i + 1]))
      == ActiveCount(m, running, Elems(order[..i])) + if Active(m, running, order[i]) then 1 else 0
  {
    var before := set s | s in Elems(order[..i]) && Active(m, running, s);
    var after := set s | s in Elems(order[..i + 1]) && Active(m, running, s);
    assert order[..i + 1] == order[..i] + [order[i]];
    if Active(m, running, order[i]) {
      assert after == before + {order[i]};
    } else {
      assert after == before;
    }
  }

  /** get_active_sandbox_count; order is the iteration order of the group's set of sandboxes. */
  method CountActive(m: Model, running: set<Id>, order: seq<Id>) returns (total: nat)
    requires forall i, j :: 0 <= i < j < |order| ==> order[i] != order[j]
    ensures total == ActiveCount(m, running, Elems(order))
    ensures total == |set s | s in order && s in m.sandboxes && m.sandboxes[s].launched && m.sandboxes[s].confirmed
                        && s in running|
  {
    total := 0;
    for i := 0 to |order|
      invariant total == ActiveCount(m, running, Elems(order[..i]))
    {
      CountOneMore(m, running, order, i);
      if Active(m, running, order[i]) {
        total := total + 1;
      }
    }
    assert order[..|order|] == order;
    assert (set s | s in Elems(order) && Active(m, running, s))
        == (set s | s in order && s in m.sandboxes && m.sandboxes[s].launched && m.sandboxes[s].confirmed
              && s in running);
  }

  // ---- well-formed models ----

  predicate DevicesLinked(m: Model) {
    && (forall d | d in m.devices ::
          m.devices[d].sbox in m.sandboxes && d in m.sandboxes[m.devices[d].sbox].devices)
    && (forall s, d | s in m.sandboxes && d in m.sandboxes[s].devices ::
          d in m.devices && m.devices[d].sbox == s)
  }

  predicate SandboxesLinked(m: Model) {
    && (forall s | s in m.sandboxes ::
          m.sandboxes[s].group in m.groups && s in m.groups[m.sandboxes[s].group].sandboxes)
    && (forall g, s | g in m.groups && s in m.groups[g].sandboxes ::
          s in m.sandboxes && m.sandboxes[s].group == g)
  }

  /** Nothing that is marked for deletion is ready to be deleted. */
  predicate NoneReady(m: Model) {
    && (forall s | s in m.sandboxes :: m.sandboxes[s].marked ==> m.sandboxes[s].devices != {})
    && (forall g | g in m.groups :: m.groups[g].marked ==> m.groups[g].sandboxes != {})
  }

  predicate CountsBounded(m: Model) {
    forall g | g in m.groups :: 0 <= m.groups[g].totalActive <= |m.groups[g].sandboxes|
  }

  predicate Valid(m: Model) {
    DevicesLinked(m) && SandboxesLinked(m) && NoneReady(m) && CountsBounded(m)
  }

  // ---- deletion ----

  function ActuallyEraseGroup(m: Model, g: Id): Model {
    m.(groups := m.groups - {g})
  }

  function RemoveSandboxFromGroup(m: Model, running: set<Id>, g: Id, s: Id): Model {
    if g in m.groups then
      var left := m.groups[g].sandboxes - {s};
      m.(groups := m.groups[g := m.groups[g].(sandboxes := left, totalActive := ActiveCount(m, running, left))])
    else m
  }

  function ActuallyEraseSandbox(m: Model, running: set<Id>, s: Id): Result
    requires s in m.sandboxes
  {
    var g := m.sandboxes[s].group;
    var m1 := RemoveSandboxFromGroup(m, running, g, s);
    var m2 := m1.(sandboxes := m1.sandboxes - {s});
    if g !in m2.groups then NotFound
    else if m2.groups[g].marked && m2.groups[g].sandboxes == {} then Ok(ActuallyEraseGroup(m2, g))
    else Ok(m2)
  }

  function RemoveDeviceFromSandbox(m: Model, s: Id, d: Id): Model {
    if s in m.sandboxes then
      m.(sandboxes := m.sandboxes[s := m.sandboxes[s].(devices := m.sandboxes[s].devices - {d})])
    else m
  }

  function EraseDevice(m: Model, running: set<Id>, d: Id): Result {
    if d !in m.devices then NotFound
    else
      var s := m.devices[d].sbox;
      var m1 := RemoveDeviceFromSandbox(m, s, d);
      var m2 := m1.(devices := m1.devices - {d});
      if s !in m2.sandboxes then NotFound
      else if m2.sandboxes[s].marked && m2.sandboxes[s].devices == {} then ActuallyEraseSandbox(m2, running, s)
      else Ok(m2)
  }

  function EraseSandbox(m: Model, running: set<Id>, s: Id): Result {
    if s !in m.sandboxes then NotFound
    else if m.sandboxes[s].devices == {} then ActuallyEraseSandbox(m, running, s)
    else Ok(m.(sandboxes := m.sandboxes[s := m.sandboxes[s].(marked := true)]))
  }

  function EraseGroup(m: Model, g: Id): Result {
    if g !in m.groups then NotFound
    else if m.groups[g].sandboxes == {} then Ok(ActuallyEraseGroup(m, g))
    else Ok(m.(groups := m.groups[g := m.groups[g].(marked := true)]))
  }

  function Erase(m: Model, running: set<Id>, x: Ref): Result {
    match x
    case DeviceRef(d) => EraseDevice(m, running, d)
    case SandboxRef(s) => EraseSandbox(m, running, s)
    case GroupRef(g) => EraseGroup(m, g)
  }

  // ---- what deletion comes to ----

  predicate DeviceStays(m: Model, e: set<Ref>, d: Id) {
    d in m.devices && DeviceRef(d) !in e
  }

  predicate SandboxStays(m: Model, e: set<Ref>, s: Id) {
    s in m.sandboxes &&
    ((SandboxRef(s) !in e && !m.sandboxes[s].marked) || exists d | d in m.sandboxes[s].devices :: DeviceStays(m, e, d))
  }

  predicate GroupStays(m: Model, e: set<Ref>, g: Id) {
    g in m.groups &&
    ((GroupRef(g) !in e && !m.groups[g].marked) || exists s | s in m.groups[g].sandboxes :: SandboxStays(m, e, s))
  }

  function SandboxAfter(m: Model, e: set<Ref>, s: Id): Sandbox
    requires s in m.sandboxes
  {
    var x := m.sandboxes[s];
    x.(devices := (set d | d in x.devices && DeviceStays(m, e, d)), marked := x.marked || SandboxRef(s) in e)
  }

  function GroupAfter(m: Model, running: set<Id>, e: set<Ref>, g: Id): Group
    requires g in m.groups
  {
    var x := m.groups[g];
    var left := set s | s in x.sandboxes && SandboxStays(m, e, s);
    x.(sandboxes := left, marked := x.marked || GroupRef(g) in e,
       totalActive := if left == x.sandboxes then x.totalActive else ActiveCount(m, running, left))
  }

  /** The model in which everything in e has been asked to go: a device stays if it is not in
      e, a sandbox if it is not in e or has a device that stays, a group if it is not in e or
      has a sandbox that stays; what stays is marked if it is in e.  Earlier marks count as
      requests too. */
  function After(m: Model, running: set<Id>, e: set<Ref>): Model {
    Model(
      map d | d in m.devices && DeviceStays(m, e, d) :: m.devices[d],
      map s | s in m.sandboxes && SandboxStays(m, e, s) :: SandboxAfter(m, e, s),
      map g | g in m.groups && GroupStays(m, e, g) :: GroupAfter(m, running, e, g))
  }

  /** A sandbox that loses no device and is not asked to go stays as it is. */
  lemma SandboxUntouched(m: Model, e: set<Ref>, s: Id)
    requires Valid(m) && s in m.sandboxes
    requires forall d | d in m.sandboxes[s].devices :: DeviceRef(d) !in e
    ensures SandboxAfter(m, e, s) == m.sandboxes[s].(marked := m.sandboxes[s].marked || SandboxRef(s) in e)
    ensures m.sandboxes[s].devices != {} || SandboxRef(s) !in e ==> SandboxStays(m, e, s)
  {
    assert SandboxAfter(m, e, s).devices == m.sandboxes[s].devices;
    if m.sandboxes[s].devices != {} {
      var d := Pick(m.sandboxes[s].devices);
      assert DeviceStays(m, e, d);
    }
  }

  lemma SandboxesUntouched(m: Model, running: set<Id>, e: set<Ref>)
    requires Valid(m) && forall x | x in e :: x.GroupRef?
    ensures After(m, running, e).sandboxes == m.sandboxes
    ensures forall s | s in m.sandboxes :: SandboxStays(m, e, s)
  {
    forall s | s in m.sandboxes
      ensures SandboxStays(m, e, s) && SandboxAfter(m, e, s) == m.sandboxes[s]
    {
      SandboxUntouched(m, e, s);
    }
  }

  /** A group that loses no sandbox and is not asked to go stays as it is. */
  lemma GroupUntouched(m: Model, running: set<Id>, e: set<Ref>, g: Id)
    requires Valid(m) && g in m.groups
    requires forall s | s in m.groups[g].sandboxes :: SandboxStays(m, e, s)
    ensures GroupAfter(m, running, e, g) == m.groups[g].(marked := m.groups[g].marked || GroupRef(g) in e)
    ensures m.groups[g].sandboxes != {} || GroupRef(g) !in e ==> GroupStays(m, e, g)
  {
    assert GroupAfter(m, running, e, g).sandboxes == m.groups[g].sandboxes;
    if m.groups[g].sandboxes != {} {
      var s := Pick(m.groups[g].sandboxes);
      assert SandboxStays(m, e, s);
    }
  }

  lemma GroupsUntouched(m: Model, running: set<Id>, e: set<Ref>)
    requires Valid(m) && (forall x | x in e :: !x.GroupRef?)
    requires forall s | s in m.sandboxes :: SandboxStays(m, e, s)
    ensures After(m, running, e).groups == m.groups
  {
    forall g | g in m.groups
      ensures GroupStays(m, e, g) && GroupAfter(m, running, e, g) == m.groups[g]
    {
      GroupUntouched(m, running, e, g);
    }
  }

  lemma EraseGroupIsAfter(m: Model, running: set<Id>, g: Id)
    requires Valid(m) && g in m.groups
    ensures EraseGroup(m, g) == Ok(After(m, running, {GroupRef(g)}))
  {
    var e := {GroupRef(g)};
    var a, b := EraseGroup(m, g).model, After(m, running, e);
    assert a.devices == b.devices;
    SandboxesUntouched(m, running, e);
    forall h | h in m.groups && h != g
      ensures GroupStays(m, e, h)
    {
      GroupUntouched(m, running, e, h);
    }
    GroupUntouched(m, running, e, g);
    assert a.groups == b.groups;
  }

  /** e asks for no more than the sandbox s and its devices, and is enough for s to go. */
  predicate EndsSandbox(m: Model, e: set<Ref>, s: Id) {
    && s in m.sandboxes && !SandboxStays(m, e, s)
    && forall x | x in e :: x == SandboxRef(s) || (x.DeviceRef? && x.id in m.sandboxes[s].devices)
  }

  lemma OtherSandboxesStay(m: Model, e: set<Ref>, s: Id, t: Id)
    requires Valid(m) && EndsSandbox(m, e, s) && t in m.sandboxes && t != s
    ensures SandboxStays(m, e, t) && SandboxAfter(m, e, t) == m.sandboxes[t]
  {
    forall d | d in m.sandboxes[t].devices
      ensures DeviceRef(d) !in e
    {
      assert m.devices[d].sbox == t;
    }
    SandboxUntouched(m, e, t);
  }

  lemma GroupLosesSandbox(m: Model, running: set<Id>, e: set<Ref>, s: Id)
    requires Valid(m) && EndsSandbox(m, e, s)
    ensures var g := m.sandboxes[s].group;
      var left := m.groups[g].sandboxes - {s};
      && GroupAfter(m, running, e, g) == m.groups[g].(sandboxes := left, totalActive := ActiveCount(m, running, left))
      && (GroupStays(m, e, g) <==> !m.groups[g].marked || left != {})
    ensures forall h | h in m.groups && h != m.sandboxes[s].group ::
      GroupStays(m, e, h) && GroupAfter(m, running, e, h) == m.groups[h]
  {
    var g := m.sandboxes[s].group;
    var left := m.groups[g].sandboxes - {s};
    forall t | t in m.sandboxes && t != s
      ensures SandboxStays(m, e, t)
    {
      OtherSandboxesStay(m, e, s, t);
    }
    assert GroupAfter(m, running, e, g).sandboxes == left;
    if left != {} {
      var t := Pick(left);
      assert SandboxStays(m, e, t);
    }
    forall h | h in m.groups && h != g
      ensures GroupStays(m, e, h) && GroupAfter(m, running, e, h) == m.groups[h]
    {
      GroupUntouched(m, running, e, h);
    }
  }

  /** The groups once sandbox s has left group g, and g with it if it was only waiting for that. */
  function GroupsWithout(m: Model, running: set<Id>, g: Id, s: Id): map<Id, Group>
    requires g in m.groups
  {
    var x := m.groups[g];
    var left := x.sandboxes - {s};
    if x.marked && left == {} then m.groups - {g}
    else m.groups[g := x.(sandboxes := left, totalActive := ActiveCount(m, running, left))]
  }

  lemma SameActiveCount(m: Model, m1: Model, running: set<Id>, ids: set<Id>)
    requires forall t | t in ids :: t in m.sandboxes && t in m1.sandboxes && m1.sandboxes[t] == m.sandboxes[t]
    ensures ActiveCount(m1, running, ids) == ActiveCount(m, running, ids)
  {
    assert (set t | t in ids && Active(m1, running, t)) == (set t | t in ids && Active(m, running, t));
  }

  lemma GroupsLose(m: Model, running: set<Id>, e: set<Ref>, s: Id)
    requires Valid(m) && EndsSandbox(m, e, s)
    ensures GroupsWithout(m, running, m.sandboxes[s].group, s) == After(m, running, e).groups
  {
    GroupLosesSandbox(m, running, e, s);
  }

  lemma SandboxesLose(m: Model, running: set<Id>, e: set<Ref>, m1: Model, s: Id)
    requires Valid(m) && EndsSandbox(m, e, s) && m1.sandboxes.Keys == m.sandboxes.Keys
    requires forall t | t in m.sandboxes && t != s :: m1.sandboxes[t] == m.sandboxes[t]
    ensures m1.sandboxes - {s} == After(m, running, e).sandboxes
  {
    var b := After(m, running, e);
    forall t | t in m.sandboxes && t != s
      ensures t in b.sandboxes && b.sandboxes[t] == m.sandboxes[t]
    {
      OtherSandboxesStay(m, e, s, t);
    }
  }

  /** Deleting a sandbox whose devices are gone, seen from the model m in which e was asked. */
  lemma ActuallyEraseSandboxIsAfter(m: Model, running: set<Id>, e: set<Ref>, m1: Model, s: Id)
    requires Valid(m) && EndsSandbox(m, e, s)
    requires m1.devices == After(m, running, e).devices && m1.groups == m.groups
    requires m1.sandboxes.Keys == m.sandboxes.Keys && m1.sandboxes[s].group == m.sandboxes[s].group
    requires forall t | t in m.sandboxes && t != s :: m1.sandboxes[t] == m.sandboxes[t]
    ensures ActuallyEraseSandbox(m1, running, s) == Ok(After(m, running, e))
  {
    var g := m.sandboxes[s].group;
    assert ActuallyEraseSandbox(m1, running, s)
      == Ok(Model(m1.devices, m1.sandboxes - {s}, GroupsWithout(m1, running, g, s)));
    SandboxesLose(m, running, e, m1, s);
    SameActiveCount(m, m1, running, m.groups[g].sandboxes - {s});
    GroupsLose(m, running, e, s);
  }

  lemma EraseSandboxIsAfter(m: Model, running: set<Id>, s: Id)
    requires Valid(m) && s in m.sandboxes
    ensures EraseSandbox(m, running, s) == Ok(After(m, running, {SandboxRef(s)}))
  {
    var e := {SandboxRef(s)};
    var b := After(m, running, e);
    assert b.devices == m.devices;
    if m.sandboxes[s].devices == {} {
      ActuallyEraseSandboxIsAfter(m, running, e, m, s);
    } else {
      var a := EraseSandbox(m, running, s).model;
      forall t | t in m.sandboxes
        ensures SandboxStays(m, e, t)
      {
        SandboxUntouched(m, e, t);
      }
      SandboxUntouched(m, e, s);
      forall t | t in m.sandboxes
        ensures b.sandboxes[t] == a.sandboxes[t]
      {
        SandboxUntouched(m, e, t);
      }
      assert a.sandboxes == b.sandboxes;
      GroupsUntouched(m, running, e);
    }
  }

  lemma EraseDeviceIsAfter(m: Model, running: set<Id>, d: Id)
    requires Valid(m) && d in m.devices
    ensures EraseDevice(m, running, d) == Ok(After(m, running, {DeviceRef(d)}))
  {
    var e, s := {DeviceRef(d)}, m.devices[d].sbox;
    var b := After(m, running, e);
    var m1 := RemoveDeviceFromSandbox(m, s, d);
    var m2 := m1.(devices := m1.devices - {d});
    assert m2.devices == b.devices;
    var left := m.sandboxes[s].devices - {d};
    assert SandboxAfter(m, e, s).devices == left;
    assert forall x | x in left :: DeviceStays(m, e, x);
    if m.sandboxes[s].marked && left == {} {
      forall x | x in m.sandboxes[s].devices
        ensures x == d
      {
        assert x in left || x == d;
      }
      ActuallyEraseSandboxIsAfter(m, running, e, m2, s);
    } else {
      assert SandboxStays(m, e, s) by {
        if left != {} {
          var x := Pick(left);
          assert DeviceStays(m, e, x);
        }
      }
      forall t | t in m.sandboxes && t != s
        ensures SandboxStays(m, e, t) && SandboxAfter(m, e, t) == m.sandboxes[t]
      {
        SandboxUntouched(m, e, t);
      }
      assert m2.sandboxes == b.sandboxes;
      GroupsUntouched(m, running, e);
    }
  }

  /** One erase does exactly what After says of its one id, or finds nothing to erase. */
  lemma EraseIsAfter(m: Model, running: set<Id>, x: Ref)
    requires Valid(m)
    ensures Erase(m, running, x) == if Exists(m, x) then Ok(After(m, running, {x})) else NotFound
  {
    if Exists(m, x) {
      match x
      case DeviceRef(d) => EraseDeviceIsAfter(m, running, d);
      case SandboxRef(s) => EraseSandboxIsAfter(m, running, s);
      case GroupRef(g) => EraseGroupIsAfter(m, running, g);
    }
  }

  lemma AfterIsValid(m: Model, running: set<Id>, e: set<Ref>)
    requires Valid(m)
    ensures Valid(After(m, running, e))
  {
    var a := After(m, running, e);
    forall s | s in a.sandboxes && a.sandboxes[s].marked
      ensures a.sandboxes[s].devices != {}
    {
      var d :| d in m.sandboxes[s].devices && DeviceStays(m, e, d);
      assert d in a.sandboxes[s].devices;
    }
    forall g | g in a.groups && a.groups[g].marked
      ensures a.groups[g].sandboxes != {}
    {
      var s :| s in m.groups[g].sandboxes && SandboxStays(m, e, s);
      assert s in a.groups[g].sandboxes;
    }
  }

  // ---- sequences of deletions ----

  lemma SandboxStaysTwice(m: Model, running: set<Id>, a: set<Ref>, b: set<Ref>, s: Id)
    requires Valid(m)
    ensures SandboxStays(After(m, running, a), b, s) <==> SandboxStays(m, a + b, s)
  {
    var m1 := After(m, running, a);
    assert forall d | d in m.devices :: DeviceStays(m1, b, d) <==> DeviceStays(m, a + b, d);
    if SandboxStays(m, a + b, s) && !(SandboxRef(s) !in a + b && !m.sandboxes[s].marked) {
      var d :| d in m.sandboxes[s].devices && DeviceStays(m, a + b, d);
      assert DeviceStays(m, a, d) && d in m1.sandboxes[s].devices;
    }
  }

  lemma GroupStaysTwice(m: Model, running: set<Id>, a: set<Ref>, b: set<Ref>, g: Id)
    requires Valid(m)
    ensures GroupStays(After(m, running, a), b, g) <==> GroupStays(m, a + b, g)
  {
    var m1 := After(m, running, a);
    forall s
      ensures SandboxStays(m1, b, s) <==> SandboxStays(m, a + b, s)
    {
      SandboxStaysTwice(m, running, a, b, s);
    }
    if GroupStays(m, a + b, g) && !(GroupRef(g) !in a + b && !m.groups[g].marked) {
      var s :| s in m.groups[g].sandboxes && SandboxStays(m, a + b, s);
      assert SandboxStays(m1, b, s) && SandboxStays(m, a, s) && s in m1.groups[g].sandboxes;
    }
  }

  lemma GroupAfterTwice(m: Model, running: set<Id>, a: set<Ref>, b: set<Ref>, g: Id)
    requires Valid(m) && g in After(m, running, a).groups
    ensures GroupAfter(After(m, running, a), running, b, g) == GroupAfter(m, running, a + b, g)
  {
    var m1 := After(m, running, a);
    var two, one := GroupAfter(m1, running, b, g), GroupAfter(m, running, a + b, g);
    forall s
      ensures SandboxStays(m1, b, s) <==> SandboxStays(m, a + b, s)
    {
      SandboxStaysTwice(m, running, a, b, s);
    }
    var ids := one.sandboxes;
    assert two.sandboxes == ids;
    assert (set s | s in ids && Active(m1, running, s)) == (set s | s in ids && Active(m, running, s));
  }

  lemma SandboxesAfterTwice(m: Model, running: set<Id>, a: set<Ref>, b: set<Ref>)
    requires Valid(m)
    ensures After(After(m, running, a), running, b).sandboxes == After(m, running, a + b).sandboxes
  {
    var m1 := After(m, running, a);
    forall s
      ensures SandboxStays(m1, b, s) <==> SandboxStays(m, a + b, s)
      ensures s in m1.sandboxes ==> SandboxAfter(m1, b, s) == SandboxAfter(m, a + b, s)
    {
      SandboxStaysTwice(m, running, a, b, s);
    }
  }

  lemma GroupsAfterTwice(m: Model, running: set<Id>, a: set<Ref>, b: set<Ref>)
    requires Valid(m)
    ensures After(After(m, running, a), running, b).groups == After(m, running, a + b).groups
  {
    var m1 := After(m, running, a);
    forall g
      ensures GroupStays(m1, b, g) <==> GroupStays(m, a + b, g)
      ensures g in m1.groups ==> GroupAfter(m1, running, b, g) == GroupAfter(m, running, a + b, g)
    {
      GroupStaysTwice(m, running, a, b, g);
      if g in m1.groups {
        GroupAfterTwice(m, running, a, b, g);
      }
    }
  }

  /** Asking for a and then for b is asking for both at once. */
  lemma AfterTwice(m: Model, running: set<Id>, a: set<Ref>, b: set<Ref>)
    requires Valid(m)
    ensures After(After(m, running, a), running, b) == After(m, running, a + b)
  {
    SandboxesAfterTwice(m, running, a, b);
    GroupsAfterTwice(m, running, a, b);
    assert After(After(m, running, a), running, b).devices == After(m, running, a + b).devices;
  }

  function EraseAll(m: Model, running: set<Id>, xs: seq<Ref>): Result
    decreases |xs|
  {
    if xs == [] then Ok(m)
    else
      match Erase(m, running, xs[0])
      case Ok(m1) => EraseAll(m1, running, xs[1..])
      case NotFound => NotFound
  }

  function Refs(xs: seq<Ref>): set<Ref> {
    set x | x in xs
  }

  lemma AfterNothing(m: Model, running: set<Id>)
    requires Valid(m)
    ensures After(m, running, {}) == m
  {
    var a := After(m, running, {});
    assert a.devices == m.devices;
    SandboxesUntouched(m, running, {});
    GroupsUntouched(m, running, {});
  }

  lemma RefsCons(xs: seq<Ref>)
    requires xs != []
    ensures Refs(xs) == {xs[0]} + Refs(xs[1..])
  {
    assert forall x | x in xs :: x == xs[0] || x in xs[1..];
  }

  lemma FirstErase(m: Model, running: set<Id>, xs: seq<Ref>)
    requires Valid(m) && xs != [] && EraseAll(m, running, xs).Ok?
    ensures Valid(After(m, running, {xs[0]}))
    ensures EraseAll(m, running, xs) == EraseAll(After(m, running, {xs[0]}), running, xs[1..])
  {
    EraseIsAfter(m, running, xs[0]);
    AfterIsValid(m, running, {xs[0]});
  }

  /** Whatever sequence of erases goes through, the result depends only on the set of ids. */
  lemma {:induction false} EraseAllIsAfter(m: Model, running: set<Id>, xs: seq<Ref>)
    requires Valid(m) && EraseAll(m, running, xs).Ok?
    ensures EraseAll(m, running, xs) == Ok(After(m, running, Refs(xs)))
    decreases |xs|
  {
    if xs == [] {
      AfterNothing(m, running);
      assert Refs(xs) == {};
    } else {
      FirstErase(m, running, xs);
      EraseAllIsAfter(After(m, running, {xs[0]}), running, xs[1..]);
      AfterTwice(m, running, {xs[0]}, Refs(xs[1..]));
      RefsCons(xs);
    }
  }

  predicate Distinct(xs: seq<Ref>) {
    forall i, j :: 0 <= i < j < |xs| ==> xs[i] != xs[j]
  }

  /** Erasing distinct existing things, none of them marked before, never fails. */
  lemma {:induction false} EraseAllSucceeds(m: Model, running: set<Id>, xs: seq<Ref>)
    requires Valid(m) && Distinct(xs) && forall x | x in xs :: Exists(m, x) && !Marked(m, x)
    ensures EraseAll(m, running, xs).Ok?
    decreases |xs|
  {
    if xs != [] {
      var m1 := After(m, running, {xs[0]});
      EraseIsAfter(m, running, xs[0]);
      AfterIsValid(m, running, {xs[0]});
      forall x | x in xs[1..]
        ensures Exists(m1, x) && !Marked(m1, x)
      {
        var i :| 0 <= i < |xs[1..]| && xs[1..][i] == x;
        assert x == xs[i + 1] && x != xs[0] && x in xs;
      }
      EraseAllSucceeds(m1, running, xs[1..]);
    }
  }

  /** Any two orders of deleting the same things lead to the same model. */
  lemma DeletionOrderDoesNotMatter(m: Model, running: set<Id>, xs: seq<Ref>, ys: seq<Ref>)
    requires Valid(m) && Distinct(xs) && Distinct(ys) && Refs(xs) == Refs(ys)
    requires forall x | x in xs :: Exists(m, x) && !Marked(m, x)
    ensures EraseAll(m, running, xs) == EraseAll(m, running, ys) == Ok(After(m, running, Refs(xs)))
  {
    assert forall y | y in ys :: y in Refs(ys);
    EraseAllSucceeds(m, running, xs);
    EraseAllSucceeds(m, running, ys);
    EraseAllIsAfter(m, running, xs);
    EraseAllIsAfter(m, running, ys);
  }

  // ---- connections between sandboxes ----

  /** process_cross_sbox_connections finds both devices of every connection. */
  predicate ConnsValid(m: Model) {
    forall g, c | g in m.groups && c in m.groups[g].conns :: c.outDev in m.devices && c.inDev in m.devices
  }

  predicate Touches(c: CrossConn, e: set<Ref>) {
    DeviceRef(c.outDev) in e || DeviceRef(c.inDev) in e
  }

  /** Deletion never prunes connections: they stay valid if and only if none of a group that
      stays touches a deleted device. */
  lemma ConnsValidIffUntouched(m: Model, running: set<Id>, e: set<Ref>)
    requires ConnsValid(m)
    ensures ConnsValid(After(m, running, e)) <==>
      forall g, c | g in m.groups && GroupStays(m, e, g) && c in m.groups[g].conns :: !Touches(c, e)
  {
    var a := After(m, running, e);
    forall g, c | g in m.groups && c in m.groups[g].conns
      ensures c.outDev in a.devices && c.inDev in a.devices <==> !Touches(c, e)
    {
    }
    assert forall g :: g in a.groups <==> g in m.groups && GroupStays(m, e, g);
    assert forall g | g in a.groups :: a.groups[g].conns == m.groups[g].conns;
  }
}
