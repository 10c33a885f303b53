/**
 How far a group's count of active sandboxes can be from the truth.
 */
module ActiveCounts {
  import opened Lifetimes
  import opened LifetimeRuns

  function Confirmed(m: Model, ids: set<Id>): set<Id> {
    set s | s in ids && s in m.sandboxes && m.sandboxes[s].launched && m.sandboxes[s].confirmed
  }

  /** The count lies between the sandboxes that are active and those that are launched and
      confirmed, of which some may have stopped without the poll thread having noticed. */
  predicate CountBetween(m: Model, running: set<Id>, g: Id)
    requires g in m.groups
  {
    var x := m.groups[g];
    ActiveCount(m, running, x.sandboxes) <= x.totalActive <= |Confirmed(m, x.sandboxes)|
  }

  predicate CountsBetween(m: Model, running: set<Id>) {
    forall g | g in m.groups :: CountBetween(m, running, g)
  }

  predicate SameFlags(m: Model, m': Model, ids: set<Id>) {
    forall s | s in ids :: s in m.sandboxes && s in m'.sandboxes
      && m'.sandboxes[s].launched == m.sandboxes[s].launched && m'.sandboxes[s].confirmed == m.sandboxes[s].confirmed
  }

  lemma SameCounts(m: Model, m': Model, running: set<Id>, ids: set<Id>)
    requires SameFlags(m, m', ids)
    ensures ActiveCount(m', running, ids) == ActiveCount(m, running, ids) && Confirmed(m', ids) == Confirmed(m, ids)
  {
    assert (set s | s in ids && Active(m', running, s)) == (set s | s in ids && Active(m, running, s));
    forall s
      ensures s in Confirmed(m', ids) <==> s in Confirmed(m, ids)
    {
    }
  }

  lemma ActiveAreConfirmed(m: Model, running: set<Id>, ids: set<Id>)
    ensures ActiveCount(m, running, ids) <= |Confirmed(m, ids)|
    ensures (forall s | s in Confirmed(m, ids) :: s in running) ==> ActiveCount(m, running, ids) == |Confirmed(m, ids)|
  {
    var active := set s | s in ids && Active(m, running, s);
    SubsetSize(active, Confirmed(m, ids));
    if forall s | s in Confirmed(m, ids) :: s in running {
      assert active == Confirmed(m, ids);
    }
  }

  /** Between the two models the group was left alone, or its members were counted anew. */
  predicate KeptOrCounted(m: Model, m': Model, running: set<Id>, g: Id)
    requires g in m'.groups
  {
    var x' := m'.groups[g];
    || x'.totalActive == ActiveCount(m', running, x'.sandboxes)
    || (g in m.groups && x'.sandboxes == m.groups[g].sandboxes && x'.totalActive == m.groups[g].totalActive
        && SameFlags(m, m', x'.sandboxes))
  }

  lemma KeptOrCountedIsBetween(m: Model, m': Model, running: set<Id>)
    requires CountsBetween(m, running) && forall g | g in m'.groups :: KeptOrCounted(m, m', running, g)
    ensures CountsBetween(m', running)
  {
    forall g | g in m'.groups
      ensures CountBetween(m', running, g)
    {
      var x' := m'.groups[g];
      ActiveAreConfirmed(m', running, x'.sandboxes);
      if x'.totalActive != ActiveCount(m', running, x'.sandboxes) {
        assert CountBetween(m, running, g);
        SameCounts(m, m', running, x'.sandboxes);
      }
    }
  }

  lemma EraseKeepsOrCounts(m: Model, running: set<Id>, e: set<Ref>, g: Id)
    requires Valid(m) && g in After(m, running, e).groups
    ensures KeptOrCounted(m, After(m, running, e), running, g)
  {
    var m' := After(m, running, e);
    var left := m'.groups[g].sandboxes;
    assert SameFlags(m, m', left);
    if left != m.groups[g].sandboxes {
      SameCounts(m, m', running, left);
    }
  }

  lemma RecountCounts(m: Model, running: set<Id>, g: Id)
    requires g in m.groups
    ensures var x := Recount(m, running, g).groups[g];
      x.totalActive == ActiveCount(Recount(m, running, g), running, x.sandboxes)
  {
    var m', ids := Recount(m, running, g), m.groups[g].sandboxes;
    assert (set s | s in ids && Active(m', running, s)) == (set s | s in ids && Active(m, running, s));
  }

  lemma AddSandboxKeepsOrCounts(m: Model, running: set<Id>, g: Id, s: Id, launches: bool, h: Id)
    requires Valid(m) && s !in m.sandboxes && h in AddSandbox(m, running, g, s, launches).groups
    ensures KeptOrCounted(m, AddSandbox(m, running, g, s, launches), running, h)
  {
    var m' := AddSandbox(m, running, g, s, launches);
    if g in m.groups && launches {
      if h == g {
        var more := m.groups[g].(sandboxes := m.groups[g].sandboxes + {s});
        RecountCounts(m.(sandboxes := m'.sandboxes, groups := m.groups[g := more]), running, g);
      } else {
        assert s !in m.groups[h].sandboxes;
        assert SameFlags(m, m', m.groups[h].sandboxes);
      }
    }
  }

  lemma FlagsKeepOrCount(m: Model, running: set<Id>, s: Id, x: Sandbox, h: Id)
    requires Valid(m) && s in m.sandboxes && h in m.groups
    requires x == m.sandboxes[s].(launched := x.launched, confirmed := x.confirmed)
    ensures KeptOrCounted(m, Recount(m.(sandboxes := m.sandboxes[s := x]), running, x.group), running, h)
  {
    var m1 := m.(sandboxes := m.sandboxes[s := x]);
    var m' := Recount(m1, running, x.group);
    if h == x.group {
      RecountCounts(m1, running, h);
    } else {
      assert s !in m.groups[h].sandboxes;
      assert SameFlags(m, m', m.groups[h].sandboxes);
    }
  }

  lemma ApplyKeepsOrCounts(w: World, op: Op, running: set<Id>, g: Id)
    requires WorldValid(w) && g in Apply(w, op, running).model.groups
    ensures KeptOrCounted(w.model, Apply(w, op, running).model, running, g)
  {
    var m := w.model;
    match op
    case CreateGroup => assert (set s | s in {} && Active(m, running, s)) == {};
    case CreateSandbox(h, launches) => AddSandboxKeepsOrCounts(m, running, h, w.nextId, launches, g);
    case CreateDevice(s) =>
    case EraseOne(x) =>
      EraseIsAfter(m, running, x);
      if Exists(m, x) {
        EraseKeepsOrCounts(m, running, {x}, g);
      }
    case ConfirmActivated(s) =>
      if s in m.sandboxes {
        FlagsKeepOrCount(m, running, s, m.sandboxes[s].(confirmed := true), g);
      }
    case Stopped(s) =>
      if s in m.sandboxes {
        FlagsKeepOrCount(m, running, s, m.sandboxes[s].(launched := false), g);
      }
    case Connect(_) =>
    case Disconnect(_) =>
  }

  // ---- runs in which no process comes back ----

  /** Of the sandboxes of the model, only such as were running before are running now. */
  predicate NoneBack(m: Model, before: set<Id>, now: set<Id>) {
    forall s | s in m.sandboxes && s in now :: s in before
  }

  predicate NoneComesBack(w: World, running: set<Id>, ops: seq<(Op, set<Id>)>)
    decreases |ops|
  {
    ops != [] ==>
      NoneBack(w.model, running, ops[0].1) && NoneComesBack(Apply(w, ops[0].0, ops[0].1), ops[0].1, ops[1..])
  }

  lemma StoppingKeepsBetween(m: Model, before: set<Id>, now: set<Id>)
    requires CountsBetween(m, before) && NoneBack(m, before, now)
    ensures CountsBetween(m, now)
  {
    forall g | g in m.groups
      ensures CountBetween(m, now, g)
    {
      var ids := m.groups[g].sandboxes;
      SubsetSize((set s | s in ids && Active(m, now, s)), (set s | s in ids && Active(m, before, s)));
      assert CountBetween(m, before, g);
    }
  }

  lemma {:induction false} RunKeepsBetween(w: World, running: set<Id>, ops: seq<(Op, set<Id>)>)
    requires WorldValid(w) && CountsBetween(w.model, running) && NoneComesBack(w, running, ops)
    ensures CountsBetween(Run(w, ops).model, if ops == [] then running else ops[|ops| - 1].1)
    decreases |ops|
  {
    if ops != [] {
      var (op, now) := ops[0];
      var w' := Apply(w, op, now);
      StoppingKeepsBetween(w.model, running, now);
      forall g | g in w'.model.groups
        ensures KeptOrCounted(w.model, w'.model, now, g)
      {
        ApplyKeepsOrCounts(w, op, now, g);
      }
      KeptOrCountedIsBetween(w.model, w'.model, now);
      ApplyKeepsValid(w, op, now);
      ApplyKeepsIdsBelow(w, op, now);
      RunKeepsBetween(w', now, ops[1..]);
    }
  }

  /** In every run in which no process comes back: a group counts at least its active sandboxes
      and at most its launched and confirmed ones; so once the poll thread has noticed every
      process of the group that stopped, it counts exactly its launched and confirmed ones. */
  lemma ActiveCountIsExact(ops: seq<(Op, set<Id>)>, now: set<Id>, g: Id)
    requires NoneComesBack(EMPTY, {}, ops) && g in Run(EMPTY, ops).model.groups
    requires NoneBack(Run(EMPTY, ops).model, if ops == [] then {} else ops[|ops| - 1].1, now)
    ensures var m := Run(EMPTY, ops).model;
      var x := m.groups[g];
      && ActiveCount(m, now, x.sandboxes) <= x.totalActive <= |Confirmed(m, x.sandboxes)|
      && ((forall s | s in x.sandboxes :: s in m.sandboxes && (m.sandboxes[s].launched ==> s in now)) ==>
            x.totalActive == |Confirmed(m, x.sandboxes)| == ActiveCount(m, now, x.sandboxes))
  {
    var m := Run(EMPTY, ops).model;
    RunKeepsBetween(EMPTY, {}, ops);
    StoppingKeepsBetween(m, if ops == [] then {} else ops[|ops| - 1].1, now);
    assert CountBetween(m, now, g);
    ActiveAreConfirmed(m, now, m.groups[g].sandboxes);
  }
}
