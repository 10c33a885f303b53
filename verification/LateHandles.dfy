/**
 What holds of handles even when some of them are made too late, and what goes wrong then.
 */
module LateHandles {
  import opened Lifetimes
  import opened Handles

  ghost predicate CountsRight(c: Counts, hs: map<HandleId, Target>) {
    && (forall x :: x in c.refs <==> Exists(c.model, x))
    && (forall x | x in c.refs :: c.refs[x] == |Holders(hs, x)|)
  }

  /** What has had a handle and has none left is gone or on its way out. */
  ghost predicate UnheldGoes(m: Model, hs: map<HandleId, Target>, managed: set<Ref>) {
    forall x | x in managed :: Exists(m, x) && !Marked(m, x) ==> Holders(hs, x) != {}
  }

  ghost predicate Tracks(st: State) {
    && Valid(st.counts.model)
    && CountsRight(st.counts, st.handles)
    && UnheldGoes(st.counts.model, st.handles, st.managed)
    && (forall h | h in st.handles && st.handles[h].To? :: st.handles[h].x in st.managed)
  }

  lemma HoldersGained(hs: map<HandleId, Target>, h: HandleId, t: Target, y: Ref)
    requires Free(hs, h)
    ensures var more := Holders(hs[h := t], y);
      && more >= Holders(hs, y) && (t == To(y) ==> more != {})
      && |more| == |Holders(hs, y)| + if t == To(y) then 1 else 0
  {
    assert h !in Holders(hs, y);
    assert Holders(hs[h := t], y) == Holders(hs, y) + (if t == To(y) then {h} else {});
  }

  lemma GainKeepsCounts(c: Counts, hs: map<HandleId, Target>, h: HandleId, t: Target)
    requires CountsRight(c, hs) && Free(hs, h)
    ensures CountsRight(Ref_(c, t), hs[h := t]) && Ref_(c, t).model == c.model
  {
    var c' := Ref_(c, t);
    assert c'.refs.Keys == c.refs.Keys;
    forall y | y in c'.refs
      ensures c'.refs[y] == |Holders(hs[h := t], y)|
    {
      HoldersGained(hs, h, t, y);
    }
  }

  lemma GainKeepsUnheldGoes(m: Model, hs: map<HandleId, Target>, managed: set<Ref>, h: HandleId, t: Target,
                            more: set<Ref>)
    requires UnheldGoes(m, hs, managed) && Free(hs, h) && more == managed + if t.To? then {t.x} else {}
    ensures UnheldGoes(m, hs[h := t], more)
  {
    forall y
      ensures Holders(hs[h := t], y) >= Holders(hs, y) && (t == To(y) ==> Holders(hs[h := t], y) != {})
    {
      HoldersGained(hs, h, t, y);
    }
  }

  lemma GainKeepsTracks(st: State, h: HandleId, t: Target, managed: set<Ref>)
    requires Tracks(st) && Free(st.handles, h) && managed == st.managed + if t.To? then {t.x} else {}
    ensures Tracks(State(Ref_(st.counts, t), st.handles[h := t], managed))
  {
    GainKeepsCounts(st.counts, st.handles, h, t);
    GainKeepsUnheldGoes(st.counts.model, st.handles, st.managed, h, t, managed);
  }

  lemma UnrefEffect(c: Counts, running: set<Id>, x: Ref, y: Ref)
    requires Valid(c.model) && (forall z :: z in c.refs <==> Exists(c.model, z))
    ensures var c' := UnrefFrom(c, running, x);
      && Valid(c'.model)
      && (y in c'.refs <==> Exists(c'.model, y))
      && (Exists(c'.model, y) ==> Exists(c.model, y) && c'.refs[y] == c.refs[y] - if y == x then 1 else 0)
      && (Marked(c.model, y) && Exists(c'.model, y) ==> Marked(c'.model, y))
      && (Exists(c'.model, y) && !Marked(c'.model, y) && y == x ==> c'.refs[x] > 0)
  {
    if x in c.refs && c.refs[x] - 1 <= 0 {
      EraseIsAfter(c.model, running, x);
      AfterIsValid(c.model, running, {x});
    }
  }

  lemma DropKeepsTracks(st: State, running: set<Id>, h: HandleId)
    requires Tracks(st) && h in st.handles
    ensures Tracks(Dropped(st, running, h))
  {
    var t, st' := st.handles[h], Dropped(st, running, h);
    if t.To? {
      forall y
        ensures y in st'.counts.refs <==> Exists(st'.counts.model, y)
        ensures y in st'.counts.refs ==> st'.counts.refs[y] == |Holders(st'.handles, y)|
        ensures y in st.managed && Exists(st'.counts.model, y) && !Marked(st'.counts.model, y) ==>
          Holders(st'.handles, y) != {}
      {
        UnrefEffect(st.counts, running, t.x, y);
        assert Holders(st'.handles, y) == Holders(st.handles, y) - {h};
      }
      UnrefEffect(st.counts, running, t.x, t.x);
    } else {
      assert forall y :: Holders(st'.handles, y) == Holders(st.handles, y);
    }
  }

  lemma TransferKeepsTracks(st: State, h: HandleId, from: HandleId)
    requires Tracks(st) && from in st.handles && h != from && Free(st.handles, h)
    ensures Tracks(st.(handles := st.handles[h := st.handles[from]][from := Nothing]))
  {
    forall x
      ensures var moved := Holders(st.handles[h := st.handles[from]][from := Nothing], x);
        |moved| == |Holders(st.handles, x)| && (moved == {} <==> Holders(st.handles, x) == {})
    {
      HoldersTransfer(st.handles, h, from, x);
    }
  }

  lemma CreateKeepsTracks(st: State, x: Ref, parent: Id, running: set<Id>)
    requires Tracks(st) && Enabled(st, Create(x, parent))
    ensures Tracks(Step(st, Create(x, parent), running))
  {
    AddedEffect(st.counts.model, running, x, parent);
    assert forall h | h in st.handles && st.handles[h].To? :: st.handles[h].x != x;
    assert Holders(st.handles, x) == {};
  }

  lemma DestroyKeepsTracks(st: State, h: HandleId, running: set<Id>)
    requires Tracks(st) && h in st.handles
    ensures Tracks(Step(st, Destroy(h), running))
  {
    DropKeepsTracks(st, running, h);
    assert forall x :: Holders(st.handles - {h}, x) == Holders(st.handles[h := Nothing], x);
  }

  lemma AssignKeepsTracks(st: State, h: HandleId, from: HandleId, running: set<Id>)
    requires Tracks(st) && h in st.handles && from in st.handles && h != from
    ensures Tracks(Step(st, CopyAssign(h, from), running))
    ensures Tracks(Step(st, MoveAssign(h, from), running))
  {
    var t, dropped := st.handles[from], Dropped(st, running, h);
    DropKeepsTracks(st, running, h);
    GainKeepsTracks(dropped, h, t, dropped.managed + if t.To? then {t.x} else {});
    assert dropped.managed + (if t.To? then {t.x} else {}) == st.managed;
    assert dropped.handles[h := t] == st.handles[h := t];
    TransferKeepsTracks(dropped, h, from);
  }

  lemma StepKeepsTracks(st: State, op: Op, running: set<Id>)
    requires Tracks(st)
    ensures Tracks(Step(st, op, running))
  {
    if Enabled(st, op) {
      match op
      case Create(x, parent) => CreateKeepsTracks(st, x, parent, running);
      case Construct(h, x) => GainKeepsTracks(st, h, To(x), st.managed + {x});
      case Default(h) => GainKeepsTracks(st, h, Nothing, st.managed);
      case Copy(h, from) =>
        var t := st.handles[from];
        GainKeepsTracks(st, h, t, st.managed + if t.To? then {t.x} else {});
        assert st.managed + (if t.To? then {t.x} else {}) == st.managed;
      case Move(h, from) => TransferKeepsTracks(st, h, from);
      case CopyAssign(h, from) => if h != from { AssignKeepsTracks(st, h, from, running); }
      case MoveAssign(h, from) => if h != from { AssignKeepsTracks(st, h, from, running); }
      case Destroy(h) => DestroyKeepsTracks(st, h, running);
    }
  }

  lemma {:induction false} RunKeepsTracks(st: State, ops: seq<(Op, set<Id>)>)
    requires Tracks(st)
    ensures Tracks(Run(st, ops))
    decreases |ops|
  {
    if ops != [] {
      StepKeepsTracks(st, ops[0].0, ops[0].1);
      RunKeepsTracks(Step(st, ops[0].0, ops[0].1), ops[1..]);
    }
  }

  // ---- when all handles have let go ----

  /** Something in every nonempty valid model is not marked for deletion. */
  lemma SomethingUnmarked(m: Model, x: Ref) returns (y: Ref)
    requires Valid(m) && Exists(m, x)
    ensures Exists(m, y) && !Marked(m, y)
  {
    y := x;
    if y.GroupRef? && Marked(m, y) {
      var s := Pick(m.groups[y.id].sandboxes);
      y := SandboxRef(s);
    }
    if y.SandboxRef? && Marked(m, y) {
      var d := Pick(m.sandboxes[y.id].devices);
      y := DeviceRef(d);
    }
  }

  /** Every object that exists has had a handle. */
  ghost predicate AllManaged(st: State) {
    forall x :: Exists(st.counts.model, x) ==> x in st.managed
  }

  /** No handle but perhaps those to x holds anything. */
  predicate OnlyHeld(hs: map<HandleId, Target>, x: Ref) {
    forall h | h in hs :: hs[h] == Nothing || hs[h] == To(x)
  }

  lemma NothingElseHeldNothingLeft(st: State, x: Ref, y: Ref)
    requires Tracks(st) && AllManaged(st) && OnlyHeld(st.handles, x)
    requires Exists(st.counts.model, x) ==> Marked(st.counts.model, x) || Holders(st.handles, x) == {}
    ensures !Exists(st.counts.model, y)
  {
    if Exists(st.counts.model, y) {
      var z := SomethingUnmarked(st.counts.model, y);
      var h := Pick(Holders(st.handles, z));
    }
  }

  /** Once every object has been handed to handles and all handles have let go, in whatever
      order, nothing is left, even if some were made too late. */
  lemma DroppingAllHandlesEmpties(ops: seq<(Op, set<Id>)>)
    ensures var st := Run(EMPTY, ops);
      AllManaged(st) && (forall h | h in st.handles :: st.handles[h] == Nothing) ==>
        forall x :: !Exists(st.counts.model, x)
  {
    RunKeepsTracks(EMPTY, ops);
    var st := Run(EMPTY, ops);
    if AllManaged(st) && forall h | h in st.handles :: st.handles[h] == Nothing {
      forall x
        ensures !Exists(st.counts.model, x)
      {
        assert Holders(st.handles, x) == {};
        NothingElseHeldNothingLeft(st, x, x);
      }
    }
  }

  // ---- a handle made too late ----

  /** x has had a handle and does not come back unmarked. */
  predicate OnItsWayOut(st: State, x: Ref) {
    x in st.managed && (Exists(st.counts.model, x) ==> Marked(st.counts.model, x))
  }

  lemma UnrefLeavesOnItsWayOut(c: Counts, running: set<Id>, t: Target, x: Ref)
    requires Valid(c.model) && (forall z :: z in c.refs <==> Exists(c.model, z))
    requires Exists(c.model, x) ==> Marked(c.model, x)
    ensures var c' := Unref_(c, running, t); Exists(c'.model, x) ==> Marked(c'.model, x)
  {
    if t.To? {
      UnrefEffect(c, running, t.x, x);
    }
  }

  lemma StepLeavesOnItsWayOut(st: State, op: Op, running: set<Id>, x: Ref)
    requires Tracks(st) && OnItsWayOut(st, x)
    ensures OnItsWayOut(Step(st, op, running), x)
  {
    if Enabled(st, op) {
      if op.Create? {
        AddedEffect(st.counts.model, running, op.x, op.parent);
      } else if op.CopyAssign? || op.MoveAssign? || op.Destroy? {
        UnrefLeavesOnItsWayOut(st.counts, running, st.handles[op.h], x);
      }
    }
  }

  lemma {:induction false} RunLeavesOnItsWayOut(st: State, ops: seq<(Op, set<Id>)>, x: Ref)
    requires Tracks(st) && OnItsWayOut(st, x)
    ensures Tracks(Run(st, ops)) && OnItsWayOut(Run(st, ops), x)
    decreases |ops|
  {
    if ops != [] {
      StepKeepsTracks(st, ops[0].0, ops[0].1);
      StepLeavesOnItsWayOut(st, ops[0].0, ops[0].1, x);
      RunLeavesOnItsWayOut(Step(st, ops[0].0, ops[0].1), ops[1..], x);
    }
  }

  /** A handle h made too late does not keep its object: whatever is done next, once all other
      handles have let go the object is gone, and letting go of h throws. */
  lemma LateHandleFaults(before: seq<(Op, set<Id>)>, h: HandleId, x: Ref, running: set<Id>, more: seq<(Op, set<Id>)>)
    requires TooLate(Run(EMPTY, before), Construct(h, x))
    ensures
      var made := Step(Run(EMPTY, before), Construct(h, x), running);
      var st := Run(made, more);
      && h in st.handles && st.handles[h] == To(x) && OnlyHeld(st.handles - {h}, x) && AllManaged(st)
      ==> !Exists(st.counts.model, x) && Step(st, Destroy(h), running).counts.faulted
  {
    RunKeepsTracks(EMPTY, before);
    var made := Step(Run(EMPTY, before), Construct(h, x), running);
    StepKeepsTracks(Run(EMPTY, before), Construct(h, x), running);
    RunLeavesOnItsWayOut(made, more, x);
    var st := Run(made, more);
    if h in st.handles && st.handles[h] == To(x) && OnlyHeld(st.handles - {h}, x) && AllManaged(st) {
      assert forall k | k in st.handles && k != h :: k in st.handles - {h} && st.handles[k] == (st.handles - {h})[k];
      NothingElseHeldNothingLeft(st, x, x);
    }
  }

  /** A group with one sandbox, a handle to each; the group's handle goes, a new one is made,
      and then the sandbox's handle goes and the group's. */
  const LATE: seq<(Op, set<Id>)> := [
    (Create(GroupRef(0), 0), {}),
    (Create(SandboxRef(1), 0), {}),
    (Construct(0, GroupRef(0)), {}),
    (Construct(1, SandboxRef(1)), {}),
    (Destroy(0), {}),
    (Construct(2, GroupRef(0)), {}),
    (Destroy(1), {}),
    (Destroy(2), {})
  ]

  /** Group 0 holds sandbox 1, which holds nothing. */
  predicate GroupOfOne(m: Model, marked: bool) {
    && m.groups.Keys == {0} && m.sandboxes.Keys == {1} && m.devices == map[]
    && m.groups[0].sandboxes == {1} && m.groups[0].marked == marked
    && m.sandboxes[1].group == 0 && m.sandboxes[1].devices == {} && !m.sandboxes[1].marked
  }

  predicate Counted(c: Counts, group: int, sandbox: int) {
    c.refs == map[GroupRef(0) := group, SandboxRef(1) := sandbox] && !c.faulted
  }

  lemma GroupIsMarked(st: State)
    requires GroupOfOne(st.counts.model, false) && Counted(st.counts, 1, 1)
    requires st.handles == map[0 := To(GroupRef(0)), 1 := To(SandboxRef(1))]
    ensures var st' := Step(Step(st, LATE[4].0, {}), LATE[5].0, {});
      && GroupOfOne(st'.counts.model, true) && Counted(st'.counts, 1, 1)
      && st'.handles == map[1 := To(SandboxRef(1)), 2 := To(GroupRef(0))]
  {
    var a := Step(st, LATE[4].0, {});
    assert GroupOfOne(a.counts.model, true);
    assert Exists(a.counts.model, GroupRef(0)) && Exists(a.counts.model, SandboxRef(1));
    assert Counted(a.counts, 0, 1);
  }

  lemma GroupIsGone(st: State)
    requires GroupOfOne(st.counts.model, true) && Counted(st.counts, 1, 1)
    requires st.handles == map[1 := To(SandboxRef(1)), 2 := To(GroupRef(0))]
    ensures Step(Step(st, LATE[6].0, {}), LATE[7].0, {}).counts.faulted
  {
    assert !Exists(Step(st, LATE[6].0, {}).counts.model, GroupRef(0));
  }

  lemma TwoMore(k: nat)
    requires k + 2 <= |LATE|
    ensures Run(EMPTY, LATE[..k + 2])
      == Step(Step(Run(EMPTY, LATE[..k]), LATE[k].0, LATE[k].1), LATE[k + 1].0, LATE[k + 1].1)
  {
    RunOneMore(EMPTY, LATE, k);
    RunOneMore(EMPTY, LATE, k + 1);
  }

  lemma FirstTwo()
    ensures Run(EMPTY, LATE[..2]) == Step(Step(EMPTY, Create(GroupRef(0), 0), {}), Create(SandboxRef(1), 0), {})
  {
    TwoMore(0);
    assert Run(EMPTY, LATE[..0]) == EMPTY;
  }

  lemma AfterTwo()
    ensures var st := Run(EMPTY, LATE[..2]);
      GroupOfOne(st.counts.model, false) && Counted(st.counts, 0, 0) && st.handles == map[]
  {
    FirstTwo();
  }

  lemma AfterFour()
    ensures var st := Run(EMPTY, LATE[..4]);
      && GroupOfOne(st.counts.model, false) && Counted(st.counts, 1, 1)
      && st.handles == map[0 := To(GroupRef(0)), 1 := To(SandboxRef(1))]
  {
    AfterTwo();
    TwoMore(2);
  }

  lemma AfterSix()
    ensures var st := Run(EMPTY, LATE[..6]);
      && GroupOfOne(st.counts.model, true) && Counted(st.counts, 1, 1)
      && st.handles == map[1 := To(SandboxRef(1)), 2 := To(GroupRef(0))]
  {
    AfterFour();
    TwoMore(4);
    GroupIsMarked(Run(EMPTY, LATE[..4]));
  }

  /** The run ends in a throw. */
  lemma LateRunFaults()
    ensures Run(EMPTY, LATE).counts.faulted
  {
    AfterSix();
    TwoMore(6);
    GroupIsGone(Run(EMPTY, LATE[..6]));
    assert LATE[..8] == LATE;
  }
}
