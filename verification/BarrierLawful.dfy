/**
 Rounds of the barrier that signal distinct sandboxes whose audio threads are running: no
 signal is lost, and the two kinds of event behave alike.
 */
module BarrierLawful {
  import opened Barrier
  import opened BarrierCrashFree

  predicate Distinct(ids: seq<Id>) {
    forall i, j :: 0 <= i < j < |ids| ==> ids[i] != ids[j]
  }

  lemma {:induction false} DistinctSize(ids: seq<Id>)
    requires Distinct(ids)
    ensures |Elems(ids)| == |ids|
  {
    if ids != [] {
      var last := |ids| - 1;
      DistinctSize(ids[..last]);
      assert ids == ids[..last] + [ids[last]];
      assert Elems(ids) == Elems(ids[..last]) + {ids[last]};
    }
  }

  lemma {:induction false} DistinctCounts(ids: seq<Id>, s: Id)
    requires Distinct(ids)
    ensures multiset(ids)[s] == if s in ids then 1 else 0
  {
    if ids != [] {
      var last := |ids| - 1;
      assert ids == ids[..last] + [ids[last]];
      DistinctCounts(ids[..last], s);
    }
  }

  /** Every round signals distinct sandboxes. */
  predicate Lawful(steps: seq<Step>) {
    forall step | step in steps :: step.BeginRound? ==> Distinct(step.targets)
  }

  predicate NoneStops(steps: seq<Step>) {
    forall step | step in steps :: !step.Stops?
  }

  /** Rounds signal only sandboxes whose audio thread has not died. */
  predicate TargetsAlive(st: State, steps: seq<Step>) {
    forall step | step in steps :: step.BeginRound? ==> forall s | s in step.targets :: !At(st, s, Dead)
  }

  /** s has been signalled this round and has not done its fetch_sub. */
  predicate Due(st: State, s: Id)
    requires Wf(st)
  {
    s in st.round[..SignalledCount(st)] && s !in st.subs
  }

  predicate SandboxOk(pc: SandboxPc, begin: nat, due: bool) {
    if due then (begin == 1 && pc != Working && pc != Dead) || (begin == 0 && pc == Working)
    else pc == Dead || (begin == 0 && pc != Working && pc != Woken)
  }

  /** Every sandbox's event and position say whether it is due. */
  predicate SlotsOk(st: State)
    requires Wf(st)
  {
    Distinct(st.round) && forall s | s in st.pcs :: SandboxOk(st.pcs[s], st.begin[s], Due(st, s))
  }

  ghost predicate LawfulInv(st: State) {
    ExactInv(Resettable, st) && SlotsOk(st)
  }

  lemma SandboxOkAt(st: State, s: Id)
    requires Wf(st) && SlotsOk(st) && s in st.pcs
    ensures SandboxOk(st.pcs[s], st.begin[s], Due(st, s))
  {
  }

  /** The counter is zero exactly when every sandbox of the round has finished. */
  lemma ZeroMeansAllFinished(st: State)
    requires LawfulInv(st)
    ensures forall s | s in st.subs :: s in st.round && st.subs[s] == 1
    ensures st.counter == 0 <==> forall s | s in st.round :: s in st.subs
  {
    ZeroMeansAllAnswered(Resettable, st);
    forall s
      ensures multiset(st.round)[s] == if s in st.round then 1 else 0
    {
      DistinctCounts(st.round, s);
    }
    if forall s | s in st.round :: s in st.subs {
      assert multiset(st.round) <= st.subs;
    }
  }

  /** Between rounds nothing is owed, whatever the rounds before were like. */
  lemma OwningIsLawful(st: State)
    requires ExactInv(Resettable, st) && st.client == Owning
    ensures LawfulInv(st)
  {
    forall s | s in st.pcs
      ensures SandboxOk(st.pcs[s], st.begin[s], Due(st, s))
    {
      CoveredAt(Resettable, st, s);
    }
  }

  lemma SandboxStepKeepsSlots(st: State, step: Step)
    requires Wf(st) && SlotsOk(st) && Enabled(st, step)
    requires step.Wakes? || step.Resets? || step.SetsDone? || step.Starts? || step.Subtracts?
    ensures SlotsOk(Next(Resettable, st, step))
  {
    var st' := Next(Resettable, st, step);
    forall x | x in st'.pcs
      ensures SandboxOk(st'.pcs[x], st'.begin[x], Due(st', x))
    {
      assert !step.Subtracts? || x != step.s ==> Due(st', x) == Due(st, x);
      if x in st.pcs {
        SandboxOkAt(st, x);
      }
    }
  }

  lemma SandboxStepKeepsLawful(st: State, step: Step)
    requires LawfulInv(st) && Enabled(st, step)
    requires step.Wakes? || step.Resets? || step.SetsDone? || step.Starts? || step.Subtracts?
    ensures LawfulInv(Next(Resettable, st, step))
  {
    NextKeepsExactInv(Resettable, st, step);
    SandboxStepKeepsSlots(st, step);
  }

  /** No set meets an event that is already set, or one whose waiter is about to reset it. */
  lemma NoSetIsLost(st: State, step: Step)
    requires LawfulInv(st) && Enabled(st, step)
    ensures step.SetsDone? ==> st.done == 0 && st.client != WokenUp
    ensures step.SignalNext? ==>
      var s := st.round[st.client.next]; st.pcs[s] != Dead ==> st.begin[s] == 0 && st.pcs[s] == Asleep
  {
    if step.SignalNext? {
      var s := st.round[st.client.next];
      assert s !in st.round[..st.client.next];
      SandboxOkAt(st, s);
      if st.pcs[s] == Notifying {
        ZeroMeansAllFinished(st);
      }
    }
  }

  lemma SignalKeepsSlots(st: State)
    requires Wf(st) && SlotsOk(st) && Enabled(st, SignalNext)
    requires var s := st.round[st.client.next]; st.begin[s] == 0 && st.pcs[s] == Asleep && s !in st.subs
    ensures SlotsOk(Next(Resettable, st, SignalNext))
  {
    var st', n := Next(Resettable, st, SignalNext), st.client.next;
    assert st.round[..n + 1] == st.round[..n] + [st.round[n]];
    forall x | x in st'.pcs
      ensures SandboxOk(st'.pcs[x], st'.begin[x], Due(st', x))
    {
      SandboxOkAt(st, x);
    }
  }

  lemma SignalKeepsLawful(st: State)
    requires LawfulInv(st) && Enabled(st, SignalNext) && !At(st, st.round[st.client.next], Dead)
    ensures LawfulInv(Next(Resettable, st, SignalNext))
  {
    NextKeepsExactInv(Resettable, st, SignalNext);
    NoSetIsLost(st, SignalNext);
    assert st.round[st.client.next] !in st.round[..st.client.next];
    assert st.round[st.client.next] !in Signalled(st);
    SignalKeepsSlots(st);
  }

  lemma ClientStepKeepsSlots(st: State, step: Step)
    requires Wf(st) && SlotsOk(st) && Enabled(st, step)
    requires step.SignalledAll? || step.Zeroed? || step.ClientWakes? || step.ClientResets?
    requires Next(Resettable, st, step).client != Owning
    ensures SlotsOk(Next(Resettable, st, step))
  {
    var st' := Next(Resettable, st, step);
    forall x | x in st'.pcs
      ensures SandboxOk(st'.pcs[x], st'.begin[x], Due(st', x))
    {
      assert Due(st', x) == Due(st, x);
      SandboxOkAt(st, x);
    }
  }

  lemma ClientStepKeepsLawful(st: State, step: Step)
    requires LawfulInv(st) && Enabled(st, step)
    requires step.SignalledAll? || step.Zeroed? || step.ClientWakes? || step.ClientResets? || step.ClientChecks?
    ensures LawfulInv(Next(Resettable, st, step))
  {
    NextKeepsExactInv(Resettable, st, step);
    if Next(Resettable, st, step).client == Owning {
      OwningIsLawful(Next(Resettable, st, step));
    } else {
      ClientStepKeepsSlots(st, step);
    }
  }

  lemma BeginIsLawful(st: State, targets: seq<Id>)
    requires ExactInv(Resettable, st) && Enabled(st, BeginRound(targets)) && Distinct(targets)
    ensures LawfulInv(Next(Resettable, st, BeginRound(targets)))
  {
    OwningIsLawful(st);
    NextKeepsExactInv(Resettable, st, BeginRound(targets));
    forall x | x in st.pcs
      ensures SandboxOk(st.pcs[x], st.begin[x], Due(Next(Resettable, st, BeginRound(targets)), x))
    {
      SandboxOkAt(st, x);
    }
  }

  /** The sandboxes of the round are alive. */
  predicate RoundAlive(st: State) {
    forall s | s in st.round :: !At(st, s, Dead)
  }

  lemma NextKeepsLawful(st: State, step: Step)
    requires LawfulInv(st) && RoundAlive(st) && Enabled(st, step)
    requires !step.Crashes? && !step.Unblock? && !step.Stops?
    requires step.BeginRound? ==> Distinct(step.targets) && forall s | s in step.targets :: !At(st, s, Dead)
    ensures LawfulInv(Next(Resettable, st, step)) && RoundAlive(Next(Resettable, st, step))
  {
    match step
    case BeginRound(targets) => BeginIsLawful(st, targets);
    case SignalNext => SignalKeepsLawful(st);
    case Subtracts(_) => SandboxStepKeepsLawful(st, step);
    case Wakes(_) => SandboxStepKeepsLawful(st, step);
    case Resets(_) => SandboxStepKeepsLawful(st, step);
    case SetsDone(_) => SandboxStepKeepsLawful(st, step);
    case Starts(_) => SandboxStepKeepsLawful(st, step);
    case _ => ClientStepKeepsLawful(st, step);
  }

  /** While nothing crashes or stops, the dead stay dead and the living alive. */
  lemma DeadStay(kind: Kind, st: State, step: Step)
    requires Wf(st) && Enabled(st, step) && !step.Crashes? && !step.Stops?
    ensures forall s :: At(Next(kind, st, step), s, Dead) <==> At(st, s, Dead)
  {
  }

  lemma {:induction false} RunKeepsLawful(st: State, steps: seq<Step>)
    requires LawfulInv(st) && RoundAlive(st)
    requires CrashFree(steps) && NoneStops(steps) && Lawful(steps) && TargetsAlive(st, steps)
    ensures LawfulInv(Run(Resettable, st, steps)) && RoundAlive(Run(Resettable, st, steps))
    ensures forall s :: At(Run(Resettable, st, steps), s, Dead) <==> At(st, s, Dead)
    decreases |steps|
  {
    if steps != [] {
      assert Lawful(steps[1..]) && CrashFree(steps[1..]) && NoneStops(steps[1..]) && TargetsAlive(st, steps[1..]);
      if Enabled(st, steps[0]) {
        assert steps[0] in steps;
        DeadStay(Resettable, st, steps[0]);
        NextKeepsLawful(st, steps[0]);
        RunKeepsLawful(Next(Resettable, st, steps[0]), steps[1..]);
      } else {
        RunKeepsLawful(st, steps[1..]);
      }
    }
  }

  // ---- the counting semaphore ----

  /** b is what a is when its events count instead of being reset. */
  predicate SameButCounting(a: State, b: State) {
    && a.pcs.Keys == a.begin.Keys == b.begin.Keys
    && b == a.(done := b.done, begin := b.begin)
    && b.done == (if a.client == WokenUp then 0 else a.done)
    && forall s | s in a.pcs :: b.begin[s] == if a.pcs[s] == Woken then 0 else a.begin[s]
  }

  lemma CountingSandboxStep(a: State, b: State, step: Step)
    requires Wf(a) && SlotsOk(a) && Wf(b) && SameButCounting(a, b)
    requires step.Wakes? || step.Resets? || step.Subtracts? || step.SetsDone? || step.Starts?
    requires step.SetsDone? && Enabled(a, step) ==> a.done == 0 && a.client != WokenUp
    ensures Enabled(a, step) == Enabled(b, step)
    ensures Enabled(a, step) ==> SameButCounting(Next(Resettable, a, step), Next(Semaphore, b, step))
  {
    if (step.Wakes? || step.Resets?) && step.s in a.pcs {
      SandboxOkAt(a, step.s);
    }
  }

  lemma CountingClientStep(a: State, b: State, step: Step)
    requires Wf(a) && Wf(b) && SameButCounting(a, b) && ClientStep(step)
    requires step.ClientWakes? ==> a.done <= 1
    requires step.SignalNext? && Enabled(a, step) ==>
      var s := a.round[a.client.next]; a.begin[s] == 0 && a.pcs[s] == Asleep
    ensures Enabled(a, step) == Enabled(b, step)
    ensures Enabled(a, step) ==> SameButCounting(Next(Resettable, a, step), Next(Semaphore, b, step))
  {
  }

  lemma CountingStep(a: State, b: State, step: Step)
    requires LawfulInv(a) && RoundAlive(a) && Wf(b) && SameButCounting(a, b)
    requires !step.Crashes? && !step.Unblock? && !step.Stops?
    ensures Enabled(a, step) == Enabled(b, step)
    ensures Enabled(a, step) ==> SameButCounting(Next(Resettable, a, step), Next(Semaphore, b, step))
  {
    if Enabled(a, step) {
      NoSetIsLost(a, step);
      if step.SignalNext? {
        assert !At(a, a.round[a.client.next], Dead);
      }
    }
    if ClientStep(step) {
      CountingClientStep(a, b, step);
    } else {
      CountingSandboxStep(a, b, step);
    }
  }

  lemma {:induction false} CountingRun(a: State, b: State, steps: seq<Step>)
    requires LawfulInv(a) && RoundAlive(a) && Wf(b) && SameButCounting(a, b)
    requires Lawful(steps) && CrashFree(steps) && NoneStops(steps) && TargetsAlive(a, steps)
    ensures SameButCounting(Run(Resettable, a, steps), Run(Semaphore, b, steps))
    decreases |steps|
  {
    if steps != [] {
      assert Lawful(steps[1..]) && CrashFree(steps[1..]) && NoneStops(steps[1..]) && TargetsAlive(a, steps[1..]);
      assert steps[0] in steps;
      CountingStep(a, b, steps[0]);
      if Enabled(a, steps[0]) {
        DeadStay(Resettable, a, steps[0]);
        NextKeepsLawful(a, steps[0]);
        CountingRun(Next(Resettable, a, steps[0]), Next(Semaphore, b, steps[0]), steps[1..]);
      } else {
        CountingRun(a, b, steps[1..]);
      }
    }
  }

  /** Windows events and POSIX semaphores take every run to the same place. */
  lemma EventAndSemaphoreAgree(steps: seq<Step>)
    requires Lawful(steps) && CrashFree(steps) && NoneStops(steps)
    ensures var a, b := Run(Resettable, INITIAL, steps), Run(Semaphore, INITIAL, steps);
      a.client == b.client && a.counter == b.counter && a.pcs == b.pcs && a.rounds == b.rounds
  {
    CountingRun(INITIAL, INITIAL, steps);
  }
}
