/**
 Runs of the barrier in which nothing crashes, whatever sandboxes the rounds signal: one
 fetch_sub of every round finds the counter at one, and the done event is set once for it.
 */
module BarrierCrashFree {
  import opened Barrier

  predicate NoneNotifying(pcs: map<Id, SandboxPc>) {
    forall s | s in pcs :: pcs[s] != Notifying
  }

  ghost predicate OneNotifying(pcs: map<Id, SandboxPc>) {
    exists s | s in pcs :: pcs[s] == Notifying && forall x | x in pcs && pcs[x] == Notifying :: x == s
  }

  /** How many fetch_subs of the round have returned 1. */
  predicate LastsExact(st: State) {
    st.lasts == if st.counter == 0 && st.round != [] then 1 else 0
  }

  ghost predicate DoneExact(kind: Kind, st: State) {
    match st.client
    case Owning => st.done == 0 && NoneNotifying(st.pcs)
    case WokenUp =>
      && st.done == (if kind == Resettable then 1 else 0)
      && NoneNotifying(st.pcs) && st.counter == 0 && st.round != []
    case Checking => st.done == 0 && NoneNotifying(st.pcs) && st.counter == 0 && st.round != []
    case _ =>
      && (st.client == Waiting ==> st.round != [])
      && if st.counter == 0 && st.round != [] then
           (st.done == 1 && NoneNotifying(st.pcs)) || (st.done == 0 && OneNotifying(st.pcs))
         else st.done == 0 && NoneNotifying(st.pcs)
  }

  predicate RoundExact(r: Round) {
    && r.outcome == Done
    && r.subs == multiset(r.targets)
    && r.lasts == if r.targets == [] then 0 else 1
  }

  /** The done event and the rounds so far are exact. */
  ghost predicate DonesExact(kind: Kind, st: State) {
    LastsExact(st) && DoneExact(kind, st) && forall r | r in st.rounds :: RoundExact(r)
  }

  ghost predicate ExactInv(kind: Kind, st: State) {
    CountInv(kind, st) && DonesExact(kind, st)
  }

  predicate ClientStep(step: Step) {
    step.BeginRound? || step.SignalNext? || step.SignalledAll? || step.Zeroed?
    || step.ClientWakes? || step.ClientResets? || step.ClientChecks?
  }

  lemma ClientStepKeepsDones(kind: Kind, st: State, step: Step)
    requires Wf(st) && DonesExact(kind, st) && Enabled(st, step) && ClientStep(step)
    requires st.counter + |st.subs| == |st.round| && (st.client == Owning ==> st.round == [])
    requires st.counter == 0 ==> st.subs == multiset(st.round)
    ensures DonesExact(kind, Next(kind, st, step))
  {
    assert Next(kind, st, step).pcs == st.pcs;
  }

  lemma ClientStepKeepsExactInv(kind: Kind, st: State, step: Step)
    requires ExactInv(kind, st) && Enabled(st, step) && ClientStep(step)
    ensures ExactInv(kind, Next(kind, st, step))
  {
    NextKeepsCountInv(kind, st, step);
    ZeroMeansAllAnswered(kind, st);
    ClientStepKeepsDones(kind, st, step);
  }

  lemma OnlyNotifying(pcs: map<Id, SandboxPc>, s: Id)
    requires NoneNotifying(pcs)
    ensures OneNotifying(pcs[s := Notifying])
  {
    var pcs' := pcs[s := Notifying];
    assert s in pcs' && pcs'[s] == Notifying;
  }

  lemma SubtractKeepsDones(kind: Kind, st: State, s: Id)
    requires Wf(st) && DonesExact(kind, st) && At(st, s, Working)
    requires st.counter >= 1 && st.client != Owning && st.round != []
    ensures DonesExact(kind, Next(kind, st, Subtracts(s)))
  {
    var st' := Next(kind, st, Subtracts(s));
    assert st.done == 0 && NoneNotifying(st.pcs);
    if st.counter == 1 {
      OnlyNotifying(st.pcs, s);
    } else {
      assert NoneNotifying(st'.pcs);
    }
  }

  lemma SubtractKeepsExactInv(kind: Kind, st: State, s: Id)
    requires ExactInv(kind, st) && At(st, s, Working)
    ensures ExactInv(kind, Next(kind, st, Subtracts(s)))
  {
    SubtractKeepsCountInv(kind, st, s);
    WorkIsCounted(kind, st, s);
    SubtractKeepsDones(kind, st, s);
  }

  lemma SandboxStepKeepsDones(kind: Kind, st: State, step: Step)
    requires Wf(st) && DonesExact(kind, st) && Enabled(st, step) && SandboxStep(step) && !step.Crashes?
    ensures DonesExact(kind, Next(kind, st, step))
  {
    var st' := Next(kind, st, step);
    if OneNotifying(st.pcs) && !step.SetsDone? {
      var s :| s in st.pcs && st.pcs[s] == Notifying && forall x | x in st.pcs && st.pcs[x] == Notifying :: x == s;
      assert s in st'.pcs && st'.pcs[s] == Notifying;
    }
  }

  lemma SandboxStepKeepsExactInv(kind: Kind, st: State, step: Step)
    requires ExactInv(kind, st) && Enabled(st, step) && SandboxStep(step) && !step.Crashes?
    ensures ExactInv(kind, Next(kind, st, step))
  {
    SandboxStepKeepsCountInv(kind, st, step);
    SandboxStepKeepsDones(kind, st, step);
  }

  lemma NextKeepsExactInv(kind: Kind, st: State, step: Step)
    requires ExactInv(kind, st) && Enabled(st, step) && !step.Crashes? && !step.Unblock?
    ensures ExactInv(kind, Next(kind, st, step))
  {
    if step.Subtracts? {
      SubtractKeepsExactInv(kind, st, step.s);
    } else if SandboxStep(step) {
      SandboxStepKeepsExactInv(kind, st, step);
    } else {
      ClientStepKeepsExactInv(kind, st, step);
    }
  }

  lemma {:induction false} RunKeepsExactInv(kind: Kind, st: State, steps: seq<Step>)
    requires ExactInv(kind, st) && CrashFree(steps)
    ensures ExactInv(kind, Run(kind, st, steps))
    decreases |steps|
  {
    if steps != [] {
      if Enabled(st, steps[0]) {
        assert steps[0] in steps;
        NextKeepsExactInv(kind, st, steps[0]);
        RunKeepsExactInv(kind, Next(kind, st, steps[0]), steps[1..]);
      } else {
        RunKeepsExactInv(kind, st, steps[1..]);
      }
    }
  }

  /** Every round that has ended returned done after every one of its signals had been answered,
      by exactly one fetch_sub that saw the counter reach zero; and the counter counts the
      signals of the round that are still to be answered. */
  lemma EveryRoundCompletes(kind: Kind, steps: seq<Step>)
    requires CrashFree(steps)
    ensures var st := Run(kind, INITIAL, steps);
      && (forall r | r in st.rounds :: RoundExact(r))
      && st.subs <= multiset(st.round) && st.counter == |multiset(st.round) - st.subs|
  {
    RunKeepsExactInv(kind, INITIAL, steps);
    var st := Run(kind, INITIAL, steps);
    ZeroMeansAllAnswered(kind, st);
    SubmultisetSize(st.subs, multiset(st.round));
  }

  /** Whoever owns the buffers: in an exact state in which the client does, no sandbox is awake and
      no event is set. */
  lemma OwningMeansAsleep(kind: Kind, st: State, s: Id)
    requires ExactInv(kind, st) && st.client == Owning && s in st.pcs && st.pcs[s] != Dead
    ensures st.pcs[s] == Asleep && st.begin[s] == 0
  {
    CoveredAt(kind, st, s);
  }

  /** While the client writes inputs, reads outputs or copies between sandboxes, every
      sandbox's audio thread sleeps or has stopped, and none has been signalled. */
  lemma SandboxesSleepWhileClientOwns(kind: Kind, steps: seq<Step>)
    requires CrashFree(steps)
    ensures var st := Run(kind, INITIAL, steps);
      st.client == Owning ==>
        st.done == 0 && forall s | s in st.pcs && st.pcs[s] != Dead :: st.pcs[s] == Asleep && st.begin[s] == 0
  {
    RunKeepsExactInv(kind, INITIAL, steps);
    var st := Run(kind, INITIAL, steps);
    if st.client == Owning {
      forall s | s in st.pcs && st.pcs[s] != Dead
        ensures st.pcs[s] == Asleep && st.begin[s] == 0
      {
        OwningMeansAsleep(kind, st, s);
      }
    }
  }
}
