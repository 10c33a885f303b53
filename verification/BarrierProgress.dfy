/**
 Every round of the barrier that signals distinct sandboxes whose threads are running ends,
 after a fixed number of steps of the client and the sandboxes, in whatever order they come.
 */
module BarrierProgress {
  import opened Barrier
  import opened BarrierCrashFree
  import opened BarrierLawful

  /** A step of the threads that take part in the round. */
  predicate RoundStep(step: Step) {
    !step.BeginRound? && !step.Starts? && !step.Stops? && !step.Crashes? && !step.Unblock?
  }

  ghost predicate CanGoOn(st: State) {
    exists step :: RoundStep(step) && Enabled(st, step)
  }

  // ---- how many steps are left ----

  function Unfinished(st: State): set<Id> {
    set s | s in st.round && s !in st.subs
  }

  function NotReset(st: State): set<Id> {
    set s | s in Unfinished(st) && !At(st, s, Working)
  }

  function NotWoken(st: State): set<Id> {
    set s | s in Unfinished(st) && !At(st, s, Working) && !At(st, s, Woken)
  }

  function SandboxStepsLeft(st: State): nat {
    |NotWoken(st)| + |NotReset(st)| + |Unfinished(st)|
  }

  function ClientStepsLeft(st: State): nat
    requires Wf(st)
  {
    var wait := if st.round == [] then 0 else 3;
    match st.client
    case Owning => 0
    case Signalling(next) => |st.round| - next + 2 + wait
    case Zeroing => 1 + wait
    case Waiting => 3
    case WokenUp => 2
    case Checking => 1
  }

  function SetsLeft(st: State): nat {
    if st.round != [] && (st.counter > 0 || !NoneNotifying(st.pcs)) then 1 else 0
  }

  function StepsLeft(st: State): nat
    requires Wf(st)
  {
    ClientStepsLeft(st) + SandboxStepsLeft(st) + SetsLeft(st)
  }

  /** Signal, wake, reset and subtract for every sandbox; one set of the done event; and the
      client's steps after the signals, of which it skips three when it has nobody to wait for. */
  function RoundLength(n: nat): nat {
    if n == 0 then 2 else 4 * n + 6
  }

  lemma AtWorkIsUnfinished(st: State, s: Id)
    requires Wf(st) && SlotsOk(st) && s in st.pcs
    requires (st.pcs[s] == Asleep && st.begin[s] > 0) || st.pcs[s] == Woken || st.pcs[s] == Working
    ensures s in Unfinished(st)
  {
    SandboxOkAt(st, s);
  }

  lemma WakesTakesOne(st: State, s: Id)
    requires Wf(st) && SlotsOk(st) && Enabled(st, Wakes(s))
    ensures SandboxStepsLeft(Next(Resettable, st, Wakes(s))) + 1 == SandboxStepsLeft(st)
  {
    var st' := Next(Resettable, st, Wakes(s));
    AtWorkIsUnfinished(st, s);
    assert Unfinished(st') == Unfinished(st);
    assert NotReset(st') == NotReset(st);
    assert NotWoken(st') == NotWoken(st) - {s};
  }

  lemma ResetsTakesOne(st: State, s: Id)
    requires Wf(st) && SlotsOk(st) && Enabled(st, Resets(s))
    ensures SandboxStepsLeft(Next(Resettable, st, Resets(s))) + 1 == SandboxStepsLeft(st)
  {
    var st' := Next(Resettable, st, Resets(s));
    AtWorkIsUnfinished(st, s);
    assert Unfinished(st') == Unfinished(st);
    assert NotReset(st') == NotReset(st) - {s};
    assert NotWoken(st') == NotWoken(st);
  }

  lemma SubtractsTakesOne(st: State, s: Id)
    requires Wf(st) && SlotsOk(st) && Enabled(st, Subtracts(s))
    ensures SandboxStepsLeft(Next(Resettable, st, Subtracts(s))) + 1 == SandboxStepsLeft(st)
  {
    var st' := Next(Resettable, st, Subtracts(s));
    AtWorkIsUnfinished(st, s);
    assert Unfinished(st') == Unfinished(st) - {s};
    assert NotReset(st') == NotReset(st);
    assert NotWoken(st') == NotWoken(st);
  }

  /** A step that changes neither the round nor who works leaves the sandboxes' share as it is. */
  lemma SameSandboxSteps(st: State, st': State)
    requires Unfinished(st') == Unfinished(st)
    requires forall s | s in Unfinished(st) ::
      At(st', s, Working) == At(st, s, Working) && At(st', s, Woken) == At(st, s, Woken)
    ensures SandboxStepsLeft(st') == SandboxStepsLeft(st)
  {
    assert NotReset(st') == NotReset(st);
    assert NotWoken(st') == NotWoken(st);
  }

  /** The last sandbox still has to set the done event once its fetch_sub has returned 1. */
  lemma SubtractsKeepsSets(st: State, s: Id)
    requires LawfulInv(st) && Enabled(st, Subtracts(s))
    ensures SetsLeft(Next(Resettable, st, Subtracts(s))) == SetsLeft(st)
  {
    var st' := Next(Resettable, st, Subtracts(s));
    WorkIsCounted(Resettable, st, s);
    if st.counter == 1 {
      assert st'.pcs[s] == Notifying;
    }
  }

  lemma SetsDoneTakesOne(st: State, s: Id)
    requires Wf(st) && DonesExact(Resettable, st) && Enabled(st, SetsDone(s))
    ensures StepsLeft(Next(Resettable, st, SetsDone(s))) + 1 == StepsLeft(st)
  {
    var st' := Next(Resettable, st, SetsDone(s));
    assert st.pcs[s] == Notifying && st.counter == 0 && st.round != [];
    assert NoneNotifying(st'.pcs);
    assert Unfinished(st') == Unfinished(st);
    SameSandboxSteps(st, st');
  }

  lemma NotifyingKept(pcs: map<Id, SandboxPc>, s: Id, pc: SandboxPc)
    requires (s in pcs ==> pcs[s] != Notifying) && pc != Notifying
    ensures NoneNotifying(pcs[s := pc]) == NoneNotifying(pcs)
  {
    var pcs' := pcs[s := pc];
    assert forall x | x in pcs && x != s :: pcs'[x] == pcs[x];
  }

  /** A client step after which the round is still under way. */
  lemma ClientGoesOn(st: State, step: Step)
    requires Wf(st) && Enabled(st, step)
    requires step.SignalNext? || step.SignalledAll? || step.Zeroed? || step.ClientWakes? || step.ClientResets?
    requires Next(Resettable, st, step).client != Owning
    ensures StepsLeft(Next(Resettable, st, step)) + 1 == StepsLeft(st)
  {
    SameSandboxSteps(st, Next(Resettable, st, step));
  }

  lemma ClientEnds(st: State, step: Step)
    requires LawfulInv(st) && Enabled(st, step) && (step.Zeroed? || step.ClientChecks?)
    requires Next(Resettable, st, step).client == Owning
    ensures StepsLeft(Next(Resettable, st, step)) + 1 == StepsLeft(st)
  {
    var st' := Next(Resettable, st, step);
    ZeroMeansAllFinished(st);
    assert st.counter == 0 && NoneNotifying(st.pcs);
    assert SetsLeft(st) == 0 && SetsLeft(st') == 0;
    assert Unfinished(st) == {} && Unfinished(st') == {};
    assert SandboxStepsLeft(st) == 0 && SandboxStepsLeft(st') == 0;
  }

  lemma SandboxTakesOne(st: State, step: Step)
    requires LawfulInv(st) && Enabled(st, step)
    requires step.Wakes? || step.Resets? || step.Subtracts? || step.SetsDone?
    ensures StepsLeft(Next(Resettable, st, step)) + 1 == StepsLeft(st)
  {
    match step
    case Wakes(s) =>
      WakesTakesOne(st, s);
      NotifyingKept(st.pcs, s, Woken);
    case Resets(s) =>
      ResetsTakesOne(st, s);
      NotifyingKept(st.pcs, s, Working);
    case Subtracts(s) =>
      SubtractsTakesOne(st, s);
      SubtractsKeepsSets(st, s);
    case SetsDone(s) => SetsDoneTakesOne(st, s);
  }

  lemma NextTakesOne(st: State, step: Step)
    requires LawfulInv(st) && Enabled(st, step) && RoundStep(step)
    ensures StepsLeft(Next(Resettable, st, step)) + 1 == StepsLeft(st)
  {
    if step.Wakes? || step.Resets? || step.Subtracts? || step.SetsDone? {
      SandboxTakesOne(st, step);
    } else if Next(Resettable, st, step).client == Owning {
      ClientEnds(st, step);
    } else {
      ClientGoesOn(st, step);
    }
  }

  lemma StartsTakesNone(st: State, s: Id)
    requires Wf(st) && Enabled(st, Starts(s))
    ensures StepsLeft(Next(Resettable, st, Starts(s))) == StepsLeft(st)
  {
    var st' := Next(Resettable, st, Starts(s));
    NotifyingKept(st.pcs, s, Asleep);
    assert Unfinished(st') == Unfinished(st);
    SameSandboxSteps(st, st');
  }

  lemma NoneLeftIffOwning(st: State)
    requires LawfulInv(st)
    ensures StepsLeft(st) == 0 <==> st.client == Owning
  {
    if st.client == Owning {
      assert Unfinished(st) == {};
    }
  }

  // ---- no thread waits for nothing ----

  lemma SomeSandboxGoesOn(st: State)
    requires LawfulInv(st) && RoundAlive(st) && st.client == Waiting && st.counter > 0
    ensures CanGoOn(st)
  {
    ZeroMeansAllFinished(st);
    var s :| s in st.round && s !in st.subs;
    assert st.round[..|st.round|] == st.round && !At(st, s, Dead);
    SandboxOkAt(st, s);
    var step := match st.pcs[s]
      case Asleep => Wakes(s)
      case Woken => Resets(s)
      case Working => Subtracts(s)
      case _ => SetsDone(s);
    assert RoundStep(step) && Enabled(st, step);
  }

  /** Until the client has its buffers back, some thread can take a step. */
  lemma SomeoneGoesOn(st: State)
    requires LawfulInv(st) && RoundAlive(st) && st.client != Owning
    ensures CanGoOn(st)
  {
    match st.client
    case Signalling(next) =>
      var step := if next < |st.round| then SignalNext else SignalledAll;
      assert RoundStep(step) && Enabled(st, step);
    case Zeroing => assert RoundStep(Zeroed) && Enabled(st, Zeroed);
    case WokenUp => assert RoundStep(ClientResets) && Enabled(st, ClientResets);
    case Checking => assert RoundStep(ClientChecks) && Enabled(st, ClientChecks);
    case Waiting =>
      if st.done > 0 {
        assert RoundStep(ClientWakes) && Enabled(st, ClientWakes);
      } else if st.counter > 0 {
        SomeSandboxGoesOn(st);
      } else {
        var s :| s in st.pcs && st.pcs[s] == Notifying;
        assert RoundStep(SetsDone(s)) && Enabled(st, SetsDone(s));
      }
  }

  // ---- the rest of a round ----

  /** Steps within a round in which nothing crashes or stops; new sandboxes may start. */
  predicate Within(steps: seq<Step>) {
    forall step | step in steps :: !step.BeginRound? && !step.Stops? && !step.Crashes? && !step.Unblock?
  }

  /** How many steps of the round's threads a run takes. */
  function Taken(kind: Kind, st: State, steps: seq<Step>): nat
    requires Wf(st)
    decreases |steps|
  {
    if steps == [] then 0
    else if Enabled(st, steps[0]) then
      Taken(kind, Next(kind, st, steps[0]), steps[1..]) + if RoundStep(steps[0]) then 1 else 0
    else Taken(kind, st, steps[1..])
  }

  ghost predicate EndsAlong(kind: Kind, st: State, n: nat, steps: seq<Step>)
    requires Wf(st)
  {
    var st' := Run(kind, st, steps);
    && Taken(kind, st, steps) <= n
    && (Taken(kind, st, steps) == n <==> st'.client == Owning)
    && (Taken(kind, st, steps) < n ==> CanGoOn(st'))
  }

  /** Whatever the schedule, the round is over after n steps and not before, and until then
      there is always a step to take. */
  ghost predicate EndsAfter(kind: Kind, st: State, n: nat)
    requires Wf(st)
  {
    forall steps :: Within(steps) ==> EndsAlong(kind, st, n, steps)
  }

  /** However its threads are scheduled, the round ends. */
  ghost predicate Ends(kind: Kind, st: State)
    requires Wf(st)
  {
    exists n: nat :: EndsAfter(kind, st, n)
  }

  /** From st to st', a round is still under way, or it has ended with done. */
  ghost predicate Onwards(st: State, st': State) {
    if st'.client == Owning then
      |st'.rounds| == |st.rounds| + 1 && st'.rounds[..|st.rounds|] == st.rounds
      && st'.rounds[|st.rounds|].targets == st.round && RoundExact(st'.rounds[|st.rounds|])
    else st'.rounds == st.rounds && st'.round == st.round
  }

  lemma NextGoesOnwards(st: State, step: Step)
    requires LawfulInv(st) && RoundAlive(st) && Enabled(st, step) && RoundStep(step)
    ensures LawfulInv(Next(Resettable, st, step)) && RoundAlive(Next(Resettable, st, step)) && st.client != Owning
    ensures Onwards(st, Next(Resettable, st, step))
  {
    NoneLeftIffOwning(st);
    NextTakesOne(st, step);
    NextKeepsLawful(st, step);
    var rounds := Next(Resettable, st, step).rounds;
    if |rounds| > |st.rounds| {
      assert rounds[|st.rounds|] in rounds;
    }
  }

  lemma StartsGoesOnwards(st: State, s: Id)
    requires LawfulInv(st) && RoundAlive(st) && Enabled(st, Starts(s))
    ensures var st' := Next(Resettable, st, Starts(s));
      && LawfulInv(st') && RoundAlive(st')
      && st'.client == st.client && st'.round == st.round && st'.rounds == st.rounds
  {
    NextKeepsLawful(st, Starts(s));
  }

  lemma {:induction false} TakenAddsUp(st: State, steps: seq<Step>)
    requires LawfulInv(st) && RoundAlive(st) && Within(steps)
    ensures var st' := Run(Resettable, st, steps);
      && LawfulInv(st') && RoundAlive(st') && StepsLeft(st') + Taken(Resettable, st, steps) == StepsLeft(st)
      && if st.client == Owning then st'.client == Owning && st'.rounds == st.rounds else Onwards(st, st')
    decreases |steps|
  {
    if steps != [] {
      var step := steps[0];
      assert step in steps && Within(steps[1..]);
      if Enabled(st, step) {
        var next := Next(Resettable, st, step);
        if step.Starts? {
          StartsTakesNone(st, step.s);
          StartsGoesOnwards(st, step.s);
        } else {
          NextTakesOne(st, step);
          NextGoesOnwards(st, step);
        }
        TakenAddsUp(next, steps[1..]);
      } else {
        TakenAddsUp(st, steps[1..]);
      }
    }
  }

  lemma RoundEnds(st: State)
    requires LawfulInv(st) && RoundAlive(st)
    ensures EndsAfter(Resettable, st, StepsLeft(st)) && Ends(Resettable, st)
  {
    forall steps | Within(steps)
      ensures EndsAlong(Resettable, st, StepsLeft(st), steps)
    {
      TakenAddsUp(st, steps);
      var st' := Run(Resettable, st, steps);
      NoneLeftIffOwning(st');
      if st'.client != Owning {
        SomeoneGoesOn(st');
      }
    }
  }

  lemma BeginningStepsLeft(st: State, targets: seq<Id>)
    requires ExactInv(Resettable, st) && Distinct(targets) && Enabled(st, BeginRound(targets))
    requires forall s | s in targets :: !At(st, s, Dead)
    ensures var st1 := Next(Resettable, st, BeginRound(targets));
      LawfulInv(st1) && RoundAlive(st1) && StepsLeft(st1) == RoundLength(|targets|)
  {
    var st1 := Next(Resettable, st, BeginRound(targets));
    BeginIsLawful(st, targets);
    DistinctSize(targets);
    forall s | s in targets
      ensures !At(st1, s, Working) && !At(st1, s, Woken)
    {
      OwningMeansAsleep(Resettable, st, s);
    }
    assert Unfinished(st1) == Elems(targets);
    assert NotReset(st1) == Elems(targets);
    assert NotWoken(st1) == Elems(targets);
  }

  lemma RoundRecorded(rounds: seq<Round>, st: State, end: State)
    requires st.rounds == rounds && st.client != Owning && Onwards(st, end)
    ensures end.client == Owning ==>
      end.rounds == rounds + [Round(st.round, multiset(st.round), if st.round == [] then 0 else 1, Done)]
    ensures end.client != Owning ==> end.rounds == rounds
  {
    if end.client == Owning {
      assert end.rounds == end.rounds[..|rounds|] + [end.rounds[|rounds|]];
    }
  }

  /** Whatever rounds, starts and stops came before, every round that signals distinct sandboxes
      whose threads are running ends with done, when its threads have taken exactly as many steps
      as RoundLength says, in any order; until then one of them can always take a step. */
  lemma EveryRoundEnds(before: seq<Step>, targets: seq<Id>, more: seq<Step>)
    requires CrashFree(before) && Distinct(targets) && Within(more)
    requires Enabled(Run(Resettable, INITIAL, before), BeginRound(targets))
    requires forall s | s in targets :: !At(Run(Resettable, INITIAL, before), s, Dead)
    ensures
      var st := Run(Resettable, INITIAL, before);
      var st1 := Next(Resettable, st, BeginRound(targets));
      var end := Run(Resettable, st1, more);
      var taken := Taken(Resettable, st1, more);
      && taken <= RoundLength(|targets|)
      && (taken == RoundLength(|targets|) ==>
            && end.client == Owning
            && end.rounds == st.rounds + [Round(targets, multiset(targets), if targets == [] then 0 else 1, Done)])
      && (taken < RoundLength(|targets|) ==> end.client != Owning && end.rounds == st.rounds && CanGoOn(end))
  {
    var st := Run(Resettable, INITIAL, before);
    RunKeepsExactInv(Resettable, INITIAL, before);
    BeginningStepsLeft(st, targets);
    var st1 := Next(Resettable, st, BeginRound(targets));
    TakenAddsUp(st1, more);
    RoundEnds(st1);
    assert EndsAlong(Resettable, st1, StepsLeft(st1), more);
    RoundRecorded(st.rounds, st1, Run(Resettable, st1, more));
  }

  // ---- a thread that has stopped ----

  predicate Unanswered(st: State, s: Id) {
    && At(st, s, Dead) && st.subs[s] < multiset(st.round)[s]
    && (st.client.Signalling? || st.client == Zeroing || st.client == Waiting)
    && st.done == 0 && NoneNotifying(st.pcs)
  }

  /** A sandbox that cannot answer has a signal of this round to answer. */
  ghost predicate Blocked(kind: Kind, st: State, s: Id) {
    CountInv(kind, st) && Unanswered(st, s)
  }

  lemma BlockedIsCounted(kind: Kind, st: State, s: Id)
    requires Blocked(kind, st, s)
    ensures st.counter >= 1 && st.round != []
  {
    ZeroMeansAllAnswered(kind, st);
  }

  /** The fetch_sub of another sandbox leaves the counter above zero. */
  lemma BlockedSubtracts(kind: Kind, st: State, s: Id, x: Id)
    requires Blocked(kind, st, s) && Enabled(st, Subtracts(x))
    ensures st.counter >= 2
  {
    var st' := Next(kind, st, Subtracts(x));
    WorkIsCounted(kind, st, x);
    SubtractKeepsCountInv(kind, st, x);
    ZeroMeansAllAnswered(kind, st');
  }

  lemma NextStaysUnanswered(kind: Kind, st: State, s: Id, step: Step)
    requires Wf(st) && Unanswered(st, s) && Enabled(st, step) && !step.Unblock?
    requires st.round != [] && (step.Subtracts? ==> st.counter >= 2)
    ensures Unanswered(Next(kind, st, step), s) && Next(kind, st, step).rounds == st.rounds
  {
  }

  lemma NextStaysBlocked(kind: Kind, st: State, s: Id, step: Step)
    requires Blocked(kind, st, s) && Enabled(st, step) && !step.Unblock?
    ensures Blocked(kind, Next(kind, st, step), s) && Next(kind, st, step).rounds == st.rounds
  {
    BlockedIsCounted(kind, st, s);
    if step.Subtracts? {
      BlockedSubtracts(kind, st, s, step.s);
    }
    NextKeepsCountInv(kind, st, step);
    NextStaysUnanswered(kind, st, s, step);
  }

  predicate WithinButCrashing(steps: seq<Step>) {
    forall step | step in steps :: !step.BeginRound? && !step.Unblock?
  }

  lemma {:induction false} RunStaysBlocked(kind: Kind, st: State, s: Id, steps: seq<Step>)
    requires Blocked(kind, st, s) && WithinButCrashing(steps)
    ensures Blocked(kind, Run(kind, st, steps), s) && Run(kind, st, steps).rounds == st.rounds
    decreases |steps|
  {
    if steps != [] {
      assert WithinButCrashing(steps[1..]);
      if Enabled(st, steps[0]) {
        assert steps[0] in steps;
        NextStaysBlocked(kind, st, s, steps[0]);
        RunStaysBlocked(kind, Next(kind, st, steps[0]), s, steps[1..]);
      } else {
        RunStaysBlocked(kind, st, s, steps[1..]);
      }
    }
  }

  lemma BeginsBlocked(kind: Kind, st: State, targets: seq<Id>, s: Id)
    requires ExactInv(kind, st) && Enabled(st, BeginRound(targets)) && s in targets && At(st, s, Dead)
    ensures Blocked(kind, Next(kind, st, BeginRound(targets)), s)
  {
    NextKeepsCountInv(kind, st, BeginRound(targets));
    assert s in multiset(targets);
  }

  /** A round that signals a sandbox whose thread has stopped never ends, unless the client
      unblocks itself: without a crash it has no reason to. */
  lemma StoppedTargetBlocks(kind: Kind, before: seq<Step>, targets: seq<Id>, s: Id, more: seq<Step>)
    requires CrashFree(before) && WithinButCrashing(more) && s in targets
    requires Enabled(Run(kind, INITIAL, before), BeginRound(targets))
    requires At(Run(kind, INITIAL, before), s, Dead)
    ensures
      var st := Run(kind, INITIAL, before);
      var end := Run(kind, Next(kind, st, BeginRound(targets)), more);
      end.client != Owning && end.rounds == st.rounds
  {
    var st := Run(kind, INITIAL, before);
    RunKeepsExactInv(kind, INITIAL, before);
    BeginsBlocked(kind, st, targets, s);
    RunStaysBlocked(kind, Next(kind, st, BeginRound(targets)), s, more);
  }

  lemma {:induction false} TakenOneMore(kind: Kind, st: State, steps: seq<Step>, step: Step)
    requires Wf(st) && Enabled(Run(kind, st, steps), step) && RoundStep(step)
    ensures Taken(kind, st, steps + [step]) == Taken(kind, st, steps) + 1
    decreases |steps|
  {
    if steps == [] {
      assert Taken(kind, Next(kind, st, step), []) == 0;
      assert [step][1..] == [];
    } else {
      assert (steps + [step])[1..] == steps[1..] + [step];
      if Enabled(st, steps[0]) {
        TakenOneMore(kind, Next(kind, st, steps[0]), steps[1..], step);
      } else {
        TakenOneMore(kind, st, steps[1..], step);
      }
    }
  }

  /** A round that ends after n steps has a schedule of k of them, for every k up to n. */
  lemma {:induction false} ScheduleExists(kind: Kind, st: State, n: nat, k: nat) returns (steps: seq<Step>)
    requires Wf(st) && EndsAfter(kind, st, n) && k <= n
    ensures Within(steps) && Taken(kind, st, steps) == k
    decreases k
  {
    if k == 0 {
      steps := [];
    } else {
      var first := ScheduleExists(kind, st, n, k - 1);
      assert EndsAlong(kind, st, n, first);
      var step :| RoundStep(step) && Enabled(Run(kind, st, first), step);
      steps := first + [step];
      TakenOneMore(kind, st, first, step);
    }
  }

  /** A round that signals distinct sandboxes ends, whatever the schedule, if and only if no
      thread of theirs has stopped. */
  lemma RoundEndsIffTargetsRun(before: seq<Step>, targets: seq<Id>)
    requires CrashFree(before) && Distinct(targets)
    requires Enabled(Run(Resettable, INITIAL, before), BeginRound(targets))
    ensures
      var st := Run(Resettable, INITIAL, before);
      Ends(Resettable, Next(Resettable, st, BeginRound(targets))) <==> forall s | s in targets :: !At(st, s, Dead)
  {
    var st := Run(Resettable, INITIAL, before);
    var st1 := Next(Resettable, st, BeginRound(targets));
    RunKeepsExactInv(Resettable, INITIAL, before);
    if forall s | s in targets :: !At(st, s, Dead) {
      BeginningStepsLeft(st, targets);
      RoundEnds(st1);
    } else if Ends(Resettable, st1) {
      var s :| s in targets && At(st, s, Dead);
      var n: nat :| EndsAfter(Resettable, st1, n);
      var steps := ScheduleExists(Resettable, st1, n, n);
      assert EndsAlong(Resettable, st1, n, steps);
      StoppedTargetBlocks(Resettable, before, targets, s, steps);
    }
  }
}
