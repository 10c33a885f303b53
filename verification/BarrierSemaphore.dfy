/**
 Rounds of the barrier on counting semaphores: no signal is lost, so every round ends, however
 often it signals the same sandbox.
 */
module BarrierSemaphore {
  import opened Barrier
  import opened BarrierCrashFree
  import opened BarrierLawful
  import opened BarrierProgress
  import opened BarrierUse

  // ---- every signal is still to be answered or has been ----

  predicate Owed(pc: SandboxPc, begin: nat, done: nat, signals: nat) {
    pc != Dead ==> done + Claims(Semaphore, pc, begin) == signals
  }

  /** What a running sandbox has subtracted and may still subtract is what it has been signalled. */
  predicate AllOwed(st: State)
    requires Wf(st)
  {
    forall s | s in st.pcs :: Owed(st.pcs[s], st.begin[s], st.subs[s], Signalled(st)[s])
  }

  ghost predicate OwedInv(st: State) {
    ExactInv(Semaphore, st) && AllOwed(st)
  }

  lemma OwedAt(st: State, s: Id)
    requires Wf(st) && AllOwed(st) && s in st.pcs
    ensures Owed(st.pcs[s], st.begin[s], st.subs[s], Signalled(st)[s])
  {
  }

  /** Between rounds nothing is owed, whatever the rounds before were like. */
  lemma OwningIsOwed(st: State)
    requires ExactInv(Semaphore, st) && st.client == Owning
    ensures AllOwed(st)
  {
    forall s | s in st.pcs
      ensures Owed(st.pcs[s], st.begin[s], st.subs[s], Signalled(st)[s])
    {
      CoveredAt(Semaphore, st, s);
    }
  }

  lemma SignalKeepsOwed(st: State)
    requires Wf(st) && AllOwed(st) && Enabled(st, SignalNext)
    ensures AllOwed(Next(Semaphore, st, SignalNext))
  {
    var st', n := Next(Semaphore, st, SignalNext), st.client.next;
    assert st.round[..n + 1] == st.round[..n] + [st.round[n]];
    assert Signalled(st') == Signalled(st) + multiset{st.round[n]};
    forall x | x in st'.pcs
      ensures Owed(st'.pcs[x], st'.begin[x], st'.subs[x], Signalled(st')[x])
    {
      OwedAt(st, x);
    }
  }

  lemma UnknownIsUnsignalled(st: State, s: Id)
    requires CountInv(Semaphore, st) && s !in st.pcs
    ensures Signalled(st)[s] == 0 && st.subs[s] == 0
  {
    assert s !in st.round;
    PrefixIsSubmultiset(st.round, SignalledCount(st));
    assert multiset(st.round)[s] == 0;
  }

  lemma StartsKeepsOwed(st: State, s: Id)
    requires OwedInv(st) && Enabled(st, Starts(s))
    ensures AllOwed(Next(Semaphore, st, Starts(s)))
  {
    var st' := Next(Semaphore, st, Starts(s));
    assert Signalled(st') == Signalled(st);
    UnknownIsUnsignalled(st, s);
    forall x | x in st'.pcs && x != s
      ensures Owed(st'.pcs[x], st'.begin[x], st'.subs[x], Signalled(st')[x])
    {
      OwedAt(st, x);
    }
  }

  lemma SandboxStepKeepsOwed(st: State, step: Step)
    requires Wf(st) && AllOwed(st) && Enabled(st, step)
    requires step.Wakes? || step.Resets? || step.Subtracts? || step.SetsDone? || step.Stops?
    ensures AllOwed(Next(Semaphore, st, step))
  {
    var st' := Next(Semaphore, st, step);
    assert Signalled(st') == Signalled(st);
    forall x | x in st'.pcs
      ensures Owed(st'.pcs[x], st'.begin[x], st'.subs[x], Signalled(st')[x])
    {
      OwedAt(st, x);
    }
  }

  lemma ClientStepKeepsOwed(st: State, step: Step)
    requires OwedInv(st) && Enabled(st, step) && ClientStep(step) && !step.SignalNext?
    requires Next(Semaphore, st, step).client != Owning
    ensures AllOwed(Next(Semaphore, st, step))
  {
    var st' := Next(Semaphore, st, step);
    assert st'.round[..0] == [] && st.round[..0] == [];
    assert Signalled(st') == Signalled(st);
    forall x | x in st'.pcs
      ensures Owed(st'.pcs[x], st'.begin[x], st'.subs[x], Signalled(st')[x])
    {
      OwedAt(st, x);
    }
  }

  lemma NextKeepsOwed(st: State, step: Step)
    requires OwedInv(st) && Enabled(st, step) && !step.Crashes? && !step.Unblock?
    ensures OwedInv(Next(Semaphore, st, step))
  {
    NextKeepsExactInv(Semaphore, st, step);
    if Next(Semaphore, st, step).client == Owning {
      OwningIsOwed(Next(Semaphore, st, step));
    } else if step.SignalNext? {
      SignalKeepsOwed(st);
    } else if ClientStep(step) {
      ClientStepKeepsOwed(st, step);
    } else if step.Starts? {
      StartsKeepsOwed(st, step.s);
    } else {
      SandboxStepKeepsOwed(st, step);
    }
  }

  // ---- how many steps are left ----

  function AllAt(st: State, pc: SandboxPc): set<Id> {
    set s | s in st.pcs && st.pcs[s] == pc
  }

  /** Three steps for every signal that is still to be answered, less those taken. */
  function CountingStepsLeft(st: State): int
    requires Wf(st)
  {
    ClientStepsLeft(st) + 3 * st.counter - |AllAt(st, Woken)| - 2 * |AllAt(st, Working)| + SetsLeft(st)
  }

  /** One sandbox goes from one position to another. */
  lemma Moves(st: State, st': State, s: Id, pc: SandboxPc, p: SandboxPc)
    requires s in st.pcs && st.pcs[s] != pc && st'.pcs == st.pcs[s := pc]
    ensures |AllAt(st', p)| == |AllAt(st, p)| + if p == pc then 1 else if p == st.pcs[s] then -1 else 0
  {
    if p == pc {
      assert AllAt(st', p) == AllAt(st, p) + {s};
    } else {
      assert AllAt(st', p) == AllAt(st, p) - {s};
    }
  }

  lemma SamePcs(st: State, st': State)
    requires st'.pcs == st.pcs
    ensures forall p :: AllAt(st', p) == AllAt(st, p)
  {
  }

  /** Whoever is awake has a signal to answer. */
  lemma AwakeAreCounted(st: State)
    requires OwedInv(st)
    ensures |AllAt(st, Woken)| + |AllAt(st, Working)| <= st.counter
  {
    var awake := AllAt(st, Woken) + AllAt(st, Working);
    ZeroMeansAllAnswered(Semaphore, st);
    var left := multiset(st.round) - st.subs;
    forall s | s in awake
      ensures s in left
    {
      CoveredAt(Semaphore, st, s);
    }
    assert multiset(awake) <= left;
    SubmultisetSize(multiset(awake), left);
    SubmultisetSize(st.subs, multiset(st.round));
    assert |awake| == |AllAt(st, Woken)| + |AllAt(st, Working)|;
  }

  lemma NoneLeftIffOwningToo(st: State)
    requires OwedInv(st)
    ensures CountingStepsLeft(st) >= 0 && (CountingStepsLeft(st) == 0 <==> st.client == Owning)
  {
    AwakeAreCounted(st);
  }

  /** The sandboxes' share of a step that one of them takes. */
  lemma AwakeAfter(st: State, step: Step)
    requires Wf(st) && Enabled(st, step)
    requires step.Wakes? || step.Resets? || step.Subtracts? || step.SetsDone?
    ensures var st' := Next(Semaphore, st, step);
      && |AllAt(st', Woken)| == |AllAt(st, Woken)| + (if step.Wakes? then 1 else if step.Resets? then -1 else 0)
      && |AllAt(st', Working)| == |AllAt(st, Working)| + (if step.Resets? then 1 else if step.Subtracts? then -1 else 0)
  {
    var st' := Next(Semaphore, st, step);
    Moves(st, st', step.s, st'.pcs[step.s], Woken);
    Moves(st, st', step.s, st'.pcs[step.s], Working);
  }

  lemma SetsLeftAfter(st: State, step: Step)
    requires OwedInv(st) && Enabled(st, step)
    requires step.Wakes? || step.Resets? || step.Subtracts? || step.SetsDone?
    ensures SetsLeft(Next(Semaphore, st, step)) == SetsLeft(st) - if step.SetsDone? then 1 else 0
  {
    var s, st' := step.s, Next(Semaphore, st, step);
    if step.SetsDone? {
      assert st.pcs[s] == Notifying && st.counter == 0 && st.round != [];
      assert NoneNotifying(st'.pcs);
    } else if step.Subtracts? {
      WorkIsCounted(Semaphore, st, s);
      assert st'.counter == 0 ==> st'.pcs[s] == Notifying;
    } else {
      NotifyingKept(st.pcs, s, st'.pcs[s]);
    }
  }

  lemma CounterAfter(st: State, step: Step)
    requires Wf(st) && Enabled(st, step) && (step.Subtracts? ==> st.counter >= 1)
    requires step.Wakes? || step.Resets? || step.Subtracts? || step.SetsDone?
    ensures Next(Semaphore, st, step).counter == st.counter - if step.Subtracts? then 1 else 0
    ensures ClientStepsLeft(Next(Semaphore, st, step)) == ClientStepsLeft(st)
  {
  }

  lemma SandboxTakesOneToo(st: State, step: Step)
    requires OwedInv(st) && Enabled(st, step)
    requires step.Wakes? || step.Resets? || step.Subtracts? || step.SetsDone?
    ensures CountingStepsLeft(Next(Semaphore, st, step)) + 1 == CountingStepsLeft(st)
  {
    var st' := Next(Semaphore, st, step);
    AwakeAfter(st, step);
    SetsLeftAfter(st, step);
    if step.Subtracts? {
      WorkIsCounted(Semaphore, st, step.s);
    }
    CounterAfter(st, step);
    assert CountingStepsLeft(st') == ClientStepsLeft(st') + 3 * st'.counter - |AllAt(st', Woken)|
      - 2 * |AllAt(st', Working)| + SetsLeft(st');
  }

  lemma ClientTakesOneToo(st: State, step: Step)
    requires OwedInv(st) && Enabled(st, step) && RoundStep(step) && ClientStep(step)
    ensures CountingStepsLeft(Next(Semaphore, st, step)) + 1 == CountingStepsLeft(st)
  {
    SamePcs(st, Next(Semaphore, st, step));
  }

  lemma NextTakesOneToo(st: State, step: Step)
    requires OwedInv(st) && Enabled(st, step) && RoundStep(step)
    ensures CountingStepsLeft(Next(Semaphore, st, step)) + 1 == CountingStepsLeft(st)
  {
    if ClientStep(step) {
      ClientTakesOneToo(st, step);
    } else {
      SandboxTakesOneToo(st, step);
    }
  }

  lemma StartsTakesNoneToo(st: State, s: Id)
    requires OwedInv(st) && Enabled(st, Starts(s))
    ensures CountingStepsLeft(Next(Semaphore, st, Starts(s))) == CountingStepsLeft(st)
  {
    var st' := Next(Semaphore, st, Starts(s));
    NotifyingKept(st.pcs, s, Asleep);
    assert AllAt(st', Woken) == AllAt(st, Woken) && AllAt(st', Working) == AllAt(st, Working);
  }

  // ---- no thread waits for nothing ----

  lemma PickFrom<T>(a: multiset<T>) returns (x: T)
    requires |a| > 0
    ensures x in a
  {
    x :| x in a;
  }

  lemma SomeSandboxGoesOnToo(st: State)
    requires OwedInv(st) && RoundAlive(st) && st.client == Waiting && st.counter > 0
    ensures CanGoOn(st)
  {
    ZeroMeansAllAnswered(Semaphore, st);
    SubmultisetSize(st.subs, multiset(st.round));
    assert st.round[..|st.round|] == st.round;
    var left := multiset(st.round) - st.subs;
    assert |left| == st.counter;
    var s := PickFrom(left);
    assert s in multiset(st.round) && s in st.round;
    OwedAt(st, s);
    assert !At(st, s, Dead);
    var step := match st.pcs[s]
      case Asleep => Wakes(s)
      case Woken => Resets(s)
      case Working => Subtracts(s)
      case _ => SetsDone(s);
    assert RoundStep(step) && Enabled(st, step);
  }

  lemma SomeoneGoesOnToo(st: State)
    requires OwedInv(st) && RoundAlive(st) && st.client != Owning
    ensures CanGoOn(st)
  {
    match st.client
    case Signalling(next) =>
      var step := if next < |st.round| then SignalNext else SignalledAll;
      assert RoundStep(step) && Enabled(st, step);
    case Zeroing => assert RoundStep(Zeroed) && Enabled(st, Zeroed);
    case WokenUp => assert RoundStep(ClientResets) && Enabled(st, ClientResets);
    case Checking => assert RoundStep(ClientChecks) && Enabled(st, ClientChecks);
    case Waiting =>
      if st.done > 0 {
        assert RoundStep(ClientWakes) && Enabled(st, ClientWakes);
      } else if st.counter > 0 {
        SomeSandboxGoesOnToo(st);
      } else {
        var s :| s in st.pcs && st.pcs[s] == Notifying;
        assert RoundStep(SetsDone(s)) && Enabled(st, SetsDone(s));
      }
  }

  // ---- whole rounds ----

  lemma NextIsOnwards(st: State, step: Step)
    requires Wf(st) && Enabled(st, step) && (RoundStep(step) || step.Starts?) && st.client != Owning
    requires DonesExact(Semaphore, Next(Semaphore, st, step))
    ensures Onwards(st, Next(Semaphore, st, step))
  {
    var rounds := Next(Semaphore, st, step).rounds;
    if |rounds| > |st.rounds| {
      assert rounds[|st.rounds|] in rounds;
    }
  }

  lemma NextGoesOnwardsToo(st: State, step: Step)
    requires OwedInv(st) && RoundAlive(st) && Enabled(st, step) && (RoundStep(step) || step.Starts?)
    requires st.client != Owning
    ensures var st' := Next(Semaphore, st, step); OwedInv(st') && RoundAlive(st') && Onwards(st, st')
  {
    NextKeepsOwed(st, step);
    NextIsOnwards(st, step);
  }

  lemma {:induction false} TakenAddsUpToo(st: State, steps: seq<Step>)
    requires OwedInv(st) && RoundAlive(st) && Within(steps)
    ensures var st' := Run(Semaphore, st, steps);
      && OwedInv(st') && RoundAlive(st')
      && CountingStepsLeft(st') + Taken(Semaphore, st, steps) == CountingStepsLeft(st)
      && if st.client == Owning then st'.client == Owning && st'.rounds == st.rounds else Onwards(st, st')
    decreases |steps|
  {
    if steps != [] {
      var step := steps[0];
      assert step in steps && Within(steps[1..]);
      if Enabled(st, step) {
        NoneLeftIffOwningToo(st);
        if step.Starts? {
          StartsTakesNoneToo(st, step.s);
        } else {
          NextTakesOneToo(st, step);
          NextKeepsOwed(st, step);
          NoneLeftIffOwningToo(Next(Semaphore, st, step));
        }
        if st.client != Owning {
          NextGoesOnwardsToo(st, step);
        } else {
          NextKeepsOwed(st, step);
        }
        TakenAddsUpToo(Next(Semaphore, st, step), steps[1..]);
      } else {
        TakenAddsUpToo(st, steps[1..]);
      }
    }
  }

  lemma CountingRoundEnds(st: State)
    requires OwedInv(st) && RoundAlive(st)
    ensures CountingStepsLeft(st) >= 0 && EndsAfter(Semaphore, st, CountingStepsLeft(st)) && Ends(Semaphore, st)
  {
    NoneLeftIffOwningToo(st);
    forall steps | Within(steps)
      ensures EndsAlong(Semaphore, st, CountingStepsLeft(st), steps)
    {
      TakenAddsUpToo(st, steps);
      var st' := Run(Semaphore, st, steps);
      NoneLeftIffOwningToo(st');
      if st'.client != Owning {
        SomeoneGoesOnToo(st');
      }
    }
  }

  lemma CountingBegins(st: State, targets: seq<Id>)
    requires ExactInv(Semaphore, st) && Enabled(st, BeginRound(targets))
    requires forall s | s in targets :: !At(st, s, Dead)
    ensures var st1 := Next(Semaphore, st, BeginRound(targets));
      OwedInv(st1) && RoundAlive(st1) && CountingStepsLeft(st1) == RoundLength(|targets|)
  {
    var st1 := Next(Semaphore, st, BeginRound(targets));
    OwningIsOwed(st);
    NextKeepsOwed(st, BeginRound(targets));
    forall s | s in st.pcs
      ensures st.pcs[s] != Woken && st.pcs[s] != Working
    {
      if st.pcs[s] != Dead {
        OwningMeansAsleep(Semaphore, st, s);
      }
    }
    assert AllAt(st1, Woken) == {} && AllAt(st1, Working) == {};
  }

  /** With semaphores, whatever rounds, starts and stops came before: every round whose targets'
      threads run ends with done, each of its signals answered, when its threads have taken
      exactly as many steps as RoundLength says, in any order, even if it signals one sandbox
      several times; until then one of them can always take a step. */
  lemma EverySemaphoreRoundEnds(before: seq<Step>, targets: seq<Id>, more: seq<Step>)
    requires CrashFree(before) && Within(more)
    requires Enabled(Run(Semaphore, INITIAL, before), BeginRound(targets))
    requires forall s | s in targets :: !At(Run(Semaphore, INITIAL, before), s, Dead)
    ensures
      var st := Run(Semaphore, INITIAL, before);
      var st1 := Next(Semaphore, st, BeginRound(targets));
      var end := Run(Semaphore, st1, more);
      var taken := Taken(Semaphore, st1, more);
      && taken <= RoundLength(|targets|)
      && (taken == RoundLength(|targets|) ==>
            && end.client == Owning
            && end.rounds == st.rounds + [Round(targets, multiset(targets), if targets == [] then 0 else 1, Done)])
      && (taken < RoundLength(|targets|) ==> end.client != Owning && end.rounds == st.rounds && CanGoOn(end))
  {
    var st := Run(Semaphore, INITIAL, before);
    RunKeepsExactInv(Semaphore, INITIAL, before);
    CountingBegins(st, targets);
    var st1 := Next(Semaphore, st, BeginRound(targets));
    TakenAddsUpToo(st1, more);
    CountingRoundEnds(st1);
    assert EndsAlong(Semaphore, st1, CountingStepsLeft(st1), more);
    RoundRecorded(st.rounds, st1, Run(Semaphore, st1, more));
  }

  /** A round ends, whatever the schedule, if and only if no thread of its targets has stopped. */
  lemma SemaphoreRoundEndsIffTargetsRun(before: seq<Step>, targets: seq<Id>)
    requires CrashFree(before)
    requires Enabled(Run(Semaphore, INITIAL, before), BeginRound(targets))
    ensures
      var st := Run(Semaphore, INITIAL, before);
      Ends(Semaphore, Next(Semaphore, st, BeginRound(targets))) <==> forall s | s in targets :: !At(st, s, Dead)
  {
    var st := Run(Semaphore, INITIAL, before);
    var st1 := Next(Semaphore, st, BeginRound(targets));
    RunKeepsExactInv(Semaphore, INITIAL, before);
    if forall s | s in targets :: !At(st, s, Dead) {
      CountingBegins(st, targets);
      CountingRoundEnds(st1);
    } else if Ends(Semaphore, st1) {
      var s :| s in targets && At(st, s, Dead);
      var n: nat :| EndsAfter(Semaphore, st1, n);
      var steps := ScheduleExists(Semaphore, st1, n, n);
      assert EndsAlong(Semaphore, st1, n, steps);
      StoppedTargetBlocks(Semaphore, before, targets, s, steps);
    }
  }

  // ---- what the client as written makes of it ----

  lemma ReadyIsOwed(sandboxes: seq<Id>, waiting: set<Id>)
    ensures OwedInv(Ready(sandboxes, waiting))
  {
    ReadyIsExact(Semaphore, sandboxes, waiting);
    OwningIsOwed(Ready(sandboxes, waiting));
  }

  lemma {:induction false} RunKeepsOwed(st: State, steps: seq<Step>)
    requires OwedInv(st) && CrashFree(steps) && NoneStops(steps)
    ensures OwedInv(Run(Semaphore, st, steps))
    ensures forall s :: At(Run(Semaphore, st, steps), s, Dead) <==> At(st, s, Dead)
    decreases |steps|
  {
    if steps != [] {
      assert CrashFree(steps[1..]) && NoneStops(steps[1..]);
      if Enabled(st, steps[0]) {
        assert steps[0] in steps;
        DeadStay(Semaphore, st, steps[0]);
        NextKeepsOwed(st, steps[0]);
        RunKeepsOwed(Next(Semaphore, st, steps[0]), steps[1..]);
      } else {
        RunKeepsOwed(st, steps[1..]);
      }
    }
  }

  lemma FirstWaitsEnds(sandboxes: seq<Id>, waiting: set<Id>, n: nat, steps: seq<Step>)
    requires sandboxes != [] && (n == 0 || sandboxes[0] in waiting)
    requires ClientRun(sandboxes, n, steps) && NoneStops(steps)
    ensures Ends(Semaphore, Run(Semaphore, Ready(sandboxes, waiting), steps))
  {
    var start := Ready(sandboxes, waiting);
    ReadyIsOwed(sandboxes, waiting);
    RunKeepsOwed(start, steps);
    RoundTargets(Semaphore, start, steps, SignalledByClient(sandboxes, n));
    CountingRoundEnds(Run(Semaphore, start, steps));
  }

  /** As the client signals, but with semaphores: every round of every run ends if and only if it
      counts no active sandbox or the first of the group waits, which then answers all. */
  lemma SemaphoreRoundsEndIff(sandboxes: seq<Id>, waiting: set<Id>, n: nat)
    requires sandboxes != [] && n < COUNTER_LIMIT
    ensures RoundsAlwaysEnd(Semaphore, sandboxes, waiting, n) <==> n == 0 || sandboxes[0] in waiting
  {
    if n == 0 || sandboxes[0] in waiting {
      forall steps | ClientRun(sandboxes, n, steps) && NoneStops(steps)
        ensures Ends(Semaphore, Run(Semaphore, Ready(sandboxes, waiting), steps))
      {
        FirstWaitsEnds(sandboxes, waiting, n, steps);
      }
    } else {
      FirstAbsentHangs(Semaphore, sandboxes, waiting, n);
      ToWaitingIsClientRun(sandboxes, n);
      assert !Ends(Semaphore, Run(Semaphore, Ready(sandboxes, waiting), ToWaiting(sandboxes, n)));
    }
  }
}
