/**
 How do_sandbox_processing uses the barrier: the sandboxes it signals, and the buffers
 it zeroes before it waits.
 */
module BarrierUse {
  import opened Barrier
  import opened BarrierCrashFree
  import opened BarrierLawful
  import opened BarrierProgress

  /** next_sandbox_signal reads *sandbox_iterator and never advances it, so every one of the
      count signals of a round goes to the first sandbox of the group. */
  function SignalledByClient(sandboxes: seq<Id>, count: nat): seq<Id>
    requires count > 0 ==> sandboxes != []
  {
    seq(count, i requires sandboxes != [] => sandboxes[0])
  }

  predicate AsClientDoes(sandboxes: seq<Id>, count: nat, steps: seq<Step>)
    requires count > 0 ==> sandboxes != []
  {
    forall step | step in steps :: step.BeginRound? ==> step.targets == SignalledByClient(sandboxes, count)
  }

  /** The client's rounds, while nothing crashes. */
  predicate ClientRun(sandboxes: seq<Id>, count: nat, steps: seq<Step>)
    requires count > 0 ==> sandboxes != []
  {
    CrashFree(steps) && AsClientDoes(sandboxes, count, steps)
  }

  /** No event is set.  A sandbox of the group waits, or it is absent: its event exists, but
      no thread waits for it, as before activation or after a crash. */
  function Ready(sandboxes: seq<Id>, waiting: set<Id>): (st: State)
    ensures Wf(st)
  {
    INITIAL.(pcs := map s | s in sandboxes :: if s in waiting then Asleep else Dead,
             begin := map s | s in sandboxes :: 0)
  }

  // ---- signals one after the other ----

  function Signals(n: nat): (steps: seq<Step>)
    ensures forall step | step in steps :: step == SignalNext
  {
    if n == 0 then [] else [SignalNext] + Signals(n - 1)
  }

  /** A resettable event that is set several times while nobody waits for it is set; a semaphore
      counts. */
  function SetTimes(kind: Kind, value: nat, n: nat): nat {
    if n == 0 then value else if kind == Resettable then 1 else value + n
  }

  lemma {:induction false} SignalsRun(kind: Kind, st: State, s: Id, n: nat)
    requires s in st.begin && Wf(st) && st.client.Signalling? && st.client.next + n == |st.round|
    requires forall x | x in st.round :: x == s
    ensures Run(kind, st, Signals(n))
      == st.(client := Signalling(|st.round|), begin := st.begin[s := SetTimes(kind, st.begin[s], n)])
    decreases n
  {
    if n == 0 {
      assert st.client == Signalling(|st.round|);
      assert st.begin[s := st.begin[s]] == st.begin;
    } else {
      var next := Next(kind, st, SignalNext);
      var value := Set(kind, st.begin[s]);
      assert st.round[st.client.next] in st.round && next.begin == st.begin[s := value];
      assert Signals(n)[1..] == Signals(n - 1);
      SignalsRun(kind, next, s, n - 1);
      assert SetTimes(kind, value, n - 1) == SetTimes(kind, st.begin[s], n);
      assert st.begin[s := value][s := SetTimes(kind, value, n - 1)] == st.begin[s := SetTimes(kind, value, n - 1)];
    }
  }

  // ---- early done ----

  /** The first sandbox serving n signals one after the other. */
  function Serve(s: Id, n: nat): seq<Step> {
    if n == 0 then [] else [SignalNext, Wakes(s)] + ([Resets(s), Subtracts(s)] + Serve(s, n - 1))
  }

  const FINISH := [SignalledAll, Zeroed] + WAIT
  const WAIT := [ClientWakes, ClientResets, ClientChecks]

  /** s alone has been signalled i times, out of the n signals meant for it, and has served them. */
  predicate Served(st: State, s: Id, n: nat, i: nat) {
    && Wf(st) && s in st.pcs && i <= n < COUNTER_LIMIT
    && st.round == seq(n, _ => s) && st.client == Signalling(i)
    && st.counter == n - i && st.rounds == [] && st.done == 0 && st.begin[s] == 0
    && st.pcs[s] == (if 0 < i == n then Notifying else Asleep)
    && forall x | x in st.subs :: x == s
  }

  lemma TwoSteps(st: State, x: Step, y: Step, rest: seq<Step>)
    requires Wf(st) && Enabled(st, x) && Enabled(Next(Resettable, st, x), y)
    ensures Run(Resettable, st, [x, y] + rest) == Run(Resettable, Next(Resettable, Next(Resettable, st, x), y), rest)
  {
    var all := [x, y] + rest;
    assert all[1..][1..] == rest;
    assert Run(Resettable, st, all) == Run(Resettable, Next(Resettable, st, x), all[1..]);
  }

  lemma ServeOne(st: State, s: Id, n: nat, i: nat, rest: seq<Step>) returns (st': State)
    requires i < n && Served(st, s, n, i)
    ensures Served(st', s, n, i + 1)
    ensures Run(Resettable, st, [SignalNext, Wakes(s)] + ([Resets(s), Subtracts(s)] + rest))
      == Run(Resettable, st', rest)
  {
    var b := Next(Resettable, Next(Resettable, st, SignalNext), Wakes(s));
    st' := Next(Resettable, Next(Resettable, b, Resets(s)), Subtracts(s));
    TwoSteps(st, SignalNext, Wakes(s), [Resets(s), Subtracts(s)] + rest);
    TwoSteps(b, Resets(s), Subtracts(s), rest);
  }

  lemma {:induction false} ServeAll(st: State, s: Id, n: nat, i: nat, rest: seq<Step>) returns (st': State)
    requires Served(st, s, n, i)
    ensures Served(st', s, n, n)
    ensures Run(Resettable, st, Serve(s, n - i) + rest) == Run(Resettable, st', rest)
    decreases n - i
  {
    if i == n {
      assert [] + rest == rest;
      st' := st;
    } else {
      var more := Serve(s, n - i - 1) + rest;
      assert Serve(s, n - i) + rest == [SignalNext, Wakes(s)] + ([Resets(s), Subtracts(s)] + more);
      var st1 := ServeOne(st, s, n, i, more);
      st' := ServeAll(st1, s, n, i + 1, rest);
    }
  }

  /** A run in which the client gets done although only the first sandbox has worked. */
  function OnlyFirstWorks(sandboxes: seq<Id>, n: nat): seq<Step>
    requires sandboxes != []
  {
    [BeginRound(SignalledByClient(sandboxes, n))] + (Serve(sandboxes[0], n) + ([SetsDone(sandboxes[0])] + FINISH))
  }

  lemma {:induction false} ServeIsQuiet(s: Id, n: nat)
    ensures forall step | step in Serve(s, n) :: !step.BeginRound? && !step.Stops? && !step.Crashes? && !step.Unblock?
  {
    if n > 0 {
      ServeIsQuiet(s, n - 1);
    }
  }

  lemma WaitRun(st: State)
    requires Wf(st) && st.client == Waiting && st.done == 1 && st.counter == 0 && st.rounds == []
    ensures Run(Resettable, st, WAIT).rounds == [Round(st.round, st.subs, st.lasts, Done)]
  {
    var a := Next(Resettable, st, ClientWakes);
    var b := Next(Resettable, a, ClientResets);
    var c := Next(Resettable, b, ClientChecks);
    assert Run(Resettable, st, WAIT) == Run(Resettable, a, WAIT[1..]);
    assert Run(Resettable, a, WAIT[1..]) == Run(Resettable, b, WAIT[1..][1..]);
    assert WAIT[1..][1..] == [ClientChecks];
    assert Run(Resettable, b, [ClientChecks]) == Run(Resettable, c, []);
  }

  lemma FinishRun(st: State, s: Id, n: nat)
    requires Served(st, s, n, n) && n > 0
    ensures Run(Resettable, st, [SetsDone(s)] + FINISH).rounds == [Round(st.round, st.subs, st.lasts, Done)]
  {
    var a := Next(Resettable, st, SetsDone(s));
    var b := Next(Resettable, a, SignalledAll);
    var c := Next(Resettable, b, Zeroed);
    assert ([SetsDone(s)] + FINISH)[1..] == FINISH;
    assert Run(Resettable, st, [SetsDone(s)] + FINISH) == Run(Resettable, a, FINISH);
    assert Run(Resettable, a, FINISH) == Run(Resettable, b, FINISH[1..]);
    assert FINISH[1..][1..] == WAIT;
    assert Run(Resettable, b, FINISH[1..]) == Run(Resettable, c, WAIT);
    WaitRun(c);
  }

  lemma OnlyFirstWorksIsCrashFree(sandboxes: seq<Id>, n: nat)
    requires sandboxes != []
    ensures ClientRun(sandboxes, n, OnlyFirstWorks(sandboxes, n)) && NoneStops(OnlyFirstWorks(sandboxes, n))
  {
    ServeIsQuiet(sandboxes[0], n);
  }

  lemma ServeAndFinish(st: State, s: Id, n: nat)
    requires Served(st, s, n, 0) && n > 0
    ensures var rounds := Run(Resettable, st, Serve(s, n) + ([SetsDone(s)] + FINISH)).rounds;
      |rounds| == 1 && rounds[0].outcome == Done && (forall x | x in rounds[0].subs :: x == s)
  {
    var st2 := ServeAll(st, s, n, 0, [SetsDone(s)] + FINISH);
    FinishRun(st2, s, n);
  }

  /** Early done: when the first sandbox waits, it alone can serve all the signals. */
  lemma OnlyFirstWorksRun(sandboxes: seq<Id>, waiting: set<Id>, n: nat)
    requires sandboxes != [] && sandboxes[0] in waiting && 0 < n < COUNTER_LIMIT
    ensures var st := Run(Resettable, Ready(sandboxes, waiting), OnlyFirstWorks(sandboxes, n));
      |st.rounds| == 1 && st.rounds[0].outcome == Done && forall s | s in st.rounds[0].subs :: s == sandboxes[0]
  {
    var s, targets := sandboxes[0], SignalledByClient(sandboxes, n);
    var rest := Serve(s, n) + ([SetsDone(s)] + FINISH);
    var st1 := Next(Resettable, Ready(sandboxes, waiting), BeginRound(targets));
    assert targets == seq(n, _ => s);
    assert Served(st1, s, n, 0);
    ServeAndFinish(st1, s, n);
    assert ([BeginRound(targets)] + rest)[1..] == rest;
  }

  // ---- hang ----

  /** No sandbox will take a step by itself. */
  predicate Idle(st: State) {
    st.done == 0 && forall x | x in st.pcs :: st.pcs[x] == Dead || (st.pcs[x] == Asleep && Wf(st) && st.begin[x] == 0)
  }

  lemma IdleNeverEnds(kind: Kind, st: State)
    requires Wf(st) && Idle(st) && st.client == Waiting
    ensures !CanGoOn(st) && !Ends(kind, st)
  {
    forall step | RoundStep(step)
      ensures !Enabled(st, step)
    {
    }
    forall k: nat
      ensures !EndsAfter(kind, st, k)
    {
      assert Within([]) && !EndsAlong(kind, st, k, []);
    }
  }

  /** The first sandbox of the group is absent, and nobody else has anything to do. */
  predicate Stuck(st: State, s: Id, n: nat) {
    && Wf(st) && st.rounds == [] && At(st, s, Dead) && Idle(st)
    && (st.client == Owning || st.client.Signalling? || st.client == Zeroing || st.client == Waiting)
    && (st.client != Owning ==> st.round == seq(n, _ => s))
  }

  lemma NextStaysStuck(kind: Kind, st: State, s: Id, n: nat, step: Step)
    requires n > 0 && Stuck(st, s, n) && Enabled(st, step) && !step.Crashes? && !step.Unblock?
    requires step.BeginRound? ==> step.targets == seq(n, _ => s)
    ensures Stuck(Next(kind, st, step), s, n)
  {
  }

  lemma {:induction false} RunStaysStuck(kind: Kind, st: State, s: Id, n: nat, steps: seq<Step>)
    requires n > 0 && Stuck(st, s, n) && CrashFree(steps)
    requires forall step | step in steps :: step.BeginRound? ==> step.targets == seq(n, _ => s)
    ensures Stuck(Run(kind, st, steps), s, n)
    decreases |steps|
  {
    if steps != [] {
      if Enabled(st, steps[0]) {
        assert steps[0] in steps;
        NextStaysStuck(kind, st, s, n, steps[0]);
        RunStaysStuck(kind, Next(kind, st, steps[0]), s, n, steps[1..]);
      } else {
        RunStaysStuck(kind, st, s, n, steps[1..]);
      }
    }
  }

  lemma ClientRunStaysStuck(kind: Kind, sandboxes: seq<Id>, waiting: set<Id>, n: nat, steps: seq<Step>)
    requires sandboxes != [] && sandboxes[0] !in waiting && 0 < n && ClientRun(sandboxes, n, steps)
    ensures Stuck(Run(kind, Ready(sandboxes, waiting), steps), sandboxes[0], n)
  {
    assert SignalledByClient(sandboxes, n) == seq(n, _ => sandboxes[0]);
    RunStaysStuck(kind, Ready(sandboxes, waiting), sandboxes[0], n, steps);
  }

  /** The client has stored the counter and not signalled yet. */
  function Begun(sandboxes: seq<Id>, waiting: set<Id>, n: nat): (st: State)
    requires sandboxes != [] && n < COUNTER_LIMIT
    ensures Wf(st) && st.client == Signalling(0) && |st.round| == n && forall x | x in st.round :: x == sandboxes[0]
  {
    Next(Resettable, Ready(sandboxes, waiting), BeginRound(SignalledByClient(sandboxes, n)))
  }

  lemma BegunRun(kind: Kind, sandboxes: seq<Id>, waiting: set<Id>, n: nat, rest: seq<Step>)
    requires sandboxes != [] && n < COUNTER_LIMIT
    ensures Run(kind, Ready(sandboxes, waiting), [BeginRound(SignalledByClient(sandboxes, n))] + rest)
      == Run(kind, Begun(sandboxes, waiting, n), rest)
  {
    assert ([BeginRound(SignalledByClient(sandboxes, n))] + rest)[1..] == rest;
  }

  /** The client sends its n signals and waits. */
  function ToWaiting(sandboxes: seq<Id>, n: nat): seq<Step>
    requires n > 0 ==> sandboxes != []
  {
    [BeginRound(SignalledByClient(sandboxes, n))] + (Signals(n) + [SignalledAll, Zeroed])
  }

  lemma ZeroedRun(kind: Kind, st: State)
    requires Wf(st) && st.client == Signalling(|st.round|) && st.round != []
    ensures Run(kind, st, [SignalledAll, Zeroed]) == st.(client := Waiting)
  {
    var a := Next(kind, st, SignalledAll);
    assert Run(kind, st, [SignalledAll, Zeroed]) == Run(kind, a, [Zeroed]);
    RunOne(kind, a, Zeroed);
  }

  lemma ToWaitingIsClientRun(sandboxes: seq<Id>, n: nat)
    requires sandboxes != []
    ensures ClientRun(sandboxes, n, ToWaiting(sandboxes, n)) && NoneStops(ToWaiting(sandboxes, n))
  {
  }

  lemma ToWaitingRun(kind: Kind, sandboxes: seq<Id>, waiting: set<Id>, n: nat)
    requires sandboxes != [] && 0 < n < COUNTER_LIMIT
    ensures var start := Ready(sandboxes, waiting);
      Run(kind, start, ToWaiting(sandboxes, n)) == start.(client := Waiting, counter := n,
        round := SignalledByClient(sandboxes, n), begin := start.begin[sandboxes[0] := SetTimes(kind, 0, n)])
  {
    var a := Begun(sandboxes, waiting, n);
    BegunRun(kind, sandboxes, waiting, n, Signals(n) + [SignalledAll, Zeroed]);
    RunConcat(kind, a, Signals(n), [SignalledAll, Zeroed]);
    SignalsRun(kind, a, sandboxes[0], n);
    ZeroedRun(kind, Run(kind, a, Signals(n)));
  }

  /** Hang, the first sandbox being absent: no round ends in any run, and the client comes to
      wait with nobody left to take a step. */
  lemma FirstAbsentHangs(kind: Kind, sandboxes: seq<Id>, waiting: set<Id>, n: nat)
    requires sandboxes != [] && sandboxes[0] !in waiting && 0 < n < COUNTER_LIMIT
    ensures forall run | ClientRun(sandboxes, n, run) ::
      Run(kind, Ready(sandboxes, waiting), run).rounds == []
    ensures ClientRun(sandboxes, n, ToWaiting(sandboxes, n))
    ensures var st := Run(kind, Ready(sandboxes, waiting), ToWaiting(sandboxes, n));
      st.client == Waiting && !CanGoOn(st) && !Ends(kind, st)
  {
    forall run | ClientRun(sandboxes, n, run)
      ensures Stuck(Run(kind, Ready(sandboxes, waiting), run), sandboxes[0], n)
    {
      ClientRunStaysStuck(kind, sandboxes, waiting, n, run);
    }
    ToWaitingRun(kind, sandboxes, waiting, n);
    ToWaitingIsClientRun(sandboxes, n);
    IdleNeverEnds(kind, Run(kind, Ready(sandboxes, waiting), ToWaiting(sandboxes, n)));
  }

  /** One sandbox waking and doing its work. */
  function Work(s: Id): seq<Step> {
    [Wakes(s), Resets(s), Subtracts(s)]
  }

  lemma WorkRun(st: State, s: Id)
    requires Wf(st) && At(st, s, Asleep) && st.begin[s] == 1 && st.counter > 1
    ensures Run(Resettable, st, Work(s))
      == st.(counter := st.counter - 1, subs := st.subs + multiset{s}, begin := st.begin[s := 0])
  {
    var a := Next(Resettable, st, Wakes(s));
    var b := Next(Resettable, a, Resets(s));
    assert Run(Resettable, st, Work(s)) == Run(Resettable, a, Work(s)[1..]);
    assert Work(s)[1..][1..] == [Subtracts(s)];
    assert Run(Resettable, a, Work(s)[1..]) == Run(Resettable, b, [Subtracts(s)]);
    RunOne(Resettable, b, Subtracts(s));
    assert st.pcs[s := Woken][s := Working][s := Asleep] == st.pcs;
    assert st.begin[s := st.begin[s]][s := 0] == st.begin[s := 0];
  }

  /** Hang, the first sandbox waiting: when several signals are sent before it wakes, they are
      one to it, and it answers only one. */
  lemma MergedSignalsHang(sandboxes: seq<Id>, waiting: set<Id>, n: nat)
    requires sandboxes != [] && sandboxes[0] in waiting && 2 <= n < COUNTER_LIMIT
    ensures ClientRun(sandboxes, n, ToWaiting(sandboxes, n) + Work(sandboxes[0]))
    ensures var st := Run(Resettable, Ready(sandboxes, waiting), ToWaiting(sandboxes, n) + Work(sandboxes[0]));
      st.client == Waiting && st.counter == n - 1 && st.done == 0 && !CanGoOn(st) && !Ends(Resettable, st)
  {
    var start, s := Ready(sandboxes, waiting), sandboxes[0];
    ToWaitingRun(Resettable, sandboxes, waiting, n);
    ToWaitingIsClientRun(sandboxes, n);
    RunConcat(Resettable, start, ToWaiting(sandboxes, n), Work(s));
    WorkRun(Run(Resettable, start, ToWaiting(sandboxes, n)), s);
    IdleNeverEnds(Resettable, Run(Resettable, start, ToWaiting(sandboxes, n) + Work(s)));
  }

  // ---- the exact conditions ----

  lemma ReadyIsExact(kind: Kind, sandboxes: seq<Id>, waiting: set<Id>)
    ensures ExactInv(kind, Ready(sandboxes, waiting))
  {
  }

  lemma {:induction false} RoundTargets(kind: Kind, st: State, steps: seq<Step>, targets: seq<Id>)
    requires Wf(st) && (forall step | step in steps :: step.BeginRound? ==> step.targets == targets)
    requires (forall r | r in st.rounds :: r.targets == targets) && (st.client == Owning || st.round == targets)
    ensures var st' := Run(kind, st, steps);
      (forall r | r in st'.rounds :: r.targets == targets) && (st'.client == Owning || st'.round == targets)
    decreases |steps|
  {
    if steps != [] {
      if Enabled(st, steps[0]) {
        assert steps[0] in steps;
        RoundTargets(kind, Next(kind, st, steps[0]), steps[1..], targets);
      } else {
        RoundTargets(kind, st, steps[1..], targets);
      }
    }
  }

  /** What the client signals when at most its first sandbox, and that one waiting, is counted. */
  lemma OneSignalIsLawful(sandboxes: seq<Id>, waiting: set<Id>, n: nat, steps: seq<Step>)
    requires n > 0 ==> sandboxes != []
    requires n == 0 || (n == 1 && sandboxes[0] in waiting)
    requires ClientRun(sandboxes, n, steps) && NoneStops(steps)
    ensures var st := Run(Resettable, Ready(sandboxes, waiting), steps);
      LawfulInv(st) && RoundAlive(st) && forall r | r in st.rounds :: r.targets == SignalledByClient(sandboxes, n)
  {
    var targets, start := SignalledByClient(sandboxes, n), Ready(sandboxes, waiting);
    assert |targets| <= 1;
    assert Lawful(steps) && TargetsAlive(start, steps);
    ReadyIsExact(Resettable, sandboxes, waiting);
    OwningIsLawful(start);
    RunKeepsLawful(start, steps);
    RoundTargets(Resettable, start, steps, targets);
  }

  /** In every run in which nothing crashes or stops, every round ends. */
  ghost predicate RoundsAlwaysEnd(kind: Kind, sandboxes: seq<Id>, waiting: set<Id>, n: nat)
    requires n > 0 ==> sandboxes != []
  {
    forall steps :: ClientRun(sandboxes, n, steps) && NoneStops(steps)
      ==> Ends(kind, Run(kind, Ready(sandboxes, waiting), steps))
  }

  /** As the client signals, every round of every run ends if and only if it counts no active
      sandbox, or one, and the first of the group waits. */
  lemma RoundsEndIffOneSignal(sandboxes: seq<Id>, waiting: set<Id>, n: nat)
    requires sandboxes != [] && n < COUNTER_LIMIT
    ensures RoundsAlwaysEnd(Resettable, sandboxes, waiting, n) <==> n == 0 || (n == 1 && sandboxes[0] in waiting)
  {
    var start := Ready(sandboxes, waiting);
    if n == 0 || (n == 1 && sandboxes[0] in waiting) {
      forall steps | ClientRun(sandboxes, n, steps) && NoneStops(steps)
        ensures Ends(Resettable, Run(Resettable, start, steps))
      {
        OneSignalIsLawful(sandboxes, waiting, n, steps);
        RoundEnds(Run(Resettable, start, steps));
      }
    } else if sandboxes[0] in waiting {
      var steps := ToWaiting(sandboxes, n) + Work(sandboxes[0]);
      MergedSignalsHang(sandboxes, waiting, n);
      assert NoneStops(steps) && !Ends(Resettable, Run(Resettable, start, steps));
    } else {
      FirstAbsentHangs(Resettable, sandboxes, waiting, n);
      assert NoneStops(ToWaiting(sandboxes, n)) && !Ends(Resettable, Run(Resettable, start, ToWaiting(sandboxes, n)));
    }
  }

  /** done is returned only after every active sandbox has finished. */
  predicate WaitsFor(active: set<Id>, st: State) {
    forall r | r in st.rounds && r.outcome == Done :: forall s | s in active :: s in r.subs
  }

  ghost predicate WaitsAndEnds(active: set<Id>, st: State)
    requires Wf(st)
  {
    WaitsFor(active, st) && Ends(Resettable, st)
  }

  /** In every run in which nothing crashes or stops, every round ends, and not before all active
      sandboxes have finished. */
  ghost predicate ClientAlwaysWaits(sandboxes: seq<Id>, waiting: set<Id>, active: set<Id>)
    requires active != {} ==> sandboxes != []
  {
    forall steps :: ClientRun(sandboxes, |active|, steps) && NoneStops(steps)
      ==> WaitsAndEnds(active, Run(Resettable, Ready(sandboxes, waiting), steps))
  }

  lemma WaitsForFirst(sandboxes: seq<Id>, waiting: set<Id>, active: set<Id>, steps: seq<Step>)
    requires sandboxes != [] && active <= {sandboxes[0]} && active <= waiting
    requires ClientRun(sandboxes, |active|, steps) && NoneStops(steps)
    ensures WaitsAndEnds(active, Run(Resettable, Ready(sandboxes, waiting), steps))
  {
    SubsetSize(active, {sandboxes[0]});
    assert active == {} || active == {sandboxes[0]};
    OneSignalIsLawful(sandboxes, waiting, |active|, steps);
    RoundEnds(Run(Resettable, Ready(sandboxes, waiting), steps));
  }

  /** In every run every round ends, with all active sandboxes finished, if and only if no
      sandbox is active but the first of the group. */
  lemma ClientWaitsIffOnlyFirstActive(sandboxes: seq<Id>, waiting: set<Id>, active: set<Id>)
    requires sandboxes != [] && active <= waiting && active <= Elems(sandboxes) && |active| < COUNTER_LIMIT
    ensures ClientAlwaysWaits(sandboxes, waiting, active) <==> active <= {sandboxes[0]}
  {
    var start := Ready(sandboxes, waiting);
    if active <= {sandboxes[0]} {
      forall steps | ClientRun(sandboxes, |active|, steps) && NoneStops(steps)
        ensures WaitsAndEnds(active, Run(Resettable, start, steps))
      {
        WaitsForFirst(sandboxes, waiting, active, steps);
      }
    } else if sandboxes[0] in waiting {
      assert active != {};
      var steps := OnlyFirstWorks(sandboxes, |active|);
      OnlyFirstWorksIsCrashFree(sandboxes, |active|);
      OnlyFirstWorksRun(sandboxes, waiting, |active|);
      var st := Run(Resettable, start, steps);
      assert active - {sandboxes[0]} != {};
      var s := Pick(active - {sandboxes[0]});
      assert st.rounds[0] in st.rounds && s !in st.rounds[0].subs;
      assert !WaitsAndEnds(active, st);
    } else {
      assert active != {};
      FirstAbsentHangs(Resettable, sandboxes, waiting, |active|);
      assert NoneStops(ToWaiting(sandboxes, |active|));
      assert !WaitsAndEnds(active, Run(Resettable, start, ToWaiting(sandboxes, |active|)));
    }
  }

  // ---- zero_inactive_device_outputs ----

  /** The client's audio thread is using audio buffers. */
  predicate ClientUsesBuffers(st: State, groupIsActive: bool) {
    st.client == Owning || (st.client == Zeroing && !groupIsActive)
  }

  predicate BuffersShared(st: State, groupIsActive: bool) {
    ClientUsesBuffers(st, groupIsActive) && exists s | s in st.pcs :: st.pcs[s] == Working
  }

  /** In no run of the client's rounds do client and sandboxes use the buffers at once. */
  ghost predicate BuffersNeverShared(kind: Kind, sandboxes: seq<Id>, waiting: set<Id>, n: nat, groupIsActive: bool)
    requires n > 0 ==> sandboxes != []
  {
    forall steps :: ClientRun(sandboxes, n, steps)
      ==> !BuffersShared(Run(kind, Ready(sandboxes, waiting), steps), groupIsActive)
  }

  /** The first sandbox wakes on the first signal and is at work when the client zeroes. */
  function Overlap(sandboxes: seq<Id>, n: nat): seq<Step>
    requires n > 0 && sandboxes != []
  {
    [BeginRound(SignalledByClient(sandboxes, n))]
    + ([SignalNext, Wakes(sandboxes[0]), Resets(sandboxes[0])] + (Signals(n - 1) + [SignalledAll]))
  }

  lemma WakingRun(kind: Kind, st: State, s: Id)
    requires Wf(st) && st.client == Signalling(0) && st.round != [] && st.round[0] == s && At(st, s, Asleep)
    requires st.begin[s] == 0
    ensures Run(kind, st, [SignalNext, Wakes(s), Resets(s)])
      == st.(client := Signalling(1), pcs := st.pcs[s := Working], begin := st.begin[s := 0])
  {
    var a := Next(kind, st, SignalNext);
    var b := Next(kind, a, Wakes(s));
    var steps := [SignalNext, Wakes(s), Resets(s)];
    assert Run(kind, st, steps) == Run(kind, a, steps[1..]);
    assert steps[1..][1..] == [Resets(s)];
    assert Run(kind, a, steps[1..]) == Run(kind, b, [Resets(s)]);
    RunOne(kind, b, Resets(s));
    assert b.begin[s := Reset(kind, b.begin[s])] == st.begin[s := 0];
    assert st.pcs[s := Woken][s := Working] == st.pcs[s := Working];
  }

  lemma WakingAndSignalsRun(kind: Kind, st: State, s: Id, n: nat)
    requires Wf(st) && st.client == Signalling(0) && |st.round| == n > 0 && (forall x | x in st.round :: x == s)
    requires At(st, s, Asleep) && st.begin[s] == 0
    ensures var st' := Run(kind, st, [SignalNext, Wakes(s), Resets(s)] + (Signals(n - 1) + [SignalledAll]));
      st'.client == Zeroing && At(st', s, Working)
  {
    var wake := [SignalNext, Wakes(s), Resets(s)];
    RunConcat(kind, st, wake, Signals(n - 1) + [SignalledAll]);
    assert st.round[0] in st.round;
    WakingRun(kind, st, s);
    var woken := Run(kind, st, wake);
    RunConcat(kind, woken, Signals(n - 1), [SignalledAll]);
    SignalsRun(kind, woken, s, n - 1);
    RunOne(kind, Run(kind, woken, Signals(n - 1)), SignalledAll);
  }

  lemma OverlapIsClientRun(sandboxes: seq<Id>, n: nat)
    requires sandboxes != [] && n > 0
    ensures ClientRun(sandboxes, n, Overlap(sandboxes, n))
  {
  }

  lemma OverlapRun(kind: Kind, sandboxes: seq<Id>, waiting: set<Id>, n: nat)
    requires sandboxes != [] && sandboxes[0] in waiting && 0 < n < COUNTER_LIMIT
    ensures var st := Run(kind, Ready(sandboxes, waiting), Overlap(sandboxes, n));
      st.client == Zeroing && At(st, sandboxes[0], Working)
  {
    var s := sandboxes[0];
    BegunRun(kind, sandboxes, waiting, n, [SignalNext, Wakes(s), Resets(s)] + (Signals(n - 1) + [SignalledAll]));
    WakingAndSignalsRun(kind, Begun(sandboxes, waiting, n), s, n);
  }

  lemma NeverSharedWhenActive(kind: Kind, sandboxes: seq<Id>, waiting: set<Id>, n: nat, steps: seq<Step>)
    requires n > 0 ==> sandboxes != []
    requires ClientRun(sandboxes, n, steps)
    ensures !BuffersShared(Run(kind, Ready(sandboxes, waiting), steps), true)
  {
    ReadyIsExact(kind, sandboxes, waiting);
    RunKeepsExactInv(kind, Ready(sandboxes, waiting), steps);
    var st := Run(kind, Ready(sandboxes, waiting), steps);
    if st.client == Owning {
      forall s | s in st.pcs
        ensures st.pcs[s] != Working
      {
        if st.pcs[s] != Dead {
          OwningMeansAsleep(kind, st, s);
        }
      }
    }
  }

  lemma NobodyWorksUnsignalled(kind: Kind, sandboxes: seq<Id>, waiting: set<Id>, n: nat, steps: seq<Step>, s: Id)
    requires sandboxes != [] && (n == 0 || sandboxes[0] !in waiting) && ClientRun(sandboxes, n, steps)
    ensures !At(Run(kind, Ready(sandboxes, waiting), steps), s, Working)
  {
    var start := Ready(sandboxes, waiting);
    var st := Run(kind, start, steps);
    if n == 0 {
      ReadyIsExact(kind, sandboxes, waiting);
      RunKeepsExactInv(kind, start, steps);
      RoundTargets(kind, start, steps, SignalledByClient(sandboxes, 0));
      if At(st, s, Working) {
        WorkIsCounted(kind, st, s);
      }
    } else {
      ClientRunStaysStuck(kind, sandboxes, waiting, n, steps);
    }
  }

  /** Client and sandboxes never use the buffers at once if and only if the group is active, or
      the client counts no active sandbox, or the first of the group is absent: the outputs of an
      inactive group are zeroed after its signals have been sent. */
  lemma BuffersSeparateIff(kind: Kind, sandboxes: seq<Id>, waiting: set<Id>, n: nat, groupIsActive: bool)
    requires sandboxes != [] && n < COUNTER_LIMIT
    ensures BuffersNeverShared(kind, sandboxes, waiting, n, groupIsActive)
      <==> groupIsActive || n == 0 || sandboxes[0] !in waiting
  {
    if groupIsActive {
      forall steps | ClientRun(sandboxes, n, steps)
        ensures !BuffersShared(Run(kind, Ready(sandboxes, waiting), steps), groupIsActive)
      {
        NeverSharedWhenActive(kind, sandboxes, waiting, n, steps);
      }
    } else if n == 0 || sandboxes[0] !in waiting {
      forall steps | ClientRun(sandboxes, n, steps)
        ensures !BuffersShared(Run(kind, Ready(sandboxes, waiting), steps), groupIsActive)
      {
        forall s | s in Run(kind, Ready(sandboxes, waiting), steps).pcs
          ensures Run(kind, Ready(sandboxes, waiting), steps).pcs[s] != Working
        {
          NobodyWorksUnsignalled(kind, sandboxes, waiting, n, steps, s);
        }
      }
    } else {
      OverlapRun(kind, sandboxes, waiting, n);
      OverlapIsClientRun(sandboxes, n);
      assert BuffersShared(Run(kind, Ready(sandboxes, waiting), Overlap(sandboxes, n)), groupIsActive);
    }
  }
}
