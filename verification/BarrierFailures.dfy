/**
 Sandboxes that start, crash or stop, and the client unblocking itself: for either kind of
 event and from every reachable state.
 */
module BarrierFailures {
  import opened Barrier
  import opened BarrierCrashFree
  import opened BarrierProgress

  // ---- threads that come and go ----

  /** Nobody but s and none of the client's variables has changed. */
  ghost predicate OnlySandbox(st: State, st': State, s: Id) {
    && st'.client == st.client && st'.counter == st.counter && st'.done == st.done
    && st'.round == st.round && st'.subs == st.subs && st'.rounds == st.rounds
    && (forall t | t != s :: t in st'.pcs <==> t in st.pcs)
    && (forall t | t in st.pcs && t != s :: t in st'.pcs && st'.pcs[t] == st.pcs[t])
    && (forall t | t in st.begin && t != s :: t in st'.begin && st'.begin[t] == st.begin[t])
  }

  /** Nothing that a sandbox's thread does can happen. */
  ghost predicate DoesNothing(st: State, s: Id) {
    && !Enabled(st, Wakes(s)) && !Enabled(st, Resets(s)) && !Enabled(st, Subtracts(s)) && !Enabled(st, SetsDone(s))
    && !Enabled(st, Starts(s)) && forall left :: !Enabled(st, Stops(s, left))
  }

  lemma {:induction false} DeadDoNothing(kind: Kind, st: State, s: Id, steps: seq<Step>)
    requires Wf(st) && At(st, s, Dead)
    ensures At(Run(kind, st, steps), s, Dead) && DoesNothing(Run(kind, st, steps), s)
    decreases |steps|
  {
    if steps != [] {
      if Enabled(st, steps[0]) {
        DeadDoNothing(kind, Next(kind, st, steps[0]), s, steps[1..]);
      } else {
        DeadDoNothing(kind, st, s, steps[1..]);
      }
    }
  }

  /** A process may crash at any moment, and its thread may stop while it waits.  From then on it
      does nothing, whatever happens; all others are left as they were, and so is its event,
      unless the stop has left it otherwise. */
  lemma DeathIsFinal(kind: Kind, st: State, s: Id, left: nat, steps: seq<Step>)
    requires Wf(st) && s in st.pcs
    ensures Enabled(st, Crashes(s))
    ensures var dead := Next(kind, st, Crashes(s));
      && OnlySandbox(st, dead, s) && dead.begin == st.begin && DoesNothing(Run(kind, dead, steps), s)
    ensures Enabled(st, Stops(s, left)) <==> st.pcs[s] == Asleep || st.pcs[s] == Woken
    ensures Enabled(st, Stops(s, left)) ==>
      var dead := Next(kind, st, Stops(s, left));
      && OnlySandbox(st, dead, s) && dead.begin[s] == left && DoesNothing(Run(kind, dead, steps), s)
  {
    DeadDoNothing(kind, Next(kind, st, Crashes(s)), s, steps);
    if Enabled(st, Stops(s, left)) {
      DeadDoNothing(kind, Next(kind, st, Stops(s, left)), s, steps);
    }
  }

  /** Each of the steps is enabled when its turn comes. */
  predicate AllEnabled(kind: Kind, st: State, steps: seq<Step>)
    requires Wf(st)
    decreases |steps|
  {
    steps != [] ==> Enabled(st, steps[0]) && AllEnabled(kind, Next(kind, st, steps[0]), steps[1..])
  }

  lemma FirstEnabled(kind: Kind, st: State, step: Step, rest: seq<Step>)
    requires Wf(st) && Enabled(st, step)
    ensures AllEnabled(kind, st, [step] + rest) <==> AllEnabled(kind, Next(kind, st, step), rest)
    ensures Run(kind, st, [step] + rest) == Run(kind, Next(kind, st, step), rest)
  {
    assert ([step] + rest)[1..] == rest;
  }

  function Wait(): seq<Step> {
    [ClientWakes] + ([ClientResets] + ([ClientChecks] + []))
  }

  function Ending(): seq<Step> {
    [SignalledAll] + ([Zeroed] + Wait())
  }

  function Answers(s: Id): seq<Step> {
    [Wakes(s)] + ([Resets(s)] + ([Subtracts(s)] + ([SetsDone(s)] + Ending())))
  }

  /** A round for s alone, from the first signal to the end. */
  function Serves(s: Id): seq<Step> {
    [BeginRound([s])] + ([SignalNext] + Answers(s))
  }

  lemma WaitReturns(kind: Kind, st: State)
    requires Wf(st) && st.client == Waiting && st.done > 0
    ensures AllEnabled(kind, st, Wait())
    ensures var end, outcome := Run(kind, st, Wait()), if st.counter > 0 then NotResponding else Done;
      end.client == Owning && end.rounds == st.rounds + [Round(st.round, st.subs, st.lasts, outcome)]
  {
    var a := Next(kind, st, ClientWakes);
    var b := Next(kind, a, ClientResets);
    FirstEnabled(kind, st, ClientWakes, [ClientResets] + ([ClientChecks] + []));
    FirstEnabled(kind, a, ClientResets, [ClientChecks] + []);
    FirstEnabled(kind, b, ClientChecks, []);
  }

  lemma ServedEnds(kind: Kind, st: State)
    requires Wf(st) && st.round != [] && st.client == Signalling(|st.round|) && st.done > 0
    ensures AllEnabled(kind, st, Ending())
    ensures var end, outcome := Run(kind, st, Ending()), if st.counter > 0 then NotResponding else Done;
      end.client == Owning && end.rounds == st.rounds + [Round(st.round, st.subs, st.lasts, outcome)]
  {
    var a := Next(kind, st, SignalledAll);
    FirstEnabled(kind, st, SignalledAll, [Zeroed] + Wait());
    FirstEnabled(kind, a, Zeroed, Wait());
    WaitReturns(kind, Next(kind, a, Zeroed));
  }

  lemma LastAnswers(kind: Kind, st: State, s: Id)
    requires Wf(st) && At(st, s, Working) && st.counter == 1
    requires st.round == [s] && st.client == Signalling(1) && st.subs == multiset{} && st.lasts == 0
    ensures AllEnabled(kind, st, [Subtracts(s)] + ([SetsDone(s)] + Ending()))
    ensures var end := Run(kind, st, [Subtracts(s)] + ([SetsDone(s)] + Ending()));
      end.client == Owning && end.rounds == st.rounds + [Round([s], multiset{s}, 1, Done)]
  {
    var f := Next(kind, st, Subtracts(s));
    assert f.subs == multiset{s};
    FirstEnabled(kind, f, SetsDone(s), Ending());
    FirstEnabled(kind, st, Subtracts(s), [SetsDone(s)] + Ending());
    ServedEnds(kind, Next(kind, f, SetsDone(s)));
  }

  lemma SignalledAnswers(kind: Kind, st: State, s: Id)
    requires Wf(st) && At(st, s, Asleep) && st.begin[s] == 1 && st.counter == 1
    requires st.round == [s] && st.client == Signalling(1) && st.subs == multiset{} && st.lasts == 0
    ensures AllEnabled(kind, st, Answers(s))
    ensures var end := Run(kind, st, Answers(s));
      end.client == Owning && end.rounds == st.rounds + [Round([s], multiset{s}, 1, Done)]
  {
    var d := Next(kind, st, Wakes(s));
    FirstEnabled(kind, d, Resets(s), [Subtracts(s)] + ([SetsDone(s)] + Ending()));
    FirstEnabled(kind, st, Wakes(s), [Resets(s)] + ([Subtracts(s)] + ([SetsDone(s)] + Ending())));
    LastAnswers(kind, Next(kind, d, Resets(s)), s);
  }

  /** A new sandbox waits until a round signals it; then it works and answers, and the round is
      done. */
  lemma StartedSandboxServes(kind: Kind, st: State, s: Id)
    requires Wf(st) && s !in st.pcs && st.client == Owning
    ensures Enabled(st, Starts(s))
    ensures var started := Next(kind, st, Starts(s));
      && OnlySandbox(st, started, s) && !Enabled(started, Wakes(s)) && AllEnabled(kind, started, Serves(s))
      && var end := Run(kind, started, Serves(s));
         end.client == Owning && end.rounds == st.rounds + [Round([s], multiset{s}, 1, Done)]
  {
    var a := Next(kind, st, Starts(s));
    var b := Next(kind, a, BeginRound([s]));
    var c := Next(kind, b, SignalNext);
    FirstEnabled(kind, b, SignalNext, Answers(s));
    FirstEnabled(kind, a, BeginRound([s]), [SignalNext] + Answers(s));
    SignalledAnswers(kind, c, s);
  }

  /** fetch_sub counts down, and wraps when a late answer finds the counter at zero; only the one
      that found 1 goes on to set all_sandboxes_done. */
  lemma SubtractWraps(kind: Kind, st: State, s: Id)
    requires Wf(st) && At(st, s, Working)
    ensures var st' := Next(kind, st, Subtracts(s));
      && st'.counter == (if st.counter == 0 then 0xFFFF_FFFF else st.counter - 1)
      && (At(st', s, Notifying) <==> st.counter == 1) && (At(st', s, Asleep) <==> st.counter != 1)
      && st'.subs == st.subs + multiset{s}
  {
  }

  // ---- unblock_self ----

  /** A step of the client in a round that has begun. */
  predicate InRound(step: Step) {
    ClientStep(step) && !step.BeginRound?
  }

  ghost predicate ClientCanGoOn(st: State) {
    exists step :: InRound(step) && Enabled(st, step)
  }

  /** all_sandboxes_done is set, or the client is past waiting for it. */
  predicate Freed(st: State) {
    st.done > 0 || st.client == Owning || st.client == WokenUp || st.client == Checking
  }

  predicate NoNewRound(steps: seq<Step>) {
    forall step | step in steps :: !step.BeginRound?
  }

  /** How many steps of the client in the round a run takes. */
  function ClientTaken(kind: Kind, st: State, steps: seq<Step>): nat
    requires Wf(st)
    decreases |steps|
  {
    if steps == [] then 0
    else if Enabled(st, steps[0]) then
      ClientTaken(kind, Next(kind, st, steps[0]), steps[1..]) + if InRound(steps[0]) then 1 else 0
    else ClientTaken(kind, st, steps[1..])
  }

  lemma NextStaysFreed(kind: Kind, st: State, step: Step)
    requires Wf(st) && Freed(st) && Enabled(st, step) && !step.BeginRound?
    ensures Freed(Next(kind, st, step))
    ensures ClientStepsLeft(Next(kind, st, step)) + (if InRound(step) then 1 else 0) == ClientStepsLeft(st)
  {
  }

  lemma FreedGoesOn(st: State)
    requires Wf(st) && Freed(st) && st.client != Owning
    ensures ClientCanGoOn(st)
  {
    var step := match st.client
      case Signalling(next) => if next < |st.round| then SignalNext else SignalledAll
      case Zeroing => Zeroed
      case Waiting => ClientWakes
      case WokenUp => ClientResets
      case _ => ClientChecks;
    assert InRound(step) && Enabled(st, step);
  }

  lemma {:induction false} FreedTakenAddsUp(kind: Kind, st: State, steps: seq<Step>)
    requires Wf(st) && Freed(st) && NoNewRound(steps)
    ensures Freed(Run(kind, st, steps))
    ensures ClientStepsLeft(Run(kind, st, steps)) + ClientTaken(kind, st, steps) == ClientStepsLeft(st)
    decreases |steps|
  {
    if steps != [] {
      assert steps[0] in steps && NoNewRound(steps[1..]);
      if Enabled(st, steps[0]) {
        NextStaysFreed(kind, st, steps[0]);
        FreedTakenAddsUp(kind, Next(kind, st, steps[0]), steps[1..]);
      } else {
        FreedTakenAddsUp(kind, st, steps[1..]);
      }
    }
  }

  // ---- how the round ends ----

  /** end is st later in the same round, or just after it.  Once over, its outcome says whether all
      of its signals had been answered, provided that the count was right in st. */
  ghost predicate SameRound(kind: Kind, st: State, end: State) {
    if end.client == Owning then
      && |end.rounds| == |st.rounds| + 1 && end.rounds[..|st.rounds|] == st.rounds
      && var r := end.rounds[|st.rounds|];
         r.targets == st.round && (CountInv(kind, st) ==> (r.outcome == Done <==> r.subs == multiset(r.targets)))
    else
      end.rounds == st.rounds && end.round == st.round && (CountInv(kind, st) ==> CountInv(kind, end))
  }

  lemma NextIsSameRound(kind: Kind, st: State, step: Step)
    requires Wf(st) && st.client != Owning && Enabled(st, step) && !step.BeginRound?
    ensures SameRound(kind, st, Next(kind, st, step))
  {
    if CountInv(kind, st) {
      ZeroMeansAllAnswered(kind, st);
      if !step.ClientChecks? {
        NextKeepsCountInv(kind, st, step);
      }
    }
  }

  lemma {:induction false} OwningKeepsRounds(kind: Kind, st: State, steps: seq<Step>)
    requires Wf(st) && st.client == Owning && NoNewRound(steps)
    ensures Run(kind, st, steps).client == Owning && Run(kind, st, steps).rounds == st.rounds
    decreases |steps|
  {
    if steps != [] {
      assert steps[0] in steps && NoNewRound(steps[1..]);
      OwningKeepsRounds(kind, if Enabled(st, steps[0]) then Next(kind, st, steps[0]) else st, steps[1..]);
    }
  }

  lemma {:induction false} RunIsSameRound(kind: Kind, st: State, steps: seq<Step>)
    requires Wf(st) && st.client != Owning && NoNewRound(steps)
    ensures SameRound(kind, st, Run(kind, st, steps))
    decreases |steps|
  {
    if steps != [] {
      assert steps[0] in steps && NoNewRound(steps[1..]);
      if Enabled(st, steps[0]) {
        var next := Next(kind, st, steps[0]);
        NextIsSameRound(kind, st, steps[0]);
        if next.client == Owning {
          OwningKeepsRounds(kind, next, steps[1..]);
        } else {
          RunIsSameRound(kind, next, steps[1..]);
        }
      } else {
        RunIsSameRound(kind, st, steps[1..]);
      }
    }
  }

  lemma FreedEnds(kind: Kind, st: State, more: seq<Step>)
    requires Wf(st) && Freed(st) && NoNewRound(more)
    ensures ClientTaken(kind, st, more) <= ClientStepsLeft(st)
    ensures ClientTaken(kind, st, more) == ClientStepsLeft(st) <==> Run(kind, st, more).client == Owning
    ensures Run(kind, st, more).client != Owning ==> ClientCanGoOn(Run(kind, st, more))
  {
    FreedTakenAddsUp(kind, st, more);
    if Run(kind, st, more).client != Owning {
      FreedGoesOn(Run(kind, st, more));
    }
  }

  lemma UnblockedIsCounted(kind: Kind, before: seq<Step>)
    ensures var st := Run(kind, INITIAL, before);
      AllDone(st.rounds) ==> CountInv(kind, st) && CountInv(kind, Next(kind, st, Unblock))
  {
    RunKeepsInv(kind, INITIAL, before);
    if AllDone(Run(kind, INITIAL, before).rounds) {
      NextKeepsCountInv(kind, Run(kind, INITIAL, before), Unblock);
    }
  }

  /** Once the client unblocks itself in a round, whoever has crashed or stopped and whatever else
      happens: the client can always go on, until it has its buffers back after exactly the steps
      that its round still has for it.  Before a first not_responding, it is told not_responding
      if and only if some signal of the round has not been answered. */
  lemma UnblockEndsRound(kind: Kind, before: seq<Step>, more: seq<Step>)
    requires NoNewRound(more) && Run(kind, INITIAL, before).client != Owning
    ensures
      var st := Run(kind, INITIAL, before);
      var st1 := Next(kind, st, Unblock);
      var end, taken := Run(kind, st1, more), ClientTaken(kind, st1, more);
      && Enabled(st, Unblock) && taken <= ClientStepsLeft(st)
      && (taken == ClientStepsLeft(st) <==> end.client == Owning)
      && (taken < ClientStepsLeft(st) ==> ClientCanGoOn(end) && end.rounds == st.rounds)
      && (end.client == Owning ==>
            && |end.rounds| == |st.rounds| + 1 && end.rounds[..|st.rounds|] == st.rounds
            && var r := end.rounds[|st.rounds|];
               r.targets == st.round
               && (AllDone(st.rounds) ==> (r.outcome == NotResponding <==> r.subs != multiset(r.targets))))
  {
    var st1 := Next(kind, Run(kind, INITIAL, before), Unblock);
    FreedEnds(kind, st1, more);
    UnblockedIsCounted(kind, before);
    RunIsSameRound(kind, st1, more);
  }

  /** A client that waits in a reachable state is woken by it, and told not_responding if and only
      if the counter is above zero. */
  lemma UnblockWakesClient(kind: Kind, before: seq<Step>)
    requires Run(kind, INITIAL, before).client == Waiting
    ensures
      var st := Run(kind, INITIAL, before);
      var end := Run(kind, st, [Unblock] + Wait());
      && AllEnabled(kind, st, [Unblock] + Wait()) && end.client == Owning
      && |end.rounds| == |st.rounds| + 1 && end.rounds[..|st.rounds|] == st.rounds
      && (end.rounds[|st.rounds|].outcome == NotResponding <==> st.counter > 0)
      && (AllDone(st.rounds) ==>
            (end.rounds[|st.rounds|].outcome == NotResponding <==> st.subs != multiset(st.round)))
  {
    var st := Run(kind, INITIAL, before);
    RunKeepsInv(kind, INITIAL, before);
    if AllDone(st.rounds) {
      ZeroMeansAllAnswered(kind, st);
    }
    FirstEnabled(kind, st, Unblock, Wait());
    WaitReturns(kind, Next(kind, st, Unblock));
  }

  // ---- a round that cannot be completed ----

  /** s has a signal to answer and never will. */
  predicate Unanswerable(st: State, s: Id) {
    At(st, s, Dead) && st.subs[s] < multiset(st.round)[s]
  }

  lemma {:induction false} StaysUnanswerable(kind: Kind, st: State, s: Id, steps: seq<Step>)
    requires Wf(st) && st.client != Owning && Unanswerable(st, s) && NoNewRound(steps)
    ensures var end := Run(kind, st, steps);
      end.client == Owning ==>
        |end.rounds| > |st.rounds|
        && end.rounds[|st.rounds|].subs[s] < multiset(end.rounds[|st.rounds|].targets)[s]
    decreases |steps|
  {
    if steps != [] {
      assert steps[0] in steps && NoNewRound(steps[1..]);
      if Enabled(st, steps[0]) {
        var next := Next(kind, st, steps[0]);
        if next.client == Owning {
          OwningKeepsRounds(kind, next, steps[1..]);
        } else {
          StaysUnanswerable(kind, next, s, steps[1..]);
        }
      } else {
        StaysUnanswerable(kind, st, s, steps[1..]);
      }
    }
  }

  /** A round in which a sandbox with a signal to answer has crashed or stopped is given up as
      not_responding once the client unblocks itself, and after no more than its own steps. */
  lemma BlockedRoundIsGivenUp(kind: Kind, before: seq<Step>, s: Id, more: seq<Step>)
    requires NoNewRound(more) && Run(kind, INITIAL, before).client != Owning
    requires AllDone(Run(kind, INITIAL, before).rounds) && Unanswerable(Run(kind, INITIAL, before), s)
    ensures
      var st := Run(kind, INITIAL, before);
      var st1 := Next(kind, st, Unblock);
      var end := Run(kind, st1, more);
      && (ClientTaken(kind, st1, more) == ClientStepsLeft(st) <==> end.client == Owning)
      && (end.client != Owning ==> ClientCanGoOn(end) && end.rounds == st.rounds)
      && (end.client == Owning ==>
            && |end.rounds| == |st.rounds| + 1 && end.rounds[..|st.rounds|] == st.rounds
            && end.rounds[|st.rounds|].targets == st.round && end.rounds[|st.rounds|].outcome == NotResponding)
  {
    UnblockEndsRound(kind, before, more);
    StaysUnanswerable(kind, Next(kind, Run(kind, INITIAL, before), Unblock), s, more);
  }
}
