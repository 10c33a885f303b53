/**
 How long a round of audio_process takes: the steps of the barrier, and one for every device.
 */
module AudioProgress {
  import opened Order
  import opened AudioPass
  import opened Latency
  import opened RoundHistory
  import opened AudioRounds

  /** How many devices of the orders are still to be processed. */
  function DevicesLeft(orders: seq<seq<Id>>, progress: seq<nat>): nat
    requires |progress| == |orders|
  {
    if orders == [] then 0
    else
      var n := |orders| - 1;
      DevicesLeft(orders[..n], progress[..n]) + if progress[n] < |orders[n]| then |orders[n]| - progress[n] else 0
  }

  lemma {:induction false} OneDeviceLess(orders: seq<seq<Id>>, progress: seq<nat>, s: nat)
    requires |progress| == |orders| && s < |orders| && progress[s] < |orders[s]|
    ensures DevicesLeft(orders, progress[s := progress[s] + 1]) + 1 == DevicesLeft(orders, progress)
  {
    var n := |orders| - 1;
    if s == n {
      assert progress[s := progress[s] + 1][..n] == progress[..n];
    } else {
      assert progress[s := progress[s] + 1][..n] == progress[..n][s := progress[s] + 1];
      OneDeviceLess(orders[..n], progress[..n], s);
    }
  }

  lemma {:induction false} NoDeviceLeft(orders: seq<seq<Id>>, progress: seq<nat>)
    requires |progress| == |orders| && forall s :: 0 <= s < |orders| ==> progress[s] >= |orders[s]|
    ensures DevicesLeft(orders, progress) == 0
  {
    if orders != [] {
      NoDeviceLeft(orders[..|orders| - 1], progress[..|orders| - 1]);
    }
  }

  /** A step that brings the round further. */
  predicate RoundStep(step: Step) {
    step.ProcessOne? || (step.Sync? && P.RoundStep(step.step))
  }

  function StepsLeft(g: Group, m: Machine): nat
    requires Wf(g, m)
  {
    P.StepsLeft(m.barrier) + DevicesLeft(g.orders, m.progress)
  }

  lemma SyncTakesOne(g: Group, m: Machine, head: Port, b: B.Step)
    requires GroupOk(g) && Wf(g, m) && L.LawfulInv(m.barrier) && Enabled(g, m, head, Sync(b)) && P.RoundStep(b)
    ensures StepsLeft(g, Next(g, m, head, Sync(b))) + 1 == StepsLeft(g, m)
  {
    P.NextTakesOne(m.barrier, b);
  }

  lemma ProcessingTakesOne(g: Group, m: Machine, head: Port, s: nat)
    requires GroupOk(g) && Wf(g, m) && Enabled(g, m, head, ProcessOne(s))
    ensures StepsLeft(g, Next(g, m, head, ProcessOne(s))) + 1 == StepsLeft(g, m)
  {
    OneDeviceLess(g.orders, m.progress, s);
  }

  lemma NextTakesOne(g: Group, m: Machine, head: Port, step: Step)
    requires GroupOk(g) && Wf(g, m) && L.LawfulInv(m.barrier) && Enabled(g, m, head, step) && RoundStep(step)
    ensures StepsLeft(g, Next(g, m, head, step)) + 1 == StepsLeft(g, m)
  {
    match step
    case Sync(b) => SyncTakesOne(g, m, head, b);
    case ProcessOne(s) => ProcessingTakesOne(g, m, head, s);
  }

  ghost predicate CanGoOn(g: Group, m: Machine, head: Port)
    requires GroupOk(g) && Wf(g, m)
  {
    exists step :: RoundStep(step) && Enabled(g, m, head, step)
  }

  lemma WorkingIsSignalled(b: B.State, s: B.Id)
    requires L.LawfulInv(b) && B.At(b, s, B.Working)
    ensures s in b.round
  {
    L.SandboxOkAt(b, s);
  }

  /** A sandbox that could do its fetch_sub does, or it has a device to process first. */
  lemma SandboxGoesOn(g: Group, m: Machine, head: Port, s: B.Id)
    requires GroupOk(g) && Wf(g, m) && SignalsAll(g, m.barrier.round) && s in m.barrier.round
    requires B.At(m.barrier, s, B.Working)
    ensures CanGoOn(g, m, head)
  {
    var step := if m.progress[s] < |g.orders[s]| then ProcessOne(s) else Sync(B.Subtracts(s));
    assert RoundStep(step) && Enabled(g, m, head, step);
  }

  /** While the client is in the barrier, some thread can take a step. */
  lemma SomeoneGoesOn(g: Group, m: Machine, head: Port)
    requires GroupOk(g) && Wf(g, m) && ThreadsOk(g, m) && m.phase == Busy && m.barrier.client != B.Owning
    ensures CanGoOn(g, m, head)
  {
    P.SomeoneGoesOn(m.barrier);
    var b :| P.RoundStep(b) && B.Enabled(m.barrier, b);
    if b.Subtracts? {
      WorkingIsSignalled(m.barrier, b.s);
      SandboxGoesOn(g, m, head, b.s);
    } else {
      assert RoundStep(Sync(b)) && Enabled(g, m, head, Sync(b));
    }
  }

  // ---- the rest of a round ----

  /** Steps of a round, and of sandboxes that start meanwhile. */
  predicate Within(steps: seq<Step>) {
    forall i :: 0 <= i < |steps| ==> RoundStep(steps[i]) || (steps[i].Sync? && steps[i].step.Starts?)
  }

  /** How many steps of the round a run takes. */
  function Taken(g: Group, m: Machine, head: Port, steps: seq<Step>): nat
    requires GroupOk(g) && Wf(g, m)
    decreases |steps|
  {
    if steps == [] then 0
    else if Enabled(g, m, head, steps[0]) then
      Taken(g, Next(g, m, head, steps[0]), head, steps[1..]) + if RoundStep(steps[0]) then 1 else 0
    else Taken(g, m, head, steps[1..])
  }

  lemma StartsTakesNone(g: Group, m: Machine, head: Port, step: Step)
    requires GroupOk(g) && Wf(g, m) && Enabled(g, m, head, step) && step.Sync? && step.step.Starts?
    ensures StepsLeft(g, Next(g, m, head, step)) == StepsLeft(g, m)
  {
    P.StartsTakesNone(m.barrier, step.step.s);
  }

  lemma {:induction false} TakenAddsUp(g: Group, m: Machine, head: Port, steps: seq<Step>)
    requires GroupOk(g) && Wf(g, m) && ThreadsOk(g, m) && m.phase == Busy && Within(steps)
    ensures var m' := Run(g, m, head, steps);
      && ThreadsOk(g, m') && m'.phase == Busy
      && StepsLeft(g, m') + Taken(g, m, head, steps) == StepsLeft(g, m)
    decreases |steps|
  {
    if steps != [] {
      var step := steps[0];
      assert Within(steps[1..]);
      if Enabled(g, m, head, step) {
        NextKeepsThreads(g, m, head, step);
        if RoundStep(step) {
          NextTakesOne(g, m, head, step);
        } else {
          StartsTakesNone(g, m, head, step);
        }
        TakenAddsUp(g, Next(g, m, head, step), head, steps[1..]);
      } else {
        TakenAddsUp(g, m, head, steps[1..]);
      }
    }
  }

  /** The client can read exactly when no step of the round is left. */
  lemma ReadsWhenNoneLeft(g: Group, m: Machine, head: Port)
    requires GroupOk(g) && Wf(g, m) && ThreadsOk(g, m) && m.phase == Busy
    ensures StepsLeft(g, m) == 0 <==> Enabled(g, m, head, Read)
    ensures StepsLeft(g, m) > 0 ==> CanGoOn(g, m, head)
  {
    P.NoneLeftIffOwning(m.barrier);
    if m.barrier.client == B.Owning {
      NoDeviceLeft(g.orders, m.progress);
    } else {
      SomeoneGoesOn(g, m, head);
    }
  }

  function Devices(orders: seq<seq<Id>>): nat {
    DevicesLeft(orders, seq(|orders|, _ => 0))
  }

  function Below(n: nat): (xs: set<B.Id>)
    ensures |xs| == n && forall s :: s in xs <==> 0 <= s < n
  {
    if n == 0 then {} else Below(n - 1) + {n - 1}
  }

  lemma {:induction false} SizeOfAll(targets: seq<B.Id>, n: nat)
    requires forall s :: s in targets <==> 0 <= s < n
    ensures |B.Elems(targets)| == n
  {
    assert B.Elems(targets) == Below(n);
  }

  lemma BeginsWithAll(g: Group, m: Machine, head: Port, targets: seq<B.Id>)
    requires GroupOk(g) && Wf(g, m) && ThreadsOk(g, m) && Enabled(g, m, head, Sync(B.BeginRound(targets)))
    ensures |targets| == |g.orders|
    ensures StepsLeft(g, Next(g, m, head, Sync(B.BeginRound(targets)))) == P.RoundLength(|g.orders|) + Devices(g.orders)
  {
    P.BeginningStepsLeft(m.barrier, targets);
    L.DistinctSize(targets);
    SizeOfAll(targets, |g.orders|);
  }

  /** The client reads, and somebody goes on until then, along any schedule. */
  ghost predicate ReadsAlong(g: Group, m: Machine, head: Port, length: nat, steps: seq<Step>)
    requires GroupOk(g) && Wf(g, m)
  {
    var end, taken := Run(g, m, head, steps), Taken(g, m, head, steps);
    && taken <= length
    && (taken == length <==> Enabled(g, end, head, Read))
    && (taken < length ==> CanGoOn(g, end, head))
  }

  lemma BusyReadsAlong(g: Group, m: Machine, head: Port, steps: seq<Step>)
    requires GroupOk(g) && Wf(g, m) && ThreadsOk(g, m) && m.phase == Busy && Within(steps)
    ensures ReadsAlong(g, m, head, StepsLeft(g, m), steps)
  {
    TakenAddsUp(g, m, head, steps);
    ReadsWhenNoneLeft(g, Run(g, m, head, steps), head);
  }

  /** Every round of every run ends: from its beginning, whatever the schedule, the client can
      read its outputs after as many steps as the barrier takes and the group has devices, and not
      before, and until then there is always a step to take. */
  lemma ClientReadsAfter(g: Group, st: Buffers, head: Port, before: seq<Step>, targets: seq<B.Id>, more: seq<Step>)
    requires GroupOk(g) && GroupShaped(g, st, head) && Within(more)
    requires Enabled(g, Run(g, Initial(g, st), head, before), head, Sync(B.BeginRound(targets)))
    ensures
      var begun := Next(g, Run(g, Initial(g, st), head, before), head, Sync(B.BeginRound(targets)));
      ReadsAlong(g, begun, head, P.RoundLength(|g.orders|) + Devices(g.orders), more)
  {
    InitialInv(g, st, head);
    RunKeepsInv(g, st, head, Initial(g, st), before);
    var m := Run(g, Initial(g, st), head, before);
    BeginsWithAll(g, m, head, targets);
    NextKeepsThreads(g, m, head, Sync(B.BeginRound(targets)));
    BusyReadsAlong(g, Next(g, m, head, Sync(B.BeginRound(targets))), head, more);
  }
}
