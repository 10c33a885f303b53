/**
 audio_process and the sandboxes' audio threads on shared buffers: the barrier machine with
 what its threads do between its steps.  One step touches the buffers of one device, or makes
 one copy, so a run is any interleaving that the barrier allows.
 */
module AudioRounds {
  import B = Barrier
  import E = BarrierCrashFree
  import L = BarrierLawful
  import P = BarrierProgress
  import opened AudioPass
  import opened Latency
  import opened RoundHistory

  /** Where the client is in audio_process. */
  datatype Phase =
    | Idle
    | Ready              // it has written the input
    | Busy               // in do_sandbox_processing
    | Copying(i: nat)    // it has read its outputs and made the first i copies

  datatype Machine = Machine(
    barrier: B.State,
    phase: Phase,
    buffers: Buffers,
    start: Buffers,          // the buffers the current round began with
    round: Round,            // the current round; its schedule is what has been processed so far
    progress: seq<nat>,      // how many devices each sandbox has processed in it
    played: seq<Played>)     // the rounds whose outputs the client has read

  datatype Step =
    | Write(input: Block, f: Plugins)
    | Sync(step: B.Step)
    | ProcessOne(s: nat)
    | Read
    | Copy
    | Return

  predicate Wf(g: Group, m: Machine) {
    && B.Wf(m.barrier) && |m.progress| == |g.orders|
    && Shaped(m.buffers, g.wires) && CrossShaped(m.buffers, g.cross)
    && (m.phase.Copying? ==> m.phase.i <= |g.cross|)
  }

  /** Rounds signal all the sandboxes of the group, each once. */
  predicate SignalsAll(g: Group, targets: seq<B.Id>) {
    && L.Distinct(targets) && (forall s | s in targets :: 0 <= s < |g.orders|)
    && forall s :: 0 <= s < |g.orders| ==> s in targets
  }

  predicate SyncEnabled(g: Group, m: Machine, step: B.Step)
    requires Wf(g, m)
  {
    && B.Enabled(m.barrier, step) && !step.Stops? && !step.Crashes? && !step.Unblock?
    && (step.BeginRound? ==> m.phase == Ready && SignalsAll(g, step.targets))
    // a sandbox notifies when it has processed all its devices
    && (step.Subtracts? ==> 0 <= step.s < |g.orders| && m.progress[step.s] >= |g.orders[step.s]|)
  }

  predicate Enabled(g: Group, m: Machine, head: Port, step: Step)
    requires GroupOk(g) && Wf(g, m)
  {
    match step
    case Write(_, _) => m.phase == Idle && head in m.buffers.ins
    case Sync(b) => SyncEnabled(g, m, b)
    case ProcessOne(s) => B.At(m.barrier, s, B.Working) && s < |g.orders| && m.progress[s] < |g.orders[s]|
    case Read => m.phase == Busy && m.barrier.client == B.Owning
    case Copy => m.phase.Copying? && m.phase.i < |g.cross|
    case Return => m.phase == Copying(|g.cross|)
  }

  function Next(g: Group, m: Machine, head: Port, step: Step): (m': Machine)
    requires GroupOk(g) && Wf(g, m) && Enabled(g, m, head, step)
    ensures Wf(g, m')
  {
    match step
    case Write(input, f) =>
      m.(phase := Ready, start := m.buffers, buffers := Written(m.buffers, head, input), round := Round(input, [], f),
         progress := seq(|g.orders|, _ => 0))
    case Sync(b) =>
      m.(barrier := B.Next(B.Resettable, m.barrier, b), phase := if b.BeginRound? then Busy else m.phase)
    case ProcessOne(s) =>
      var d := g.orders[s][m.progress[s]];
      assert d in g.orders[s];
      m.(buffers := ProcessDevice(m.buffers, g.wires, m.round.f, d),
         round := m.round.(schedule := m.round.schedule + [d]),
         progress := m.progress[s := m.progress[s] + 1])
    case Read =>
      m.(phase := Copying(0), played := m.played + [Played(m.start, m.round, m.buffers)])
    case Copy =>
      var w := g.cross[m.phase.i];
      assert w in g.cross;
      m.(phase := Copying(m.phase.i + 1), buffers := m.buffers.(ins := m.buffers.ins[w.dst := m.buffers.outs[w.src]]))
    case Return => m.(phase := Idle)
  }

  /** Takes the steps one after the other; a step that is not enabled is not taken. */
  function Run(g: Group, m: Machine, head: Port, steps: seq<Step>): (m': Machine)
    requires GroupOk(g) && Wf(g, m)
    ensures Wf(g, m')
    decreases |steps|
  {
    if steps == [] then m
    else if Enabled(g, m, head, steps[0]) then Run(g, Next(g, m, head, steps[0]), head, steps[1..])
    else Run(g, m, head, steps[1..])
  }

  function Initial(g: Group, st: Buffers): (m: Machine)
    requires Shaped(st, g.wires) && CrossShaped(st, g.cross)
    ensures Wf(g, m)
  {
    Machine(B.INITIAL, Idle, st, st, Round([], [], (d, i, ins) => []), seq(|g.orders|, _ => 0), [])
  }

  // ---- the threads ----

  ghost predicate BarrierOk(b: B.State) {
    L.LawfulInv(b) && forall s :: !B.At(b, s, B.Dead)
  }

  predicate FinishedDone(g: Group, m: Machine)
    requires Wf(g, m)
  {
    forall s | s in m.barrier.subs :: 0 <= s < |g.orders| && m.progress[s] == |g.orders[s]|
  }

  /** The client is in the barrier exactly while it is busy, and the sandboxes that have notified
      have processed all their devices. */
  predicate PhaseOk(g: Group, m: Machine)
    requires Wf(g, m)
  {
    && ScheduleOk(g, m.round.schedule, m.progress)
    && (m.phase != Busy ==> m.barrier.client == B.Owning)
    && (m.phase == Ready ==> m.round.schedule == [] && m.progress == seq(|g.orders|, _ => 0))
    && (m.phase == Busy ==>
          if m.barrier.client == B.Owning then AllDone(g, m.progress)
          else SignalsAll(g, m.barrier.round) && FinishedDone(g, m))
  }

  ghost predicate ThreadsOk(g: Group, m: Machine)
    requires Wf(g, m)
  {
    BarrierOk(m.barrier) && PhaseOk(g, m)
  }

  lemma WorkingMeansBusy(g: Group, m: Machine, s: B.Id)
    requires GroupOk(g) && Wf(g, m) && ThreadsOk(g, m) && B.At(m.barrier, s, B.Working)
    ensures m.phase == Busy && m.barrier.client != B.Owning
  {
    B.WorkIsCounted(B.Resettable, m.barrier, s);
  }

  /** Where the client can come out of the barrier, every signalled sandbox has finished. */
  lemma ComingOut(st: B.State, step: B.Step)
    requires L.LawfulInv(st) && B.Enabled(st, step) && st.client != B.Owning
    requires B.Next(B.Resettable, st, step).client == B.Owning
    ensures forall s | s in st.round :: s in st.subs
  {
    L.ZeroMeansAllFinished(st);
  }

  lemma SyncKeepsBarrier(g: Group, m: Machine, step: B.Step)
    requires Wf(g, m) && BarrierOk(m.barrier) && SyncEnabled(g, m, step)
    ensures BarrierOk(B.Next(B.Resettable, m.barrier, step))
  {
    L.NextKeepsLawful(m.barrier, step);
    L.DeadStay(B.Resettable, m.barrier, step);
  }

  lemma SyncKeepsPhase(g: Group, m: Machine, head: Port, step: B.Step)
    requires GroupOk(g) && Wf(g, m) && PhaseOk(g, m) && Enabled(g, m, head, Sync(step))
    requires step.BeginRound? ==> m.barrier.client == B.Owning
    requires m.barrier.client != B.Owning && B.Next(B.Resettable, m.barrier, step).client == B.Owning ==>
      forall s | s in m.barrier.round :: s in m.barrier.subs
    ensures PhaseOk(g, Next(g, m, head, Sync(step)))
  {
    if step.Subtracts? {
      assert OrderKept(m.round.schedule, g.orders[step.s], m.progress[step.s]);
    }
  }

  lemma SyncKeepsThreads(g: Group, m: Machine, head: Port, step: B.Step)
    requires GroupOk(g) && Wf(g, m) && ThreadsOk(g, m) && Enabled(g, m, head, Sync(step))
    ensures ThreadsOk(g, Next(g, m, head, Sync(step)))
  {
    SyncKeepsBarrier(g, m, step);
    if m.barrier.client != B.Owning && B.Next(B.Resettable, m.barrier, step).client == B.Owning {
      ComingOut(m.barrier, step);
    }
    SyncKeepsPhase(g, m, head, step);
  }

  lemma DeviceKeepsThreads(g: Group, m: Machine, head: Port, s: nat)
    requires GroupOk(g) && Wf(g, m) && ThreadsOk(g, m) && Enabled(g, m, head, ProcessOne(s))
    ensures ThreadsOk(g, Next(g, m, head, ProcessOne(s)))
  {
    WorkingMeansBusy(g, m, s);
    ScheduleGrows(g, m.round.schedule, m.progress, s);
  }

  lemma NextKeepsThreads(g: Group, m: Machine, head: Port, step: Step)
    requires GroupOk(g) && Wf(g, m) && ThreadsOk(g, m) && Enabled(g, m, head, step)
    ensures ThreadsOk(g, Next(g, m, head, step))
  {
    match step
    case Write(_, _) =>
    case Sync(b) => SyncKeepsThreads(g, m, head, b);
    case ProcessOne(s) => DeviceKeepsThreads(g, m, head, s);
    case Read =>
    case Copy =>
    case Return =>
  }

  // ---- the buffers ----

  ghost predicate BuffersOk(g: Group, st: Buffers, head: Port, m: Machine) {
    match m.phase
    case Idle => PlayedUpTo(g, st, head, m.played, m.buffers) && GroupShaped(g, m.buffers, head)
    case Copying(i) =>
      && m.played != []
      && var last := m.played[|m.played| - 1];
        Copied(g, last.end, m.buffers, i) && LeadsOn(g, st, head, m.played)
    case _ =>
      PlayedUpTo(g, st, head, m.played, m.start) && InRound(g, m.start, head, m.round, m.buffers)
  }

  lemma DeviceKeepsBuffers(g: Group, st: Buffers, head: Port, m: Machine, s: nat)
    requires GroupOk(g) && Wf(g, m) && m.phase == Busy && BuffersOk(g, st, head, m)
    requires Enabled(g, m, head, ProcessOne(s))
    ensures BuffersOk(g, st, head, Next(g, m, head, ProcessOne(s)))
  {
    var d := g.orders[s][m.progress[s]];
    assert d in g.orders[s];
  }

  lemma RoundIsOk(g: Group, m: Machine, head: Port)
    requires GroupOk(g) && Wf(g, m) && PhaseOk(g, m) && Enabled(g, m, head, Read)
    ensures RoundOk(g, m.round)
  {
  }

  lemma ReadKeepsBuffers(g: Group, st: Buffers, head: Port, m: Machine)
    requires GroupOk(g) && Wf(g, m) && RoundOk(g, m.round) && BuffersOk(g, st, head, m) && Enabled(g, m, head, Read)
    ensures BuffersOk(g, st, head, Next(g, m, head, Read))
  {
    var p := Played(m.start, m.round, m.buffers);
    PlayedGrows(g, st, head, m.played, p);
    assert g.cross[..0] == [];
  }

  lemma CopyKeepsBuffers(g: Group, st: Buffers, head: Port, m: Machine)
    requires GroupOk(g) && Wf(g, m) && BuffersOk(g, st, head, m) && Enabled(g, m, head, Copy)
    ensures BuffersOk(g, st, head, Next(g, m, head, Copy))
  {
    OneMoreCopied(g, m.played[|m.played| - 1].end, m.buffers, m.phase.i);
  }

  lemma ReturnKeepsBuffers(g: Group, st: Buffers, head: Port, m: Machine)
    requires GroupOk(g) && Wf(g, m) && BuffersOk(g, st, head, m) && Enabled(g, m, head, Return)
    ensures BuffersOk(g, st, head, Next(g, m, head, Return))
  {
    assert g.cross[..|g.cross|] == g.cross;
  }

  lemma NextKeepsBuffers(g: Group, st: Buffers, head: Port, m: Machine, step: Step)
    requires GroupOk(g) && Wf(g, m) && ThreadsOk(g, m) && BuffersOk(g, st, head, m) && Enabled(g, m, head, step)
    ensures BuffersOk(g, st, head, Next(g, m, head, step))
  {
    match step
    case Write(_, _) =>
    case Sync(b) =>
    case ProcessOne(s) =>
      WorkingMeansBusy(g, m, s);
      DeviceKeepsBuffers(g, st, head, m, s);
    case Read =>
      RoundIsOk(g, m, head);
      ReadKeepsBuffers(g, st, head, m);
    case Copy => CopyKeepsBuffers(g, st, head, m);
    case Return => ReturnKeepsBuffers(g, st, head, m);
  }

  ghost predicate Inv(g: Group, st: Buffers, head: Port, m: Machine)
    requires GroupOk(g) && Wf(g, m)
  {
    ThreadsOk(g, m) && BuffersOk(g, st, head, m)
  }

  lemma {:induction false} RunKeepsInv(g: Group, st: Buffers, head: Port, m: Machine, steps: seq<Step>)
    requires GroupOk(g) && Wf(g, m) && Inv(g, st, head, m)
    ensures Inv(g, st, head, Run(g, m, head, steps))
    decreases |steps|
  {
    if steps != [] {
      if Enabled(g, m, head, steps[0]) {
        NextKeepsThreads(g, m, head, steps[0]);
        NextKeepsBuffers(g, st, head, m, steps[0]);
        RunKeepsInv(g, st, head, Next(g, m, head, steps[0]), steps[1..]);
      } else {
        RunKeepsInv(g, st, head, m, steps[1..]);
      }
    }
  }

  lemma InitialInv(g: Group, st: Buffers, head: Port)
    requires GroupOk(g) && GroupShaped(g, st, head)
    ensures Inv(g, st, head, Initial(g, st))
  {
  }

  /** In every run the client touches the buffers only while every sandbox sleeps. */
  lemma ClientTouchesAlone(g: Group, st: Buffers, head: Port, steps: seq<Step>, step: Step)
    requires GroupOk(g) && GroupShaped(g, st, head) && Enabled(g, Run(g, Initial(g, st), head, steps), head, step)
    requires step.Write? || step.Read? || step.Copy?
    ensures var b := Run(g, Initial(g, st), head, steps).barrier;
      forall s | s in b.pcs :: b.pcs[s] == B.Asleep && b.begin[s] == 0
  {
    InitialInv(g, st, head);
    RunKeepsInv(g, st, head, Initial(g, st), steps);
    var b := Run(g, Initial(g, st), head, steps).barrier;
    forall s | s in b.pcs
      ensures b.pcs[s] == B.Asleep && b.begin[s] == 0
    {
      assert !B.At(b, s, B.Dead);
      E.OwningMeansAsleep(B.Resettable, b, s);
    }
  }

  // ---- the latency of a chain ----

  /** Every run of the machine has played rounds that lead somewhere. */
  lemma RunHasPlayed(g: Group, st: Buffers, head: Port, steps: seq<Step>) returns (now: Buffers)
    requires GroupOk(g) && GroupShaped(g, st, head)
    ensures PlayedUpTo(g, st, head, Run(g, Initial(g, st), head, steps).played, now)
  {
    InitialInv(g, st, head);
    RunKeepsInv(g, st, head, Initial(g, st), steps);
    var m := Run(g, Initial(g, st), head, steps);
    match m.phase
    case Idle => now := m.buffers;
    case Copying(_) => now :| PlayedUpTo(g, st, head, m.played, now);
    case _ => now := m.start;
  }

  /** In every run without crashes of client and sandboxes over the barrier, however their steps
      interleave: what the client finds at the n-th device of a chain of pass-through devices
      in round t is what it wrote at the head as many rounds before as the links delay it. */
  lemma PlayedHaveLatency(g: Group, st: Buffers, c: Chain, steps: seq<Step>, t: nat, n: nat, past: nat)
    requires GroupOk(g) && ChainOk(g, c) && ChainPlaced(g, st, c) && GroupShaped(g, st, In(c.hops[0]))
    requires AllForward(c, Run(g, Initial(g, st), In(c.hops[0]), steps).played)
    requires t < |Run(g, Initial(g, st), In(c.hops[0]), steps).played|
    requires n < |c.hops| && past + TotalDelay(g, c, n) == t
    ensures
      var played := Run(g, Initial(g, st), In(c.hops[0]), steps).played;
      && Out(c.hops[n]) in played[t].end.outs
      && played[t].end.outs[Out(c.hops[n])] == played[past].round.input
  {
    var played := Run(g, Initial(g, st), In(c.hops[0]), steps).played;
    var now := RunHasPlayed(g, st, In(c.hops[0]), steps);
    PlayedIsSession(g, st, c, played);
    ChainLatency(Session(g, st, c, Rounds(played)), t, n, past);
    EndIsOutput(g, st, In(c.hops[0]), played, now, t, Out(c.hops[n]));
  }
}
