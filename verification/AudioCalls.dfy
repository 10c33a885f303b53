/**
 Calls of audio_process, one after the other: what the client writes and what it reads in a run
 of the machine, whatever the machine keeps for its proofs.
 */
module AudioCalls {
  import B = Barrier
  import P = BarrierProgress
  import opened Order
  import opened AudioPass
  import opened Latency
  import opened RoundHistory
  import opened AudioRounds
  import opened AudioProgress

  /** What one call brings: the block to write, and what the devices compute in it. */
  datatype Call = Call(input: Block, f: Plugins)

  /** What the client writes in a run, call by call. */
  function Writes(g: Group, m: Machine, head: Port, steps: seq<Step>): seq<Call>
    requires GroupOk(g) && Wf(g, m)
    decreases |steps|
  {
    if steps == [] then []
    else if !Enabled(g, m, head, steps[0]) then Writes(g, m, head, steps[1..])
    else
      (if steps[0].Write? then [Call(steps[0].input, steps[0].f)] else [])
      + Writes(g, Next(g, m, head, steps[0]), head, steps[1..])
  }

  /** The buffers in which it finds its outputs, call by call. */
  function Reads(g: Group, m: Machine, head: Port, steps: seq<Step>): seq<Buffers>
    requires GroupOk(g) && Wf(g, m)
    decreases |steps|
  {
    if steps == [] then []
    else if !Enabled(g, m, head, steps[0]) then Reads(g, m, head, steps[1..])
    else
      (if steps[0].Read? then [m.buffers] else []) + Reads(g, Next(g, m, head, steps[0]), head, steps[1..])
  }

  // ---- the rounds played are the calls ----

  function CallsOf(played: seq<Played>): (calls: seq<Call>)
    ensures |calls| == |played|
    ensures forall t :: 0 <= t < |calls| ==> calls[t] == Call(played[t].round.input, played[t].round.f)
  {
    seq(|played|, t requires 0 <= t < |played| => Call(played[t].round.input, played[t].round.f))
  }

  function EndsOf(played: seq<Played>): (ends: seq<Buffers>)
    ensures |ends| == |played| && forall t :: 0 <= t < |ends| ==> ends[t] == played[t].end
  {
    seq(|played|, t requires 0 <= t < |played| => played[t].end)
  }

  /** The call that has written and not read yet. */
  function Pending(m: Machine): seq<Call> {
    if m.phase == Ready || m.phase == Busy then [Call(m.round.input, m.round.f)] else []
  }

  /** From m to m' the machine has noted what the client has written and read. */
  ghost predicate Notes(m: Machine, m': Machine, written: seq<Call>, read: seq<Buffers>) {
    && CallsOf(m'.played) + Pending(m') == CallsOf(m.played) + Pending(m) + written
    && EndsOf(m'.played) == EndsOf(m.played) + read
  }

  lemma NotesTwice(a: Machine, b: Machine, c: Machine, w1: seq<Call>, r1: seq<Buffers>, w2: seq<Call>, r2: seq<Buffers>)
    requires Notes(a, b, w1, r1) && Notes(b, c, w2, r2)
    ensures Notes(a, c, w1 + w2, r1 + r2)
  {
    assert CallsOf(a.played) + Pending(a) + (w1 + w2) == CallsOf(a.played) + Pending(a) + w1 + w2;
    assert EndsOf(a.played) + (r1 + r2) == EndsOf(a.played) + r1 + r2;
  }

  lemma ReadCalls(g: Group, m: Machine, head: Port)
    requires GroupOk(g) && Wf(g, m) && Enabled(g, m, head, Read)
    ensures var m' := Next(g, m, head, Read);
      && CallsOf(m'.played) == CallsOf(m.played) + Pending(m) && Pending(m') == []
      && EndsOf(m'.played) == EndsOf(m.played) + [m.buffers]
  {
  }

  lemma StepCalls(g: Group, m: Machine, head: Port, step: Step)
    requires GroupOk(g) && Wf(g, m) && Enabled(g, m, head, step)
    ensures Notes(m, Next(g, m, head, step),
                  if step.Write? then [Call(step.input, step.f)] else [], if step.Read? then [m.buffers] else [])
  {
    if step.Read? {
      ReadCalls(g, m, head);
    }
  }

  lemma {:induction false} RunCalls(g: Group, m: Machine, head: Port, steps: seq<Step>)
    requires GroupOk(g) && Wf(g, m)
    ensures Notes(m, Run(g, m, head, steps), Writes(g, m, head, steps), Reads(g, m, head, steps))
    decreases |steps|
  {
    if steps != [] {
      var step := steps[0];
      if Enabled(g, m, head, step) {
        var next := Next(g, m, head, step);
        StepCalls(g, m, head, step);
        RunCalls(g, next, head, steps[1..]);
        NotesTwice(m, next, Run(g, next, head, steps[1..]),
                   if step.Write? then [Call(step.input, step.f)] else [], if step.Read? then [m.buffers] else [],
                   Writes(g, next, head, steps[1..]), Reads(g, next, head, steps[1..]));
      } else {
        RunCalls(g, m, head, steps[1..]);
      }
    }
  }

  lemma PlayedAreCalls(g: Group, st: Buffers, head: Port, steps: seq<Step>)
    requires GroupOk(g) && GroupShaped(g, st, head)
    ensures var m := Run(g, Initial(g, st), head, steps);
      && CallsOf(m.played) + Pending(m) == Writes(g, Initial(g, st), head, steps)
      && EndsOf(m.played) == Reads(g, Initial(g, st), head, steps)
  {
    RunCalls(g, Initial(g, st), head, steps);
    assert CallsOf(Initial(g, st).played) == [] && EndsOf(Initial(g, st).played) == [];
  }

  /** The devices of the chain pass their input through in every call of the run. */
  ghost predicate ForwardsThroughout(c: Chain, calls: seq<Call>) {
    forall t :: 0 <= t < |calls| ==> Forwards(c, calls[t].f)
  }

  /** In every run of client and sandboxes over the barrier, however their steps interleave: what
      the client reads at the n-th device of a chain in its t-th call is what it wrote at the head
      as many calls before as the links delay it. */
  lemma RunsHaveLatency(g: Group, st: Buffers, c: Chain, steps: seq<Step>, t: nat, n: nat, past: nat)
    requires GroupOk(g) && ChainOk(g, c) && ChainPlaced(g, st, c) && GroupShaped(g, st, In(c.hops[0]))
    requires ForwardsThroughout(c, Writes(g, Initial(g, st), In(c.hops[0]), steps))
    requires t < |Reads(g, Initial(g, st), In(c.hops[0]), steps)|
    requires n < |c.hops| && past + TotalDelay(g, c, n) == t
    ensures
      var writes := Writes(g, Initial(g, st), In(c.hops[0]), steps);
      var found := Reads(g, Initial(g, st), In(c.hops[0]), steps);
      && past < |writes| && Out(c.hops[n]) in found[t].outs && found[t].outs[Out(c.hops[n])] == writes[past].input
  {
    var head := In(c.hops[0]);
    var played := Run(g, Initial(g, st), head, steps).played;
    var writes := Writes(g, Initial(g, st), head, steps);
    PlayedAreCalls(g, st, head, steps);
    forall i | 0 <= i < |played|
      ensures Forwards(c, played[i].round.f) && writes[i].input == played[i].round.input
    {
      assert writes[i] == CallsOf(played)[i];
    }
    assert past <= t;
    PlayedHaveLatency(g, st, c, steps, t, n, past);
    assert EndsOf(played)[t] == played[t].end;
  }

  // ---- every sequence of calls can be played ----

  lemma {:induction false} RunConcat(g: Group, m: Machine, head: Port, a: seq<Step>, b: seq<Step>)
    requires GroupOk(g) && Wf(g, m)
    ensures var m1 := Run(g, m, head, a);
      && Run(g, m, head, a + b) == Run(g, m1, head, b)
      && Writes(g, m, head, a + b) == Writes(g, m, head, a) + Writes(g, m1, head, b)
      && Reads(g, m, head, a + b) == Reads(g, m, head, a) + Reads(g, m1, head, b)
    decreases |a|
  {
    if a == [] {
      assert a + b == b;
    } else {
      assert (a + b)[1..] == a[1..] + b;
      RunConcat(g, if Enabled(g, m, head, a[0]) then Next(g, m, head, a[0]) else m, head, a[1..], b);
    }
  }

  /** The client is outside audio_process, and every sandbox of the group has started. */
  ghost predicate BetweenCalls(g: Group, m: Machine, head: Port) {
    && GroupOk(g) && Wf(g, m) && ThreadsOk(g, m) && m.phase == Idle && head in m.buffers.ins
    && forall s :: 0 <= s < |g.orders| ==> s in m.barrier.pcs
  }

  /** From m the steps lead to m', and the client writes and reads this on the way. */
  ghost predicate Goes(g: Group, m: Machine, head: Port, steps: seq<Step>, m': Machine, w: seq<Call>, r: seq<Buffers>)
    requires GroupOk(g) && Wf(g, m)
  {
    Run(g, m, head, steps) == m' && Writes(g, m, head, steps) == w && Reads(g, m, head, steps) == r
  }

  lemma GoesOne(g: Group, m: Machine, head: Port, step: Step)
    requires GroupOk(g) && Wf(g, m) && Enabled(g, m, head, step)
    ensures Goes(g, m, head, [step], Next(g, m, head, step),
                 if step.Write? then [Call(step.input, step.f)] else [], if step.Read? then [m.buffers] else [])
  {
    var next := Next(g, m, head, step);
    assert [step][1..] == [];
    assert Run(g, next, head, []) == next && Writes(g, next, head, []) == [] && Reads(g, next, head, []) == [];
  }

  lemma GoesOn(g: Group, m: Machine, head: Port, a: seq<Step>, m1: Machine, w1: seq<Call>, r1: seq<Buffers>,
               b: seq<Step>, m2: Machine, w2: seq<Call>, r2: seq<Buffers>)
    requires GroupOk(g) && Wf(g, m) && Wf(g, m1)
    requires Goes(g, m, head, a, m1, w1, r1) && Goes(g, m1, head, b, m2, w2, r2)
    ensures Goes(g, m, head, a + b, m2, w1 + w2, r1 + r2)
  {
    RunConcat(g, m, head, a, b);
  }

  predicate SameSandboxes(m: Machine, m': Machine) {
    m'.barrier.pcs.Keys == m.barrier.pcs.Keys && m'.buffers.ins.Keys == m.buffers.ins.Keys
  }

  lemma RoundStepKeepsSandboxes(g: Group, m: Machine, head: Port, step: Step)
    requires GroupOk(g) && Wf(g, m) && Enabled(g, m, head, step) && RoundStep(step)
    ensures SameSandboxes(m, Next(g, m, head, step))
    ensures m.phase == Busy ==> Next(g, m, head, step).phase == Busy
  {
  }

  /** A round that has begun can be brought to where the client reads. */
  lemma {:induction false} FinishRound(g: Group, m: Machine, head: Port) returns (steps: seq<Step>, m': Machine)
    requires GroupOk(g) && Wf(g, m) && ThreadsOk(g, m) && m.phase == Busy
    ensures Wf(g, m') && ThreadsOk(g, m') && Enabled(g, m', head, Read) && SameSandboxes(m, m')
    ensures Goes(g, m, head, steps, m', [], [])
    decreases StepsLeft(g, m)
  {
    ReadsWhenNoneLeft(g, m, head);
    if StepsLeft(g, m) == 0 {
      steps, m' := [], m;
    } else {
      var step :| RoundStep(step) && Enabled(g, m, head, step);
      var next := Next(g, m, head, step);
      NextTakesOne(g, m, head, step);
      NextKeepsThreads(g, m, head, step);
      RoundStepKeepsSandboxes(g, m, head, step);
      GoesOne(g, m, head, step);
      var rest;
      rest, m' := FinishRound(g, next, head);
      steps := [step] + rest;
      GoesOn(g, m, head, [step], next, [], [], rest, m', [], []);
    }
  }

  /** Once it has read, it can make its copies and return. */
  lemma {:induction false} FinishCopies(g: Group, m: Machine, head: Port) returns (steps: seq<Step>, m': Machine)
    requires GroupOk(g) && Wf(g, m) && ThreadsOk(g, m) && m.phase.Copying?
    ensures Wf(g, m') && ThreadsOk(g, m') && m'.phase == Idle && SameSandboxes(m, m')
    ensures Goes(g, m, head, steps, m', [], [])
    decreases |g.cross| - m.phase.i
  {
    var step := if m.phase.i < |g.cross| then Copy else Return;
    var next := Next(g, m, head, step);
    NextKeepsThreads(g, m, head, step);
    GoesOne(g, m, head, step);
    if step == Return {
      steps, m' := [step], next;
    } else {
      var rest;
      rest, m' := FinishCopies(g, next, head);
      steps := [step] + rest;
      GoesOn(g, m, head, [step], next, [], [], rest, m', [], []);
    }
  }

  function All(n: nat): (targets: seq<B.Id>)
    ensures |targets| == n && forall s :: 0 <= s < n ==> targets[s] == s
  {
    seq(n, s => s)
  }

  lemma AllAreSignalled(g: Group)
    ensures SignalsAll(g, All(|g.orders|))
  {
    forall s | 0 <= s < |g.orders|
      ensures s in All(|g.orders|)
    {
      assert All(|g.orders|)[s] == s;
    }
  }

  /** The client can write its input and enter the barrier. */
  lemma BeginCall(g: Group, m: Machine, head: Port, call: Call) returns (steps: seq<Step>, m': Machine)
    requires BetweenCalls(g, m, head) && |g.orders| < B.COUNTER_LIMIT
    ensures Wf(g, m') && ThreadsOk(g, m') && m'.phase == Busy && SameSandboxes(m, m')
    ensures Goes(g, m, head, steps, m', [call], [])
  {
    var write := Write(call.input, call.f);
    var begin := Sync(B.BeginRound(All(|g.orders|)));
    var m1 := Next(g, m, head, write);
    NextKeepsThreads(g, m, head, write);
    GoesOne(g, m, head, write);
    AllAreSignalled(g);
    assert Enabled(g, m1, head, begin);
    m' := Next(g, m1, head, begin);
    NextKeepsThreads(g, m1, head, begin);
    GoesOne(g, m1, head, begin);
    steps := [write] + [begin];
    GoesOn(g, m, head, [write], m1, [call], [], [begin], m', [], []);
  }

  /** A call of audio_process can be played to its end. */
  lemma PlayCall(g: Group, m: Machine, head: Port, call: Call) returns (steps: seq<Step>, m': Machine, end: Buffers)
    requires BetweenCalls(g, m, head) && |g.orders| < B.COUNTER_LIMIT
    ensures BetweenCalls(g, m', head) && Goes(g, m, head, steps, m', [call], [end])
  {
    var a, m1 := BeginCall(g, m, head, call);
    var b, m2 := FinishRound(g, m1, head);
    var m3 := Next(g, m2, head, Read);
    NextKeepsThreads(g, m2, head, Read);
    GoesOne(g, m2, head, Read);
    var d, m4 := FinishCopies(g, m3, head);
    GoesOn(g, m, head, a, m1, [call], [], b, m2, [], []);
    GoesOn(g, m, head, a + b, m2, [call], [], [Read], m3, [], [m2.buffers]);
    GoesOn(g, m, head, a + b + [Read], m3, [call], [m2.buffers], d, m4, [], []);
    steps, m', end := a + b + [Read] + d, m4, m2.buffers;
  }

  lemma {:induction false} PlayCalls(g: Group, m: Machine, head: Port, calls: seq<Call>)
    returns (steps: seq<Step>, m': Machine, ends: seq<Buffers>)
    requires BetweenCalls(g, m, head) && |g.orders| < B.COUNTER_LIMIT
    ensures BetweenCalls(g, m', head) && |ends| == |calls| && Goes(g, m, head, steps, m', calls, ends)
    decreases |calls|
  {
    if calls == [] {
      steps, m', ends := [], m, [];
    } else {
      var a, m1, end := PlayCall(g, m, head, calls[0]);
      var b;
      b, m', ends := PlayCalls(g, m1, head, calls[1..]);
      GoesOn(g, m, head, a, m1, [calls[0]], [end], b, m', calls[1..], ends);
      assert [calls[0]] + calls[1..] == calls;
      steps, ends := a + b, [end] + ends;
    }
  }

  /** The client has not called yet, and just the first k sandboxes have started. */
  ghost predicate Started(g: Group, m: Machine, head: Port, k: nat) {
    && GroupOk(g) && Wf(g, m) && ThreadsOk(g, m) && m.phase == Idle && head in m.buffers.ins
    && forall s :: s in m.barrier.pcs <==> 0 <= s < k
  }

  lemma StartChanges(g: Group, m: Machine, head: Port, k: nat)
    requires GroupOk(g) && Wf(g, m) && k !in m.barrier.pcs
    ensures Enabled(g, m, head, Sync(B.Starts(k)))
    ensures var m' := Next(g, m, head, Sync(B.Starts(k)));
      m'.phase == m.phase && m'.buffers == m.buffers && m'.barrier.pcs.Keys == m.barrier.pcs.Keys + {k}
  {
  }

  lemma OneMoreStarted(g: Group, m: Machine, head: Port, k: nat)
    requires Started(g, m, head, k) && Enabled(g, m, head, Sync(B.Starts(k)))
    ensures Started(g, Next(g, m, head, Sync(B.Starts(k))), head, k + 1)
  {
    StartChanges(g, m, head, k);
    NextKeepsThreads(g, m, head, Sync(B.Starts(k)));
    var pcs := Next(g, m, head, Sync(B.Starts(k))).barrier.pcs;
    assert forall s :: s in pcs <==> s in pcs.Keys;
  }

  lemma StartOne(g: Group, m: Machine, head: Port, k: nat) returns (m': Machine)
    requires Started(g, m, head, k)
    ensures Started(g, m', head, k + 1) && Goes(g, m, head, [Sync(B.Starts(k))], m', [], [])
  {
    StartChanges(g, m, head, k);
    OneMoreStarted(g, m, head, k);
    GoesOne(g, m, head, Sync(B.Starts(k)));
    m' := Next(g, m, head, Sync(B.Starts(k)));
  }

  /** The others can start one after the other. */
  lemma {:induction false} StartOthers(g: Group, m: Machine, head: Port, k: nat, n: nat)
    returns (steps: seq<Step>, m': Machine)
    requires Started(g, m, head, k) && k <= n
    ensures Started(g, m', head, n) && Goes(g, m, head, steps, m', [], [])
    decreases n - k
  {
    if k == n {
      steps, m' := [], m;
    } else {
      var m1 := StartOne(g, m, head, k);
      var rest;
      rest, m' := StartOthers(g, m1, head, k + 1, n);
      steps := [Sync(B.Starts(k))] + rest;
      GoesOn(g, m, head, [Sync(B.Starts(k))], m1, [], [], rest, m', [], []);
    }
  }

  lemma NoneStarted(g: Group, st: Buffers, head: Port)
    requires GroupOk(g) && GroupShaped(g, st, head)
    ensures Started(g, Initial(g, st), head, 0)
  {
    InitialInv(g, st, head);
  }

  /** For every sequence of calls, whatever their blocks and the devices, there is a run in which
      the client makes them all and reads its outputs in each. */
  lemma EveryCallCanBePlayed(g: Group, st: Buffers, head: Port, calls: seq<Call>) returns (steps: seq<Step>)
    requires GroupOk(g) && GroupShaped(g, st, head) && |g.orders| < B.COUNTER_LIMIT
    ensures Writes(g, Initial(g, st), head, steps) == calls
    ensures |Reads(g, Initial(g, st), head, steps)| == |calls|
  {
    NoneStarted(g, st, head);
    var a, m := StartOthers(g, Initial(g, st), head, 0, |g.orders|);
    var b, m', ends := PlayCalls(g, m, head, calls);
    steps := a + b;
    GoesOn(g, Initial(g, st), head, a, m, [], [], b, m', calls, ends);
  }
}
