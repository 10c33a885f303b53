/**
 The group processing barrier as a step machine: the client's audio thread, any number
 of sandbox audio threads, a shared counter and one event per waiting thread.
 */
module Barrier {

  type Id = int

  // std::atomic<uint32_t> wraps at this value.
  const COUNTER_LIMIT: int := 0x1_0000_0000

  /** The two kinds of ipc::local_event that are modelled. */
  datatype Kind =
    | Resettable    // Windows: wait returns while the event is set, then resets it
    | Semaphore     // macOS: wait takes one count

  datatype SandboxPc =
    | Asleep        // in wait
    | Woken         // wait has been signalled and has not reset the event yet
    | Working       // between wait_for_work_begin and fetch_sub: uses the audio buffers
    | Notifying     // its fetch_sub returned 1; about to set all_sandboxes_done
    | Dead

  datatype ClientPc =
    | Owning                  // outside do_sandbox_processing: writes inputs, reads outputs, copies
    | Signalling(next: nat)   // counter stored; the first next sandboxes have been signalled
    | Zeroing                 // in zero_inactive_device_outputs
    | Waiting
    | WokenUp                 // wait has been signalled and has not reset the event yet
    | Checking                // about to load the counter

  datatype Outcome = Done | NotResponding

  datatype Round = Round(targets: seq<Id>, subs: multiset<Id>, lasts: nat, outcome: Outcome)

  datatype State = State(
    client: ClientPc,
    counter: int,
    done: nat,                  // value of all_sandboxes_done
    begin: map<Id, nat>,        // value of each sandbox's work_begin
    pcs: map<Id, SandboxPc>,
    round: seq<Id>,             // the sandboxes this round signals, in order
    subs: multiset<Id>,         // whose fetch_subs this round has seen
    lasts: nat,                 // how many of those fetch_subs returned 1
    rounds: seq<Round>)         // finished rounds

  datatype Step =
    | BeginRound(targets: seq<Id>)
    | SignalNext
    | SignalledAll
    | Zeroed
    | ClientWakes
    | ClientResets
    | ClientChecks
    | Wakes(s: Id)
    | Resets(s: Id)
    | Subtracts(s: Id)
    | SetsDone(s: Id)
    | Starts(s: Id)             // a new sandbox process begins to wait
    | Stops(s: Id, left: nat)   // a waiting audio thread stops; left is what its event is left at
    | Crashes(s: Id)
    | Unblock                   // the client's poll thread calls unblock_self

  const INITIAL := State(Owning, 0, 0, map[], map[], [], multiset{}, 0, [])

  function Set(kind: Kind, value: nat): nat {
    if kind == Resettable then 1 else value + 1
  }

  function Take(kind: Kind, value: nat): nat
    requires value > 0
  {
    if kind == Resettable then value else value - 1
  }

  function Reset(kind: Kind, value: nat): nat {
    if kind == Resettable then 0 else value
  }

  predicate At(st: State, s: Id, pc: SandboxPc) {
    s in st.pcs && st.pcs[s] == pc
  }

  predicate Wf(st: State) {
    && st.pcs.Keys == st.begin.Keys
    && 0 <= st.counter < COUNTER_LIMIT
    && (forall s | s in st.round :: s in st.pcs)
    && (st.client.Signalling? ==> st.client.next <= |st.round|)
  }

  predicate Enabled(st: State, step: Step) {
    match step
    case BeginRound(targets) =>
      st.client == Owning && |targets| < COUNTER_LIMIT && forall s | s in targets :: s in st.pcs
    case SignalNext => st.client.Signalling? && st.client.next < |st.round|
    case SignalledAll => st.client == Signalling(|st.round|)
    case Zeroed => st.client == Zeroing
    case ClientWakes => st.client == Waiting && st.done > 0
    case ClientResets => st.client == WokenUp
    case ClientChecks => st.client == Checking
    case Wakes(s) => At(st, s, Asleep) && s in st.begin && st.begin[s] > 0
    case Resets(s) => At(st, s, Woken) && s in st.begin
    case Subtracts(s) => At(st, s, Working)
    case SetsDone(s) => At(st, s, Notifying)
    case Starts(s) => s !in st.pcs
    case Stops(s, _) => At(st, s, Asleep) || At(st, s, Woken)
    case Crashes(s) => s in st.pcs
    case Unblock => true
  }

  function EndRound(st: State, outcome: Outcome): State {
    st.(client := Owning, round := [], subs := multiset{}, lasts := 0,
        rounds := st.rounds + [Round(st.round, st.subs, st.lasts, outcome)])
  }

  function Next(kind: Kind, st: State, step: Step): (st': State)
    requires Wf(st) && Enabled(st, step)
    ensures Wf(st')
  {
    match step
    case BeginRound(targets) =>
      st.(client := Signalling(0), counter := |targets|, round := targets, subs := multiset{}, lasts := 0)
    case SignalNext =>
      var s := st.round[st.client.next];
      st.(client := Signalling(st.client.next + 1), begin := st.begin[s := Set(kind, st.begin[s])])
    case SignalledAll => st.(client := Zeroing)
    case Zeroed => if |st.round| == 0 then EndRound(st, Done) else st.(client := Waiting)
    case ClientWakes => st.(client := WokenUp, done := Take(kind, st.done))
    case ClientResets => st.(client := Checking, done := Reset(kind, st.done))
    case ClientChecks => EndRound(st, if st.counter > 0 then NotResponding else Done)
    case Wakes(s) => st.(pcs := st.pcs[s := Woken], begin := st.begin[s := Take(kind, st.begin[s])])
    case Resets(s) => st.(pcs := st.pcs[s := Working], begin := st.begin[s := Reset(kind, st.begin[s])])
    case Subtracts(s) =>
      var last := st.counter == 1;
      st.(counter := (st.counter - 1) % COUNTER_LIMIT,
          subs := st.subs + multiset{s},
          lasts := if last then st.lasts + 1 else st.lasts,
          pcs := st.pcs[s := if last then Notifying else Asleep])
    case SetsDone(s) => st.(done := Set(kind, st.done), pcs := st.pcs[s := Asleep])
    case Starts(s) => st.(pcs := st.pcs[s := Asleep], begin := st.begin[s := 0])
    case Stops(s, left) => st.(pcs := st.pcs[s := Dead], begin := st.begin[s := left])
    case Crashes(s) => st.(pcs := st.pcs[s := Dead])
    case Unblock => st.(done := Set(kind, st.done))
  }

  /** Takes the steps one after the other; a step that is not enabled is not taken. */
  function Run(kind: Kind, st: State, steps: seq<Step>): (st': State)
    requires Wf(st)
    ensures Wf(st')
    decreases |steps|
  {
    if steps == [] then st
    else if Enabled(st, steps[0]) then Run(kind, Next(kind, st, steps[0]), steps[1..])
    else Run(kind, st, steps[1..])
  }

  lemma RunOne(kind: Kind, st: State, step: Step)
    requires Wf(st) && Enabled(st, step)
    ensures Run(kind, st, [step]) == Next(kind, st, step)
  {
    assert Run(kind, Next(kind, st, step), []) == Next(kind, st, step);
  }

  lemma {:induction false} RunConcat(kind: Kind, st: State, a: seq<Step>, b: seq<Step>)
    requires Wf(st)
    ensures Run(kind, st, a + b) == Run(kind, Run(kind, st, a), b)
    decreases |a|
  {
    if a == [] {
      assert [] + b == b;
    } else {
      assert (a + b)[1..] == a[1..] + b;
      RunConcat(kind, if Enabled(st, a[0]) then Next(kind, st, a[0]) else st, a[1..], b);
    }
  }

  predicate CrashFree(steps: seq<Step>) {
    forall step | step in steps :: !step.Crashes? && !step.Unblock?
  }

  // ---- sets and multisets ----

  function Elems(ids: seq<Id>): set<Id> {
    set s | s in ids
  }

  lemma {:induction false} SubsetSize<T>(a: set<T>, b: set<T>)
    requires a <= b
    ensures |a| <= |b| && (|a| == |b| ==> a == b)
  {
    if a != {} {
      var x :| x in a;
      SubsetSize(a - {x}, b - {x});
    }
  }

  lemma Pick<T>(s: set<T>) returns (x: T)
    requires s != {}
    ensures x in s
  {
    x :| x in s;
  }

  lemma SubmultisetSize<T>(a: multiset<T>, b: multiset<T>)
    requires a <= b
    ensures |a| <= |b| && |b - a| == |b| - |a| && (|a| == |b| ==> a == b)
  {
    assert b == a + (b - a);
  }

  lemma PrefixIsSubmultiset(ids: seq<Id>, k: nat)
    requires k <= |ids|
    ensures multiset(ids[..k]) <= multiset(ids)
  {
    assert ids == ids[..k] + ids[k..];
  }

  // ---- every signal is answered by at most one fetch_sub ----

  function SignalledCount(st: State): (n: nat)
    requires Wf(st)
    ensures n <= |st.round|
  {
    match st.client
    case Owning => 0
    case Signalling(next) => next
    case _ => |st.round|
  }

  /** The signals sent so far this round. */
  function Signalled(st: State): multiset<Id>
    requires Wf(st)
  {
    multiset(st.round[..SignalledCount(st)])
  }

  /** How many fetch_subs a sandbox may still do without another signal. */
  function Claims(kind: Kind, pc: SandboxPc, begin: nat): nat {
    if pc == Dead then 0
    else begin + if pc == Working || (kind == Semaphore && pc == Woken) then 1 else 0
  }

  /** A resettable event is set or not, and stays set until its waiter resets it. */
  predicate EventOk(kind: Kind, pc: SandboxPc, begin: nat) {
    kind == Resettable && pc != Dead ==> begin <= 1 && (pc == Woken ==> begin == 1)
  }

  predicate Covered(kind: Kind, pc: SandboxPc, begin: nat, done: nat, signals: nat) {
    EventOk(kind, pc, begin) && done + Claims(kind, pc, begin) <= signals
  }

  /** What a sandbox has subtracted and may still subtract does not exceed its signals, whether
      they go to distinct sandboxes or several to one, of which some may be lost. */
  ghost predicate CountInv(kind: Kind, st: State) {
    && Wf(st)
    && (st.client == Owning ==> st.round == [] && st.subs == multiset{})
    && st.counter + |st.subs| == |st.round|
    && st.subs <= Signalled(st)
    && forall s | s in st.pcs :: Covered(kind, st.pcs[s], st.begin[s], st.subs[s], Signalled(st)[s])
  }

  /** The counter is zero exactly when every signal of the round has been answered; then nobody
      has a claim left. */
  lemma ZeroMeansAllAnswered(kind: Kind, st: State)
    requires CountInv(kind, st)
    ensures st.subs <= Signalled(st) <= multiset(st.round)
    ensures st.counter == 0 <==> st.subs == multiset(st.round)
    ensures st.counter == 0 ==> forall s | s in st.pcs :: Claims(kind, st.pcs[s], st.begin[s]) == 0
  {
    PrefixIsSubmultiset(st.round, SignalledCount(st));
    SubmultisetSize(st.subs, multiset(st.round));
    if st.counter == 0 {
      forall s | s in st.pcs
        ensures Claims(kind, st.pcs[s], st.begin[s]) == 0
      {
        assert Covered(kind, st.pcs[s], st.begin[s], st.subs[s], Signalled(st)[s]);
      }
    }
  }

  /** A sandbox at work is owed a count, so its fetch_sub never wraps. */
  lemma WorkIsCounted(kind: Kind, st: State, s: Id)
    requires CountInv(kind, st) && At(st, s, Working)
    ensures st.counter >= 1 && st.client != Owning && st.subs[s] < Signalled(st)[s]
  {
    ZeroMeansAllAnswered(kind, st);
    assert Covered(kind, st.pcs[s], st.begin[s], st.subs[s], Signalled(st)[s]);
  }

  lemma SubtractKeepsCountInv(kind: Kind, st: State, s: Id)
    requires CountInv(kind, st) && At(st, s, Working)
    ensures CountInv(kind, Next(kind, st, Subtracts(s)))
  {
    var st' := Next(kind, st, Subtracts(s));
    WorkIsCounted(kind, st, s);
    assert Signalled(st') == Signalled(st);
    forall x | x in st'.pcs
      ensures Covered(kind, st'.pcs[x], st'.begin[x], st'.subs[x], Signalled(st')[x])
    {
      assert Covered(kind, st.pcs[x], st.begin[x], st.subs[x], Signalled(st)[x]);
    }
  }

  lemma CoveredAt(kind: Kind, st: State, s: Id)
    requires CountInv(kind, st) && s in st.pcs
    ensures Covered(kind, st.pcs[s], st.begin[s], st.subs[s], Signalled(st)[s])
  {
  }

  /** A sandbox that stays covered keeps the invariant if all others are left alone. */
  lemma OneChanges(kind: Kind, st: State, s: Id, pc: SandboxPc, begin: nat, done: nat)
    requires CountInv(kind, st) && Covered(kind, pc, begin, st.subs[s], Signalled(st)[s])
    ensures CountInv(kind, st.(pcs := st.pcs[s := pc], begin := st.begin[s := begin], done := done))
  {
    var st' := st.(pcs := st.pcs[s := pc], begin := st.begin[s := begin], done := done);
    assert Signalled(st') == Signalled(st);
    forall x | x in st'.pcs && x != s
      ensures Covered(kind, st'.pcs[x], st'.begin[x], st'.subs[x], Signalled(st')[x])
    {
      CoveredAt(kind, st, x);
    }
  }

  predicate SandboxStep(step: Step) {
    step.Wakes? || step.Resets? || step.SetsDone? || step.Starts? || step.Stops? || step.Crashes?
  }

  lemma StaysCovered(kind: Kind, st: State, step: Step)
    requires CountInv(kind, st) && Enabled(st, step) && SandboxStep(step)
    ensures var st' := Next(kind, st, step);
      Covered(kind, st'.pcs[step.s], st'.begin[step.s], st.subs[step.s], Signalled(st)[step.s])
  {
    if step.s in st.pcs {
      CoveredAt(kind, st, step.s);
    }
  }

  /** A step of one sandbox, or of its process, that does not touch the counter. */
  lemma SandboxStepKeepsCountInv(kind: Kind, st: State, step: Step)
    requires CountInv(kind, st) && Enabled(st, step) && SandboxStep(step)
    ensures CountInv(kind, Next(kind, st, step))
  {
    var s, st' := step.s, Next(kind, st, step);
    StaysCovered(kind, st, step);
    OneChanges(kind, st, s, st'.pcs[s], st'.begin[s], st'.done);
    assert st'.pcs == st.pcs[s := st'.pcs[s]] && st'.begin == st.begin[s := st'.begin[s]];
  }

  lemma SignalKeepsCountInv(kind: Kind, st: State)
    requires CountInv(kind, st) && Enabled(st, SignalNext)
    ensures CountInv(kind, Next(kind, st, SignalNext))
  {
    var st', n := Next(kind, st, SignalNext), st.client.next;
    assert st.round[..n + 1] == st.round[..n] + [st.round[n]];
    assert Signalled(st') == Signalled(st) + multiset{st.round[n]};
    forall x | x in st'.pcs
      ensures Covered(kind, st'.pcs[x], st'.begin[x], st'.subs[x], Signalled(st')[x])
    {
      assert Covered(kind, st.pcs[x], st.begin[x], st.subs[x], Signalled(st)[x]);
    }
  }

  /** A step of the client within a round. */
  lemma ClientStepKeepsCountInv(kind: Kind, st: State, step: Step)
    requires CountInv(kind, st) && Enabled(st, step)
    requires step.SignalledAll? || step.Zeroed? || step.ClientWakes? || step.ClientResets? || step.Unblock?
    requires Next(kind, st, step).client == Owning ==> st.client == Owning
    ensures CountInv(kind, Next(kind, st, step))
  {
    var st' := Next(kind, st, step);
    assert Signalled(st') == Signalled(st);
    forall x | x in st'.pcs
      ensures Covered(kind, st'.pcs[x], st'.begin[x], st'.subs[x], Signalled(st')[x])
    {
      CoveredAt(kind, st, x);
    }
  }

  /** A step that ends the round with the counter at zero. */
  lemma EndKeepsCountInv(kind: Kind, st: State, step: Step)
    requires CountInv(kind, st) && Enabled(st, step) && (step.Zeroed? || step.ClientChecks?) && st.counter == 0
    requires Next(kind, st, step).client == Owning
    ensures CountInv(kind, Next(kind, st, step))
  {
    var st' := Next(kind, st, step);
    ZeroMeansAllAnswered(kind, st);
    assert st'.round[..0] == [];
    forall x | x in st'.pcs
      ensures Covered(kind, st'.pcs[x], st'.begin[x], st'.subs[x], Signalled(st')[x])
    {
      CoveredAt(kind, st, x);
    }
  }

  lemma BeginKeepsCountInv(kind: Kind, st: State, targets: seq<Id>)
    requires CountInv(kind, st) && Enabled(st, BeginRound(targets))
    ensures CountInv(kind, Next(kind, st, BeginRound(targets)))
  {
    assert targets[..0] == st.round;
  }

  lemma NextKeepsCountInv(kind: Kind, st: State, step: Step)
    requires CountInv(kind, st) && Enabled(st, step)
    requires step.ClientChecks? ==> st.counter == 0
    ensures CountInv(kind, Next(kind, st, step))
  {
    match step
    case BeginRound(targets) => BeginKeepsCountInv(kind, st, targets);
    case SignalNext => SignalKeepsCountInv(kind, st);
    case SignalledAll => ClientStepKeepsCountInv(kind, st, step);
    case Zeroed =>
      if st.round == [] {
        EndKeepsCountInv(kind, st, step);
      } else {
        ClientStepKeepsCountInv(kind, st, step);
      }
    case ClientWakes => ClientStepKeepsCountInv(kind, st, step);
    case ClientResets => ClientStepKeepsCountInv(kind, st, step);
    case ClientChecks => EndKeepsCountInv(kind, st, step);
    case Unblock => ClientStepKeepsCountInv(kind, st, step);
    case Subtracts(s) => SubtractKeepsCountInv(kind, st, s);
    case _ => SandboxStepKeepsCountInv(kind, st, step);
  }

  // ---- with crashes, up to the first NotResponding ----

  /** Done was true: every signal of the round had been answered by the sandbox it went to. */
  predicate RoundSound(r: Round) {
    r.outcome == Done ==> r.subs == multiset(r.targets)
  }

  predicate AllDone(rounds: seq<Round>) {
    forall r | r in rounds :: r.outcome == Done
  }

  /** Every round before which all were done is sound. */
  predicate SoundUntilGivenUp(rounds: seq<Round>) {
    rounds == [] ||
    (var init := rounds[..|rounds| - 1];
      SoundUntilGivenUp(init) && (AllDone(init) ==> RoundSound(rounds[|rounds| - 1])))
  }

  lemma {:induction false} SoundUntilGivenUpAt(rounds: seq<Round>, i: nat)
    requires SoundUntilGivenUp(rounds) && i < |rounds| && AllDone(rounds[..i])
    ensures RoundSound(rounds[i])
  {
    if i < |rounds| - 1 {
      assert rounds[..|rounds| - 1][..i] == rounds[..i];
      SoundUntilGivenUpAt(rounds[..|rounds| - 1], i);
    }
  }

  ghost predicate Inv(kind: Kind, st: State) {
    && Wf(st)
    && SoundUntilGivenUp(st.rounds)
    && (AllDone(st.rounds) ==> CountInv(kind, st))
  }

  lemma EndedRoundIsSound(kind: Kind, st: State, step: Step)
    requires CountInv(kind, st) && Enabled(st, step)
    ensures var rounds := Next(kind, st, step).rounds;
      rounds == st.rounds ||
      (|rounds| == |st.rounds| + 1 && rounds[..|st.rounds|] == st.rounds && RoundSound(rounds[|st.rounds|]))
  {
    ZeroMeansAllAnswered(kind, st);
  }

  lemma NextKeepsInv(kind: Kind, st: State, step: Step)
    requires Inv(kind, st) && Enabled(st, step)
    ensures Inv(kind, Next(kind, st, step))
  {
    var st' := Next(kind, st, step);
    if AllDone(st'.rounds) {
      assert forall r | r in st.rounds :: r in st'.rounds;
      if step.ClientChecks? {
        assert st'.rounds[|st.rounds|] in st'.rounds;
      }
      NextKeepsCountInv(kind, st, step);
    }
    if st'.rounds != st.rounds && AllDone(st.rounds) {
      EndedRoundIsSound(kind, st, step);
    }
  }

  lemma {:induction false} RunKeepsInv(kind: Kind, st: State, steps: seq<Step>)
    requires Inv(kind, st)
    ensures Inv(kind, Run(kind, st, steps))
    decreases |steps|
  {
    if steps != [] {
      if Enabled(st, steps[0]) {
        NextKeepsInv(kind, st, steps[0]);
        RunKeepsInv(kind, Next(kind, st, steps[0]), steps[1..]);
      } else {
        RunKeepsInv(kind, st, steps[1..]);
      }
    }
  }

  /** With either kind of event, whatever sandboxes the rounds signal and however often, and with
      crashes, stopped threads, unblock_self and stale events: every Done before the first
      NotResponding is true of all the signals of its round. */
  lemma DoneIsTrue(kind: Kind, steps: seq<Step>, i: nat)
    ensures var st := Run(kind, INITIAL, steps);
      i < |st.rounds| && AllDone(st.rounds[..i]) ==> RoundSound(st.rounds[i])
  {
    RunKeepsInv(kind, INITIAL, steps);
    var st := Run(kind, INITIAL, steps);
    if i < |st.rounds| && AllDone(st.rounds[..i]) {
      SoundUntilGivenUpAt(st.rounds, i);
    }
  }

  /** Until a round is given up, no sandbox is between waking and its fetch_sub while the client
      owns the buffers, and none has been signalled. */
  lemma ClientOwnsAlone(kind: Kind, steps: seq<Step>)
    ensures var st := Run(kind, INITIAL, steps);
      AllDone(st.rounds) && st.client == Owning ==>
        forall s | s in st.pcs && st.pcs[s] != Dead :: st.pcs[s] != Woken && st.pcs[s] != Working && st.begin[s] == 0
  {
    RunKeepsInv(kind, INITIAL, steps);
    var st := Run(kind, INITIAL, steps);
    if AllDone(st.rounds) && st.client == Owning {
      ZeroMeansAllAnswered(kind, st);
      assert forall s | s in st.pcs :: Covered(kind, st.pcs[s], st.begin[s], st.subs[s], Signalled(st)[s]);
    }
  }
}
