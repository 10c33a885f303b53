/**
 The allocator of callback slots: values are put into a growing buffer and taken out again
 by the index they were given.
 */
module SlotBuffers {
  import opened Wrappers

  datatype Slots<T> = Slots(buffer: seq<T>, free: seq<nat>)

  const INITIAL_CAPACITY: nat := 32
  const STRANGE_CAPACITY: nat := 1024

  /** n numbers, the largest first, ending in base: what std::iota makes of a reversed range. */
  function Descending(base: nat, n: nat): (s: seq<nat>)
    ensures |s| == n && forall j :: 0 <= j < n ==> s[j] == base + n - 1 - j
  {
    seq(n, j requires 0 <= j < n => base + n - 1 - j)
  }

  function Blanks<T>(blank: T, n: nat): (s: seq<T>)
    ensures |s| == n && forall j :: 0 <= j < n ==> s[j] == blank
  {
    seq(n, _ => blank)
  }

  /** The buffer gets 32 slots, but the list of free indices only the one element 32, which
      is then overwritten with 0. */
  function Initial<T>(blank: T): Slots<T> {
    Slots(Blanks(blank, INITIAL_CAPACITY), [0])
  }

  /** What the object has to be like for its vectors to be indexed within bounds. */
  predicate Safe<T>(s: Slots<T>) {
    |s.buffer| > 0 && forall k :: 0 <= k < |s.free| ==> s.free[k] < |s.buffer|
  }

  function Grown<T>(s: Slots<T>, blank: T): Slots<T> {
    Slots(s.buffer + Blanks(blank, |s.buffer|), Descending(|s.buffer|, |s.buffer|))
  }

  function Roomy<T>(s: Slots<T>, blank: T): (r: Slots<T>)
    requires Safe(s)
    ensures Safe(r)
  {
    if s.free == [] then Grown(s, blank) else s
  }

  function NextIndex<T>(s: Slots<T>, blank: T): (index: nat)
    requires Safe(s)
    ensures index in Roomy(s, blank).free && index < |Roomy(s, blank).buffer|
  {
    var r := Roomy(s, blank);
    r.free[|r.free| - 1]
  }

  function AfterPut<T>(s: Slots<T>, blank: T, value: T): (s': Slots<T>)
    requires Safe(s)
    ensures Safe(s')
  {
    var r, index := Roomy(s, blank), NextIndex(s, blank);
    Slots(r.buffer[index := value], r.free[..|r.free| - 1])
  }

  function AfterTake<T>(s: Slots<T>, index: nat): Slots<T> {
    s.(free := s.free + [index])
  }

  class SlotBuffer<T> {
    const blank: T
    var buffer: seq<T>
    var freeIndices: seq<nat>

    function State(): Slots<T>
      reads this
    {
      Slots(buffer, freeIndices)
    }

    constructor (blank: T)
      ensures this.blank == blank && State() == Initial(blank)
    {
      this.blank := blank;
      buffer := Blanks(blank, INITIAL_CAPACITY);
      freeIndices := Descending(0, 1);
      new;
      assert freeIndices == [0];
    }

    method AddCapacity()
      requires freeIndices == []
      modifies this
      ensures State() == Grown(old(State()), blank)
      ensures |buffer| == 2 * old(|buffer|) && buffer[..old(|buffer|)] == old(buffer)
      ensures |freeIndices| == old(|buffer|)
      ensures forall j :: 0 <= j < |freeIndices| ==> freeIndices[j] == |buffer| - 1 - j
    {
      var oldCapacity := |buffer|;
      buffer := buffer + Blanks(blank, oldCapacity);
      freeIndices := Descending(oldCapacity, oldCapacity);
    }

    method Put(value: T) returns (index: nat)
      requires Safe(State())
      modifies this
      ensures index == NextIndex(old(State()), blank)
      ensures State() == AfterPut(old(State()), blank, value)
      ensures index == if old(freeIndices) == [] then old(|buffer|) else old(freeIndices)[|old(freeIndices)| - 1]
      ensures index < |buffer| && buffer[index] == value
      ensures forall k :: 0 <= k < old(|buffer|) && k != index ==> k < |buffer| && buffer[k] == old(buffer)[k]
    {
      if freeIndices == [] {
        AddCapacity();
      }
      assert State() == Roomy(old(State()), blank);
      assert freeIndices[|freeIndices| - 1] == NextIndex(old(State()), blank);
      index := freeIndices[|freeIndices| - 1];
      freeIndices := freeIndices[..|freeIndices| - 1];
      buffer := buffer[index := value];
    }

    method Take(index: nat) returns (value: T)
      requires index < |buffer|
      modifies this
      ensures value == old(buffer)[index]
      ensures State() == AfterTake(old(State()), index)
    {
      value := buffer[index];
      freeIndices := freeIndices + [index];
    }
  }

  // ---- the map that the slots stand for ----

  predicate Usable(i: nat, capacity: nat) {
    i == 0 || INITIAL_CAPACITY <= i < capacity
  }

  predicate Distinct(s: seq<nat>) {
    forall i, j :: 0 <= i < j < |s| ==> s[i] != s[j]
  }

  function Pow2(k: nat): nat {
    if k == 0 then 1 else 2 * Pow2(k - 1)
  }

  /** out maps the indices that have been issued and not taken back to their values: every
      usable index is either free, once, or issued, and holds its value. */
  ghost predicate Inv<T>(s: Slots<T>, out: map<nat, T>) {
    && (exists k: nat :: |s.buffer| == INITIAL_CAPACITY * Pow2(k))
    && |s.buffer| >= INITIAL_CAPACITY
    && Distinct(s.free)
    && (forall i: nat :: Usable(i, |s.buffer|) <==> i in s.free || i in out)
    && (forall i: nat | i in out :: i !in s.free)
    && (forall i: nat | i in out :: i < |s.buffer| && s.buffer[i] == out[i])
  }

  lemma InitialInv<T>(blank: T)
    ensures Inv(Initial(blank), map[])
  {
    assert INITIAL_CAPACITY == INITIAL_CAPACITY * Pow2(0);
  }

  lemma GrownInv<T>(s: Slots<T>, blank: T, out: map<nat, T>)
    requires Inv(s, out) && s.free == []
    ensures Inv(Grown(s, blank), out)
  {
    var g, c := Grown(s, blank), |s.buffer|;
    var k: nat :| |s.buffer| == INITIAL_CAPACITY * Pow2(k);
    assert |g.buffer| == INITIAL_CAPACITY * Pow2(k + 1);
    forall i: nat
      ensures Usable(i, |g.buffer|) <==> i in g.free || i in out
    {
      if c <= i < 2 * c {
        assert g.free[2 * c - 1 - i] == i;
      }
      assert Usable(i, c) <==> i in out;
    }
  }

  lemma InvIsSafe<T>(s: Slots<T>, out: map<nat, T>)
    requires Inv(s, out)
    ensures Safe(s)
  {
    forall k | 0 <= k < |s.free|
      ensures s.free[k] < |s.buffer|
    {
      assert Usable(s.free[k], |s.buffer|);
    }
  }

  lemma PutInv<T>(s: Slots<T>, blank: T, value: T, out: map<nat, T>)
    requires Inv(s, out)
    ensures Safe(s)
    ensures NextIndex(s, blank) !in out && Inv(AfterPut(s, blank, value), out[NextIndex(s, blank) := value])
  {
    InvIsSafe(s, out);
    if s.free == [] {
      GrownInv(s, blank, out);
    }
  }

  lemma TakeInv<T>(s: Slots<T>, index: nat, out: map<nat, T>)
    requires Inv(s, out) && index in out
    ensures Inv(AfterTake(s, index), out - {index})
  {
  }

  /** Taking an index keeps the slots in order exactly when that index is outstanding. */
  lemma TakeIsSoundIffOutstanding<T>(s: Slots<T>, index: nat, out: map<nat, T>)
    requires Inv(s, out)
    ensures (exists out': map<nat, T> :: Inv(AfterTake(s, index), out')) <==> index in out
  {
    var s' := AfterTake(s, index);
    if index in out {
      TakeInv(s, index, out);
    } else {
      assert s'.free[|s.free|] == index;
      forall out': map<nat, T>
        ensures !Inv(s', out')
      {
        if index in s.free {
          var j :| 0 <= j < |s.free| && s.free[j] == index;
          assert s'.free[j] == s'.free[|s.free|];
        } else {
          assert index in s'.free && !Usable(index, |s.buffer|);
        }
      }
    }
  }

  /** An index that is taken twice is then issued twice. */
  lemma TakenTwiceIssuedTwice<T>(s: Slots<T>, blank: T, index: nat, v: T, w: T)
    requires Safe(s) && index < |s.buffer|
    ensures var s2 := AfterTake(AfterTake(s, index), index);
      && Safe(s2) && NextIndex(s2, blank) == index
      && NextIndex(AfterPut(s2, blank, v), blank) == index
      && AfterPut(AfterPut(s2, blank, v), blank, w).buffer[index] == w
  {
    var s2 := AfterTake(AfterTake(s, index), index);
    assert Safe(s2);
    assert AfterPut(s2, blank, v).free == AfterTake(s, index).free;
  }

  // ---- how many ----

  function Indices(s: seq<nat>): (xs: set<nat>)
    ensures forall i :: i in xs <==> i in s
  {
    set i | i in s
  }

  lemma {:induction false} DistinctCount(s: seq<nat>)
    requires Distinct(s)
    ensures |Indices(s)| == |s|
  {
    if s != [] {
      var init, last := s[..|s| - 1], s[|s| - 1];
      assert s == init + [last];
      DistinctCount(init);
      assert Indices(s) == Indices(init) + {last};
    }
  }

  function Range(lo: nat, hi: nat): (xs: set<nat>)
    requires lo <= hi
    ensures forall i :: i in xs <==> lo <= i < hi
    decreases hi
  {
    if lo == hi then {} else Range(lo, hi - 1) + {hi - 1}
  }

  lemma {:induction false} RangeCount(lo: nat, hi: nat)
    requires lo <= hi
    ensures |Range(lo, hi)| == hi - lo
    decreases hi
  {
    if lo < hi {
      RangeCount(lo, hi - 1);
    }
  }

  function UsableIndices(capacity: nat): (xs: set<nat>)
    requires capacity >= INITIAL_CAPACITY
    ensures forall i: nat :: i in xs <==> Usable(i, capacity)
  {
    Range(INITIAL_CAPACITY, capacity) + {0}
  }

  lemma UsableCount(capacity: nat)
    requires capacity >= INITIAL_CAPACITY
    ensures |UsableIndices(capacity)| == capacity - 31
  {
    RangeCount(INITIAL_CAPACITY, capacity);
  }

  lemma UsableIsFreeOrIssued<T>(s: Slots<T>, out: map<nat, T>)
    requires Inv(s, out)
    ensures UsableIndices(|s.buffer|) == Indices(s.free) + out.Keys
    ensures Indices(s.free) * out.Keys == {}
  {
    forall i: nat
      ensures i in UsableIndices(|s.buffer|) <==> i in Indices(s.free) || i in out
    {
      assert Usable(i, |s.buffer|) <==> i in s.free || i in out;
    }
  }

  /** Thirty-one of the slots are never used. */
  lemma EveryUsableSlotIsAccountedFor<T>(s: Slots<T>, out: map<nat, T>)
    requires Inv(s, out)
    ensures |s.free| + |out| == |s.buffer| - 31
  {
    DistinctCount(s.free);
    UsableCount(|s.buffer|);
    UsableIsFreeOrIssued(s, out);
    assert |out.Keys| == |out|;
  }

  /** When a value is put in and nothing is free, the debug assertion in add_capacity holds if
      and only if fewer than 993 values are outstanding. */
  lemma StrangeIffManyValues<T>(s: Slots<T>, out: map<nat, T>)
    requires Inv(s, out) && s.free == []
    ensures |s.buffer| < STRANGE_CAPACITY <==> |out| < STRANGE_CAPACITY - 31
  {
    EveryUsableSlotIsAccountedFor(s, out);
  }

  // ---- whole runs ----

  datatype Call<T> = Put(value: T) | Take(index: nat)

  /** A call and its answer: the index it put the value in, or the value it took from it. */
  datatype Event<T> = WasPut(index: nat, value: T) | WasTaken(index: nat, value: T)

  function Outstanding<T>(log: seq<Event<T>>): map<nat, T> {
    if log == [] then map[]
    else
      var before, e := Outstanding(log[..|log| - 1]), log[|log| - 1];
      if e.WasPut? then before[e.index := e.value] else before - {e.index}
  }

  datatype History<T> = History(slots: Slots<T>, log: seq<Event<T>>)

  ghost predicate Sound<T>(h: History<T>) {
    Inv(h.slots, Outstanding(h.log))
  }

  /** Callers take only what they were given and have not taken yet. */
  predicate Allowed<T>(h: History<T>, c: Call<T>) {
    c.Take? ==> c.index in Outstanding(h.log)
  }

  function Perform<T>(h: History<T>, blank: T, c: Call<T>): History<T>
    requires Sound(h) && Allowed(h, c)
  {
    match c
    case Put(value) =>
      PutInv(h.slots, blank, value, Outstanding(h.log));
      History(AfterPut(h.slots, blank, value), h.log + [WasPut(NextIndex(h.slots, blank), value)])
    case Take(index) =>
      History(AfterTake(h.slots, index), h.log + [WasTaken(index, h.slots.buffer[index])])
  }

  lemma PerformIsSound<T>(h: History<T>, blank: T, c: Call<T>)
    requires Sound(h) && Allowed(h, c)
    ensures Sound(Perform(h, blank, c))
    ensures |Perform(h, blank, c).log| == |h.log| + 1 && Perform(h, blank, c).log[..|h.log|] == h.log
  {
    assert Perform(h, blank, c).log[..|h.log|] == h.log;
    match c {
      case Put(value) => PutInv(h.slots, blank, value, Outstanding(h.log));
      case Take(index) => TakeInv(h.slots, index, Outstanding(h.log));
    }
  }

  /** The history after the calls, unless one of them is not allowed. */
  ghost function Run<T>(blank: T, calls: seq<Call<T>>): (h: Option<History<T>>)
    ensures h.Some? ==> Sound(h.value)
    decreases |calls|
  {
    if calls == [] then
      InitialInv(blank);
      Some(History(Initial(blank), []))
    else
      var c := calls[|calls| - 1];
      match Run(blank, calls[..|calls| - 1])
      case None => None
      case Some(before) =>
        if Allowed(before, c) then
          PerformIsSound(before, blank, c);
          Some(Perform(before, blank, c))
        else None
  }

  lemma {:induction false} RunsAreSound<T>(blank: T, calls: seq<Call<T>>)
    requires Run(blank, calls).Some?
    ensures var h := Run(blank, calls).value;
      && Sound(h) && |h.log| == |calls|
      && |h.slots.free| + |Outstanding(h.log)| == |h.slots.buffer| - 31
    decreases |calls|
  {
    var h := Run(blank, calls).value;
    if calls != [] {
      RunsAreSound(blank, calls[..|calls| - 1]);
    }
    EveryUsableSlotIsAccountedFor(h.slots, Outstanding(h.log));
  }

  /** Event k put the value in, and nothing has touched its slot before event n. */
  ghost predicate Holds<T>(log: seq<Event<T>>, k: nat, n: nat, index: nat, value: T) {
    && k < n <= |log| && log[k] == WasPut(index, value)
    && forall m :: k < m < n ==> log[m].index != index
  }

  lemma {:induction false} OutstandingWasPut<T>(log: seq<Event<T>>, index: nat) returns (k: nat)
    requires index in Outstanding(log)
    ensures Holds(log, k, |log|, index, Outstanding(log)[index])
    decreases |log|
  {
    var n := |log| - 1;
    if log[n].index == index {
      k := n;
    } else {
      k := OutstandingWasPut(log[..n], index);
    }
  }

  ghost predicate IsLogOf<T>(log: seq<Event<T>>, blank: T, calls: seq<Call<T>>) {
    Run(blank, calls).Some? && log == Run(blank, calls).value.log
  }

  /** The last event of a run in the light of those before it. */
  lemma LogBefore<T>(blank: T, calls: seq<Call<T>>, log: seq<Event<T>>) returns (earlier: seq<Event<T>>)
    requires IsLogOf(log, blank, calls) && log != []
    ensures |log| == |calls| && earlier == log[..|log| - 1] && IsLogOf(earlier, blank, calls[..|log| - 1])
    ensures var e, out := log[|log| - 1], Outstanding(earlier);
      if e.WasTaken? then e.index in out && out[e.index] == e.value else e.index !in out
  {
    RunsAreSound(blank, calls);
    var n := |calls| - 1;
    var before := Run(blank, calls[..n]).value;
    RunsAreSound(blank, calls[..n]);
    PerformIsSound(before, blank, calls[n]);
    earlier := before.log;
    if calls[n].Put? {
      PutInv(before.slots, blank, calls[n].value, Outstanding(before.log));
    }
  }

  /** Every value that is taken is the one that was put in under that index, by the last
      event on it before: whatever else is put and taken in between. */
  lemma {:induction false} TakenIsWhatWasPut<T>(blank: T, calls: seq<Call<T>>, log: seq<Event<T>>, j: nat)
    returns (k: nat)
    requires IsLogOf(log, blank, calls) && j < |log| && log[j].WasTaken?
    ensures Holds(log, k, j, log[j].index, log[j].value)
    decreases |calls|
  {
    var n := |calls| - 1;
    var earlier := LogBefore(blank, calls, log);
    if j < n {
      k := TakenIsWhatWasPut(blank, calls[..n], earlier, j);
    } else {
      k := OutstandingWasPut(earlier, log[j].index);
    }
  }

  lemma {:induction false} NotOutstandingWasTaken<T>(log: seq<Event<T>>, i: nat) returns (m: nat)
    requires i < |log| && log[i].WasPut? && log[i].index !in Outstanding(log)
    ensures i < m < |log| && log[m].WasTaken? && log[m].index == log[i].index
    decreases |log|
  {
    var n := |log| - 1;
    if log[n].WasTaken? && log[n].index == log[i].index {
      m := n;
    } else {
      m := NotOutstandingWasTaken(log[..n], i);
    }
  }

  /** No index is issued again before it has been taken back. */
  lemma {:induction false} IssuedOnce<T>(blank: T, calls: seq<Call<T>>, log: seq<Event<T>>, i: nat, j: nat)
    returns (m: nat)
    requires IsLogOf(log, blank, calls) && i < j < |log|
    requires log[i].WasPut? && log[j].WasPut? && log[i].index == log[j].index
    ensures i < m < j && log[m].WasTaken? && log[m].index == log[i].index
    decreases |calls|
  {
    var n := |calls| - 1;
    var earlier := LogBefore(blank, calls, log);
    if j < n {
      m := IssuedOnce(blank, calls[..n], earlier, i, j);
    } else {
      m := NotOutstandingWasTaken(earlier, i);
    }
  }

  // ---- which index comes next ----

  /** The indices from next up to the capacity are free, and the lowest is issued first. */
  predicate UpFrom<T>(s: Slots<T>, next: nat) {
    |s.free| == |s.buffer| - next && forall j :: 0 <= j < |s.free| ==> s.free[j] == |s.buffer| - 1 - j
  }

  lemma PutIssuesNext<T>(s: Slots<T>, blank: T, value: T, next: nat)
    requires Safe(s) && UpFrom(s, next)
    ensures NextIndex(s, blank) == next && UpFrom(AfterPut(s, blank, value), next + 1)
  {
  }

  function Puts<T>(values: seq<T>): (calls: seq<Call<T>>)
    ensures |calls| == |values| && forall i :: 0 <= i < |values| ==> calls[i] == Put(values[i])
  {
    seq(|values|, i requires 0 <= i < |values| => Put(values[i]))
  }

  /** What the log says when these values are put in and given next, next + 1 and so on. */
  function Upward<T>(values: seq<T>, next: nat): (log: seq<Event<T>>)
    ensures |log| == |values| && forall i :: 0 <= i < |values| ==> log[i] == WasPut(next + i, values[i])
  {
    seq(|values|, i requires 0 <= i < |values| => WasPut(next + i, values[i]))
  }

  lemma PutsSnoc<T>(calls: seq<Call<T>>, values: seq<T>, n: nat)
    requires |values| == n + 1
    ensures calls + Puts(values) == (calls + Puts(values[..n])) + [Put(values[n])]
  {
  }

  lemma UpwardNone<T>(log: seq<Event<T>>, values: seq<T>, next: nat)
    requires values == []
    ensures log + Upward(values, next) == log
  {
  }

  lemma UpwardSnoc<T>(log: seq<Event<T>>, values: seq<T>, n: nat, next: nat)
    requires |values| == n + 1
    ensures log + Upward(values, next) == (log + Upward(values[..n], next)) + [WasPut(next + n, values[n])]
  {
  }

  lemma PutsCons<T>(values: seq<T>)
    requires values != []
    ensures Puts(values) == Puts([values[0]]) + Puts(values[1..]) && Puts([values[0]]) == [] + [Put(values[0])]
  {
  }

  /** A history grows by a put. */
  function WithPut<T>(h: History<T>, blank: T, value: T): (r: History<T>)
    requires Safe(h.slots)
    ensures Safe(r.slots)
  {
    History(AfterPut(h.slots, blank, value), h.log + [WasPut(NextIndex(h.slots, blank), value)])
  }

  function WithPuts<T>(h: History<T>, blank: T, values: seq<T>): (r: History<T>)
    requires Safe(h.slots)
    ensures Safe(r.slots)
    decreases |values|
  {
    if values == [] then h
    else WithPut(WithPuts(h, blank, values[..|values| - 1]), blank, values[|values| - 1])
  }

  lemma {:induction false} PutsIssueUpward<T>(h: History<T>, blank: T, values: seq<T>, next: nat)
    requires Safe(h.slots) && UpFrom(h.slots, next)
    ensures UpFrom(WithPuts(h, blank, values).slots, next + |values|)
    ensures WithPuts(h, blank, values).log == h.log + Upward(values, next)
    decreases |values|
  {
    if values == [] {
      UpwardNone(h.log, values, next);
    } else {
      var n := |values| - 1;
      PutsIssueUpward(h, blank, values[..n], next);
      PutIssuesNext(WithPuts(h, blank, values[..n]).slots, blank, values[n], next + n);
      UpwardSnoc(h.log, values, n, next);
    }
  }

  lemma PerformedPut<T>(h: History<T>, blank: T, value: T)
    requires Sound(h)
    ensures Safe(h.slots) && Perform(h, blank, Put(value)) == WithPut(h, blank, value)
  {
    InvIsSafe(h.slots, Outstanding(h.log));
  }

  lemma RunOneMore<T>(blank: T, calls: seq<Call<T>>, c: Call<T>)
    requires Run(blank, calls).Some? && Allowed(Run(blank, calls).value, c)
    ensures Run(blank, calls + [c]) == Some(Perform(Run(blank, calls).value, blank, c))
  {
    var all := calls + [c];
    assert all[..|all| - 1] == calls && all[|all| - 1] == c;
  }

  lemma RunIsSafe<T>(blank: T, calls: seq<Call<T>>)
    requires Run(blank, calls).Some?
    ensures Safe(Run(blank, calls).value.slots)
  {
    InvIsSafe(Run(blank, calls).value.slots, Outstanding(Run(blank, calls).value.log));
  }

  lemma {:induction false} RunPuts<T>(blank: T, calls: seq<Call<T>>, values: seq<T>)
    requires Run(blank, calls).Some? && Safe(Run(blank, calls).value.slots)
    ensures Run(blank, calls + Puts(values)) == Some(WithPuts(Run(blank, calls).value, blank, values))
    decreases |values|
  {
    if values == [] {
      assert calls + Puts(values) == calls;
    } else {
      var n := |values| - 1;
      RunPuts(blank, calls, values[..n]);
      RunOneMore(blank, calls + Puts(values[..n]), Put(values[n]));
      PerformedPut(Run(blank, calls + Puts(values[..n])).value, blank, values[n]);
      PutsSnoc(calls, values, n);
    }
  }

  /** A put that finds nothing free is given the old capacity, and the puts after it the numbers
      that follow, for as long as nothing is taken back, however often the buffer grows. */
  lemma GrownIssuesUpward<T>(blank: T, calls: seq<Call<T>>, values: seq<T>)
    requires Run(blank, calls).Some? && Run(blank, calls).value.slots.free == []
    ensures Run(blank, calls + Puts(values)).Some?
    ensures var before := Run(blank, calls).value;
      Run(blank, calls + Puts(values)).value.log == before.log + Upward(values, |before.slots.buffer|)
  {
    var before := Run(blank, calls).value;
    RunIsSafe(blank, calls);
    RunPuts(blank, calls, values);
    PutsIssueUpward(before, blank, values, |before.slots.buffer|);
  }

  /** The same from the start: 0, 32, 33 and so on. */
  function FromTheStart<T>(values: seq<T>): (log: seq<Event<T>>)
    ensures |log| == |values|
    ensures forall i :: 0 <= i < |values| ==> log[i] == WasPut(if i == 0 then 0 else 31 + i, values[i])
  {
    if values == [] then [] else [WasPut(0, values[0])] + Upward(values[1..], INITIAL_CAPACITY)
  }

  lemma InitialPut<T>(blank: T, value: T)
    ensures Safe(Initial(blank)) && NextIndex(Initial(blank), blank) == 0
    ensures var s := AfterPut(Initial(blank), blank, value); s.free == [] && |s.buffer| == INITIAL_CAPACITY
  {
  }

  lemma FirstPut<T>(blank: T, value: T)
    ensures Run(blank, Puts([value])).Some?
    ensures var h := Run(blank, Puts([value])).value;
      h.log == [WasPut(0, value)] && h.slots.free == [] && |h.slots.buffer| == INITIAL_CAPACITY
  {
    InitialPut(blank, value);
    RunOneMore(blank, [], Put(value));
    PutsCons([value]);
  }

  /** Puts alone are given 0, 32, 33 and so on. */
  lemma PutsAlone<T>(blank: T, values: seq<T>)
    ensures Run(blank, Puts(values)).Some? && Run(blank, Puts(values)).value.log == FromTheStart(values)
  {
    if values != [] {
      FirstPut(blank, values[0]);
      GrownIssuesUpward(blank, Puts([values[0]]), values[1..]);
      PutsCons(values);
    }
  }

  /** The index taken back last is the next to be issued. */
  lemma LastTakenIsNext<T>(blank: T, calls: seq<Call<T>>, index: nat, value: T)
    requires Run(blank, calls).Some? && index in Outstanding(Run(blank, calls).value.log)
    ensures var all := (calls + [Take(index)]) + [Put(value)];
      && Run(blank, all).Some? && |Run(blank, all).value.log| == |all|
      && Run(blank, all).value.log[|all| - 1] == WasPut(index, value)
  {
    var taking := calls + [Take(index)];
    var all, h := taking + [Put(value)], Run(blank, calls).value;
    assert taking[..|calls|] == calls && taking[|calls|] == Take(index);
    assert all[..|taking|] == taking && all[|taking|] == Put(value);
    PerformIsSound(h, blank, Take(index));
    assert Run(blank, taking) == Some(Perform(h, blank, Take(index)));
    RunsAreSound(blank, all);
  }
}
