/**
 Reference-counted handles on top of the client's tables.
 */
module Handles {
  import opened Lifetimes
  import LifetimeRuns

  type HandleId = int

  datatype Target = Nothing | To(x: Ref)

  /** refs is the ref_count of every existing object; erased logs the calls of erase that
      unref makes; faulted says that ref or unref threw because its id was not found. */
  datatype Counts = Counts(model: Model, refs: map<Ref, int>, erased: seq<Ref>, faulted: bool)

  function Prune(refs: map<Ref, int>, m: Model): map<Ref, int> {
    map x | x in refs && Exists(m, x) :: refs[x]
  }

  function RefTo(c: Counts, x: Ref): Counts {
    if Exists(c.model, x) && x in c.refs then c.(refs := c.refs[x := c.refs[x] + 1])
    else c.(faulted := true)
  }

  function UnrefFrom(c: Counts, running: set<Id>, x: Ref): Counts {
    if Exists(c.model, x) && x in c.refs then
      var refs := c.refs[x := c.refs[x] - 1];
      if refs[x] <= 0 then
        match Erase(c.model, running, x)
        case Ok(m) => Counts(m, Prune(refs, m), c.erased + [x], c.faulted)
        case NotFound => c.(refs := refs, faulted := true)
      else c.(refs := refs)
    else c.(faulted := true)
  }

  /** ref_counter: a counter without an id does nothing. */
  function Ref_(c: Counts, t: Target): Counts {
    if t.To? then RefTo(c, t.x) else c
  }

  function Unref_(c: Counts, running: set<Id>, t: Target): Counts {
    if t.To? then UnrefFrom(c, running, t.x) else c
  }

  // ---- runs over any number of handles ----

  datatype State = State(counts: Counts, handles: map<HandleId, Target>, managed: set<Ref>)

  datatype Op =
    | Create(x: Ref, parent: Id)      // parent is ignored for a group
    | Construct(h: HandleId, x: Ref)
    | Default(h: HandleId)
    | Copy(h: HandleId, from: HandleId)
    | Move(h: HandleId, from: HandleId)
    | CopyAssign(h: HandleId, from: HandleId)
    | MoveAssign(h: HandleId, from: HandleId)
    | Destroy(h: HandleId)

  /** A new object of the kind x names. */
  function Added(m: Model, running: set<Id>, x: Ref, parent: Id): Model {
    match x
    case GroupRef(g) => LifetimeRuns.AddGroup(m, g)
    case SandboxRef(s) => LifetimeRuns.AddSandbox(m, running, parent, s, true)
    case DeviceRef(d) => LifetimeRuns.AddDevice(m, parent, d)
  }

  /** Constructors make new handles, the others use live ones; a created object is new. */
  predicate Enabled(st: State, op: Op) {
    match op
    case Create(x, parent) =>
      && !Exists(st.counts.model, x) && x !in st.managed
      && (x.SandboxRef? ==> parent in st.counts.model.groups)
      && (x.DeviceRef? ==> parent in st.counts.model.sandboxes)
    case Construct(h, _) => h !in st.handles
    case Default(h) => h !in st.handles
    case Copy(h, from) => h !in st.handles && from in st.handles
    case Move(h, from) => h !in st.handles && from in st.handles
    case CopyAssign(h, from) => h in st.handles && from in st.handles
    case MoveAssign(h, from) => h in st.handles && from in st.handles
    case Destroy(h) => h in st.handles
  }

  function Step(st: State, op: Op, running: set<Id>): State {
    if !Enabled(st, op) then st
    else
      var c, hs := st.counts, st.handles;
      match op
      case Create(x, parent) =>
        var m := Added(c.model, running, x, parent);
        st.(counts := c.(model := m, refs := c.refs[x := 0]))
      case Construct(h, x) =>
        State(Ref_(c, To(x)), hs[h := To(x)], st.managed + {x})
      case Default(h) => st.(handles := hs[h := Nothing])
      case Copy(h, from) => st.(counts := Ref_(c, hs[from]), handles := hs[h := hs[from]])
      case Move(h, from) => st.(handles := hs[h := hs[from]][from := Nothing])
      case CopyAssign(h, from) =>
        if h == from then st
        else st.(counts := Ref_(Unref_(c, running, hs[h]), hs[from]), handles := hs[h := hs[from]])
      case MoveAssign(h, from) =>
        if h == from then st
        else st.(counts := Unref_(c, running, hs[h]), handles := hs[h := hs[from]][from := Nothing])
      case Destroy(h) => st.(counts := Unref_(c, running, hs[h]), handles := hs - {h})
  }

  function Run(st: State, ops: seq<(Op, set<Id>)>): State
    decreases |ops|
  {
    if ops == [] then st else Run(Step(st, ops[0].0, ops[0].1), ops[1..])
  }

  const EMPTY := State(Counts(Model(map[], map[], map[]), map[], [], false), map[], {})

  lemma {:induction false} RunOneMore(st: State, ops: seq<(Op, set<Id>)>, k: nat)
    requires k < |ops|
    ensures Run(st, ops[..k + 1]) == Step(Run(st, ops[..k]), ops[k].0, ops[k].1)
    decreases k
  {
    if k > 0 {
      assert ops[..k + 1][1..] == ops[1..][..k] && ops[..k][1..] == ops[1..][..k - 1];
      RunOneMore(Step(st, ops[0].0, ops[0].1), ops[1..], k - 1);
    } else {
      assert ops[..1][1..] == [];
    }
  }

  /** What every live handle points at after a step: a constructor makes one new handle, moving
      empties the source, an assignment to itself changes nothing, a destroyed handle is gone, and
      all other handles stay as they are. */
  lemma HandlesAfter(st: State, h: HandleId, from: HandleId, x: Ref, running: set<Id>)
    ensures h !in st.handles ==>
      && Step(st, Construct(h, x), running).handles == st.handles[h := To(x)]
      && Step(st, Default(h), running).handles == st.handles[h := Nothing]
    ensures h !in st.handles && from in st.handles ==>
      && Step(st, Copy(h, from), running).handles == st.handles[h := st.handles[from]]
      && Step(st, Move(h, from), running).handles == st.handles[h := st.handles[from]][from := Nothing]
    ensures h in st.handles && from in st.handles && h != from ==>
      && Step(st, CopyAssign(h, from), running).handles == st.handles[h := st.handles[from]]
      && Step(st, MoveAssign(h, from), running).handles == st.handles[h := st.handles[from]][from := Nothing]
    ensures h in st.handles ==>
      && Step(st, CopyAssign(h, h), running) == st && Step(st, MoveAssign(h, h), running) == st
      && Step(st, Destroy(h), running).handles == st.handles - {h}
  {
  }

  // ---- the invariant ----

  /** The live handles to x. */
  function Holders(hs: map<HandleId, Target>, x: Ref): set<HandleId> {
    set h | h in hs && hs[h] == To(x)
  }

  /** What the reference counts, the log and the marks say of the handles. */
  predicate Ledger(refs: map<Ref, int>, hs: map<HandleId, Target>, marked: set<Ref>, erased: seq<Ref>) {
    && (forall x | x in refs :: refs[x] == |Holders(hs, x)|)
    && (forall h | h in hs && hs[h].To? :: hs[h].x in refs && hs[h].x !in marked)
    && (forall x | x in erased :: x !in refs || x in marked)
    && (forall x | x in marked :: x in erased)
    && Distinct(erased)
  }

  function MarkedAmong(m: Model, refs: set<Ref>): set<Ref> {
    set x | x in refs && Marked(m, x)
  }

  ghost predicate CountsExact(c: Counts, hs: map<HandleId, Target>) {
    && !c.faulted
    && Valid(c.model)
    && (forall x :: x in c.refs <==> Exists(c.model, x))
    && Ledger(c.refs, hs, MarkedAmong(c.model, c.refs.Keys), c.erased)
  }

  /** What has been erased is what has had handles and has none left. */
  ghost predicate ErasedExactly(erased: seq<Ref>, hs: map<HandleId, Target>, managed: set<Ref>) {
    forall x :: x in erased <==> x in managed && Holders(hs, x) == {}
  }

  ghost predicate Inv(st: State) {
    && CountsExact(st.counts, st.handles)
    && ErasedExactly(st.counts.erased, st.handles, st.managed)
    && (forall h | h in st.handles && st.handles[h].To? :: st.handles[h].x in st.managed)
  }

  // ---- the ledger ----

  predicate Free(hs: map<HandleId, Target>, h: HandleId) {
    h in hs ==> hs[h] == Nothing
  }

  lemma HoldersGainOne(hs: map<HandleId, Target>, h: HandleId, x: Ref, y: Ref)
    requires Free(hs, h)
    ensures |Holders(hs[h := To(x)], y)| == |Holders(hs, y)| + if x == y then 1 else 0
  {
    assert h !in Holders(hs, y);
    assert Holders(hs[h := To(x)], y) == Holders(hs, y) + (if x == y then {h} else {});
  }

  lemma GainKeepsLedger(refs: map<Ref, int>, hs: map<HandleId, Target>, marked: set<Ref>, erased: seq<Ref>,
                        h: HandleId, x: Ref)
    requires Ledger(refs, hs, marked, erased) && Free(hs, h) && x in refs && x !in marked
    ensures Ledger(refs[x := refs[x] + 1], hs[h := To(x)], marked, erased)
  {
    forall y | y in refs
      ensures |Holders(hs[h := To(x)], y)| == refs[y] + if x == y then 1 else 0
    {
      HoldersGainOne(hs, h, x, y);
    }
  }

  lemma FreeKeepsLedger(refs: map<Ref, int>, hs: map<HandleId, Target>, marked: set<Ref>, erased: seq<Ref>, h: HandleId)
    requires Ledger(refs, hs, marked, erased) && Free(hs, h)
    ensures Ledger(refs, hs[h := Nothing], marked, erased)
    ensures Ledger(refs, hs - {h}, marked, erased)
  {
    assert forall x :: Holders(hs[h := Nothing], x) == Holders(hs, x);
    assert forall x :: Holders(hs - {h}, x) == Holders(hs, x);
  }

  lemma DropKeepsLedger(refs: map<Ref, int>, hs: map<HandleId, Target>, marked: set<Ref>, erased: seq<Ref>, h: HandleId)
    requires Ledger(refs, hs, marked, erased) && h in hs && hs[h].To?
    ensures var x := hs[h].x; Ledger(refs[x := refs[x] - 1], hs[h := Nothing], marked, erased)
  {
    var x := hs[h].x;
    var refs', hs' := refs[x := refs[x] - 1], hs[h := Nothing];
    forall y | y in refs'
      ensures refs'[y] == |Holders(hs', y)|
    {
      assert Holders(hs', y) == Holders(hs, y) - {h};
      assert h in Holders(hs, y) <==> y == x;
    }
  }

  /** x, which no handle holds, is erased: it goes or is marked, and only marked things go with it. */
  lemma EraseKeepsLedger(refs: map<Ref, int>, hs: map<HandleId, Target>, marked: set<Ref>, erased: seq<Ref>,
                         x: Ref, refs': map<Ref, int>, marked': set<Ref>)
    requires Ledger(refs, hs, marked, erased)
    requires x in refs && refs[x] == 0 && x !in marked
    requires forall y | y in refs' :: y in refs && refs'[y] == refs[y]
    requires forall y | y in refs && y != x && y !in marked :: y in refs'
    requires forall y :: y in marked' <==> y in refs' && (y in marked || y == x)
    ensures Ledger(refs', hs, marked', erased + [x])
  {
    forall h | h in hs && hs[h].To?
      ensures hs[h].x in refs' && hs[h].x !in marked'
    {
      assert h in Holders(hs, hs[h].x);
      assert hs[h].x != x;
    }
  }

  lemma SameSize<T>(a: set<T>, b: set<T>, x: T, y: T)
    requires x != y && y !in a && x !in b && (x in a <==> y in b)
    requires forall k | k != x && k != y :: k in a <==> k in b
    ensures |a| == |b| && (a == {} <==> b == {})
  {
    if x in a {
      assert b == (a - {x}) + {y};
    } else {
      assert a == b;
    }
  }

  /** Moving a handle changes no count. */
  lemma HoldersTransfer(hs: map<HandleId, Target>, h: HandleId, from: HandleId, x: Ref)
    requires from in hs && h != from && Free(hs, h)
    ensures var moved := Holders(hs[h := hs[from]][from := Nothing], x);
      |moved| == |Holders(hs, x)| && (moved == {} <==> Holders(hs, x) == {})
  {
    var hs' := hs[h := hs[from]][from := Nothing];
    var before, after := Holders(hs, x), Holders(hs', x);
    assert h !in before && from !in after && (from in before <==> h in after);
    assert forall k | k != h && k != from :: k in before <==> k in after;
    SameSize(before, after, from, h);
  }

  lemma TransferKeepsLedger(refs: map<Ref, int>, hs: map<HandleId, Target>, marked: set<Ref>, erased: seq<Ref>,
                            h: HandleId, from: HandleId)
    requires Ledger(refs, hs, marked, erased) && from in hs && h != from && Free(hs, h)
    ensures Ledger(refs, hs[h := hs[from]][from := Nothing], marked, erased)
  {
    forall x
      ensures |Holders(hs[h := hs[from]][from := Nothing], x)| == |Holders(hs, x)|
    {
      HoldersTransfer(hs, h, from, x);
    }
  }

  // ---- ref and unref ----

  lemma RefKeepsCounts(c: Counts, hs: map<HandleId, Target>, h: HandleId, t: Target)
    requires CountsExact(c, hs) && Free(hs, h)
    requires t.To? ==> Exists(c.model, t.x) && !Marked(c.model, t.x)
    ensures CountsExact(Ref_(c, t), hs[h := t]) && Ref_(c, t).erased == c.erased
  {
    var marked := MarkedAmong(c.model, c.refs.Keys);
    match t
    case Nothing => FreeKeepsLedger(c.refs, hs, marked, c.erased, h);
    case To(x) =>
      GainKeepsLedger(c.refs, hs, marked, c.erased, h, x);
      assert c.refs[x := c.refs[x] + 1].Keys == c.refs.Keys;
  }

  lemma LastUnrefKeepsCounts(c: Counts, running: set<Id>, hs: map<HandleId, Target>, x: Ref)
    requires CountsExact(c, hs) && Exists(c.model, x) && !Marked(c.model, x) && c.refs[x] == 0
    ensures Erase(c.model, running, x).Ok?
    ensures var m := Erase(c.model, running, x).model;
      CountsExact(Counts(m, Prune(c.refs, m), c.erased + [x], false), hs)
  {
    EraseIsAfter(c.model, running, x);
    AfterIsValid(c.model, running, {x});
    var m := Erase(c.model, running, x).model;
    forall y
      ensures Exists(m, y) ==> Exists(c.model, y)
      ensures Exists(c.model, y) && y != x && !Marked(c.model, y) ==> Exists(m, y)
      ensures Marked(m, y) <==> Exists(m, y) && (Marked(c.model, y) || y == x)
    {
    }
    var refs := Prune(c.refs, m);
    EraseKeepsLedger(c.refs, hs, MarkedAmong(c.model, c.refs.Keys), c.erased, x, refs, MarkedAmong(m, refs.Keys));
  }

  /** Letting go of the last handle deletes; letting go of another one only counts down. */
  lemma UnrefKeepsCounts(c: Counts, running: set<Id>, hs: map<HandleId, Target>, h: HandleId)
    requires CountsExact(c, hs) && h in hs
    ensures CountsExact(Unref_(c, running, hs[h]), hs[h := Nothing])
    ensures Unref_(c, running, hs[h]).erased ==
      c.erased + if hs[h].To? && Holders(hs[h := Nothing], hs[h].x) == {} then [hs[h].x] else []
  {
    var marked, hs' := MarkedAmong(c.model, c.refs.Keys), hs[h := Nothing];
    if hs[h].To? {
      var x := hs[h].x;
      var c1 := c.(refs := c.refs[x := c.refs[x] - 1]);
      DropKeepsLedger(c.refs, hs, marked, c.erased, h);
      assert c1.refs.Keys == c.refs.Keys;
      assert CountsExact(c1, hs');
      assert c1.refs[x] == |Holders(hs', x)|;
      if c1.refs[x] == 0 {
        LastUnrefKeepsCounts(c1, running, hs', x);
      }
    } else {
      FreeKeepsLedger(c.refs, hs, marked, c.erased, h);
    }
  }

  // ---- runs ----

  lemma GainKeepsErased(erased: seq<Ref>, hs: map<HandleId, Target>, managed: set<Ref>, h: HandleId, t: Target,
                        more: set<Ref>)
    requires ErasedExactly(erased, hs, managed) && Free(hs, h)
    requires t.To? ==> t.x !in erased
    requires more == if t.To? then {t.x} else {}
    ensures ErasedExactly(erased, hs[h := t], managed + more)
  {
    forall x
      ensures x in erased <==> x in managed + more && Holders(hs[h := t], x) == {}
    {
      assert Holders(hs[h := t], x) == Holders(hs, x) + (if t == To(x) then {h} else {});
      assert t == To(x) ==> h in Holders(hs[h := t], x);
    }
  }

  lemma GainKeepsInv(st: State, h: HandleId, t: Target, managed: set<Ref>)
    requires Inv(st) && Free(st.handles, h)
    requires t.To? ==> Exists(st.counts.model, t.x) && !Marked(st.counts.model, t.x)
    requires managed == st.managed + if t.To? then {t.x} else {}
    ensures Inv(State(Ref_(st.counts, t), st.handles[h := t], managed))
  {
    RefKeepsCounts(st.counts, st.handles, h, t);
    GainKeepsErased(st.counts.erased, st.handles, st.managed, h, t, if t.To? then {t.x} else {});
  }

  /** st after handle h has let go and points nowhere. */
  function Dropped(st: State, running: set<Id>, h: HandleId): State
    requires h in st.handles
  {
    st.(counts := Unref_(st.counts, running, st.handles[h]), handles := st.handles[h := Nothing])
  }

  lemma DropKeepsInv(st: State, running: set<Id>, h: HandleId)
    requires Inv(st) && h in st.handles
    ensures Inv(Dropped(st, running, h))
  {
    UnrefKeepsCounts(st.counts, running, st.handles, h);
    assert st.handles[h].To? ==> h in Holders(st.handles, st.handles[h].x);
    forall x
      ensures x in Dropped(st, running, h).counts.erased <==>
        x in st.managed && Holders(Dropped(st, running, h).handles, x) == {}
    {
      assert Holders(st.handles[h := Nothing], x) == Holders(st.handles, x) - {h};
    }
  }

  lemma TransferKeepsInv(st: State, h: HandleId, from: HandleId)
    requires Inv(st) && from in st.handles && h != from && Free(st.handles, h)
    ensures Inv(st.(handles := st.handles[h := st.handles[from]][from := Nothing]))
  {
    var c, hs' := st.counts, st.handles[h := st.handles[from]][from := Nothing];
    TransferKeepsLedger(c.refs, st.handles, MarkedAmong(c.model, c.refs.Keys), c.erased, h, from);
    forall x
      ensures Holders(hs', x) == {} <==> Holders(st.handles, x) == {}
    {
      HoldersTransfer(st.handles, h, from, x);
    }
  }

  lemma AddedEffect(m: Model, running: set<Id>, x: Ref, parent: Id)
    requires Valid(m) && !Exists(m, x)
    requires (x.SandboxRef? ==> parent in m.groups) && (x.DeviceRef? ==> parent in m.sandboxes)
    ensures var m' := Added(m, running, x, parent);
      && Valid(m')
      && (forall y :: Exists(m', y) <==> Exists(m, y) || y == x)
      && (forall y :: Marked(m', y) <==> Marked(m, y))
  {
    match x {
      case GroupRef(g) =>
      case SandboxRef(s) => LifetimeRuns.AddSandboxIsValid(m, running, parent, s, true);
      case DeviceRef(d) =>
    }
  }

  lemma CreateKeepsInv(st: State, x: Ref, parent: Id, running: set<Id>)
    requires Inv(st) && Enabled(st, Create(x, parent))
    ensures Inv(Step(st, Create(x, parent), running))
  {
    var c, c' := st.counts, Step(st, Create(x, parent), running).counts;
    AddedEffect(c.model, running, x, parent);
    assert forall h | h in st.handles && st.handles[h].To? :: st.handles[h].x != x;
    assert Holders(st.handles, x) == {};
    assert MarkedAmong(c'.model, c'.refs.Keys) == MarkedAmong(c.model, c.refs.Keys) by {
      assert !Marked(c.model, x);
    }
    assert x !in c.erased;
  }

  lemma CopyAssignKeepsInv(st: State, h: HandleId, from: HandleId, running: set<Id>)
    requires Inv(st) && h in st.handles && from in st.handles && h != from
    ensures Inv(Step(st, CopyAssign(h, from), running))
  {
    var t, dropped := st.handles[from], Dropped(st, running, h);
    DropKeepsInv(st, running, h);
    assert dropped.handles[from] == t;
    assert t.To? ==> t.x in dropped.counts.refs && !Marked(dropped.counts.model, t.x);
    GainKeepsInv(dropped, h, t, st.managed + if t.To? then {t.x} else {});
    assert st.managed + (if t.To? then {t.x} else {}) == st.managed;
    assert dropped.handles[h := t] == st.handles[h := t];
  }

  lemma MoveAssignKeepsInv(st: State, h: HandleId, from: HandleId, running: set<Id>)
    requires Inv(st) && h in st.handles && from in st.handles && h != from
    ensures Inv(Step(st, MoveAssign(h, from), running))
  {
    var hs, dropped := st.handles, Dropped(st, running, h);
    DropKeepsInv(st, running, h);
    TransferKeepsInv(dropped, h, from);
    assert dropped.handles[h := hs[from]][from := Nothing] == hs[h := hs[from]][from := Nothing];
  }

  lemma DestroyKeepsInv(st: State, h: HandleId, running: set<Id>)
    requires Inv(st) && h in st.handles
    ensures Inv(Step(st, Destroy(h), running))
  {
    var dropped := Dropped(st, running, h);
    var c := dropped.counts;
    DropKeepsInv(st, running, h);
    FreeKeepsLedger(c.refs, dropped.handles, MarkedAmong(c.model, c.refs.Keys), c.erased, h);
    assert dropped.handles - {h} == st.handles - {h};
    assert forall x :: Holders(st.handles - {h}, x) == Holders(dropped.handles, x);
  }

  /** The step makes a handle for an object that is gone or on its way out. */
  predicate TooLate(st: State, op: Op) {
    op.Construct? && Enabled(st, op) && (!Exists(st.counts.model, op.x) || Marked(st.counts.model, op.x))
  }

  lemma CopyKeepsInv(st: State, h: HandleId, from: HandleId, running: set<Id>)
    requires Inv(st) && Enabled(st, Copy(h, from))
    ensures Inv(Step(st, Copy(h, from), running))
  {
    var t := st.handles[from];
    assert t.To? ==> t.x in st.counts.refs && !Marked(st.counts.model, t.x);
    GainKeepsInv(st, h, t, st.managed + if t.To? then {t.x} else {});
    assert st.managed + (if t.To? then {t.x} else {}) == st.managed;
  }

  lemma StepKeepsInv(st: State, op: Op, running: set<Id>)
    requires Inv(st) && !TooLate(st, op)
    ensures Inv(Step(st, op, running))
  {
    if Enabled(st, op) {
      match op
      case Create(x, parent) => CreateKeepsInv(st, x, parent, running);
      case Construct(h, x) => GainKeepsInv(st, h, To(x), st.managed + {x});
      case Default(h) => GainKeepsInv(st, h, Nothing, st.managed);
      case Copy(h, from) => CopyKeepsInv(st, h, from, running);
      case Move(h, from) => TransferKeepsInv(st, h, from);
      case CopyAssign(h, from) => if h != from { CopyAssignKeepsInv(st, h, from, running); }
      case MoveAssign(h, from) => if h != from { MoveAssignKeepsInv(st, h, from, running); }
      case Destroy(h) => DestroyKeepsInv(st, h, running);
    }
  }

  // ---- the exact condition ----

  /** No ref or unref has missed its id, every ref_count is the number of live handles, and
      erase has been called once for exactly the objects whose last handle went. */
  ghost predicate Exact(st: State) {
    && !st.counts.faulted
    && (forall x :: Exists(st.counts.model, x) ==>
          x in st.counts.refs && st.counts.refs[x] == |Holders(st.handles, x)|)
    && Distinct(st.counts.erased)
    && (forall x :: x in st.counts.erased <==> x in st.managed && Holders(st.handles, x) == {})
  }

  /** Every state along the run is exact. */
  ghost predicate ExactThroughout(st: State, ops: seq<(Op, set<Id>)>)
    decreases |ops|
  {
    Exact(st) && (ops != [] ==> ExactThroughout(Step(st, ops[0].0, ops[0].1), ops[1..]))
  }

  /** No step of the run comes too late. */
  predicate NoneTooLate(st: State, ops: seq<(Op, set<Id>)>)
    decreases |ops|
  {
    ops != [] ==> !TooLate(st, ops[0].0) && NoneTooLate(Step(st, ops[0].0, ops[0].1), ops[1..])
  }

  lemma {:induction false} ExactAtTheEnd(st: State, ops: seq<(Op, set<Id>)>)
    requires ExactThroughout(st, ops)
    ensures Exact(Run(st, ops))
    decreases |ops|
  {
    if ops != [] {
      ExactAtTheEnd(Step(st, ops[0].0, ops[0].1), ops[1..]);
    }
  }

  /** A new handle leaves things exact if and only if its object exists and is not marked. */
  lemma ConstructIsExactIffInTime(st: State, h: HandleId, x: Ref, running: set<Id>)
    requires Inv(st) && Enabled(st, Construct(h, x))
    ensures Exact(Step(st, Construct(h, x), running)) <==> Exists(st.counts.model, x) && !Marked(st.counts.model, x)
  {
    var st' := Step(st, Construct(h, x), running);
    if !TooLate(st, Construct(h, x)) {
      StepKeepsInv(st, Construct(h, x), running);
    } else if Exists(st.counts.model, x) {
      assert x in MarkedAmong(st.counts.model, st.counts.refs.Keys);
      assert x in st'.counts.erased && h in Holders(st'.handles, x);
    }
  }

  lemma {:induction false} ExactThroughoutIffNoneTooLate(st: State, ops: seq<(Op, set<Id>)>)
    requires Inv(st)
    ensures ExactThroughout(st, ops) <==> NoneTooLate(st, ops)
    decreases |ops|
  {
    if ops != [] {
      var (op, running) := ops[0];
      var st' := Step(st, op, running);
      if TooLate(st, op) {
        ConstructIsExactIffInTime(st, op.h, op.x, running);
      } else {
        StepKeepsInv(st, op, running);
        ExactThroughoutIffNoneTooLate(st', ops[1..]);
      }
    }
  }

  /** In every run, of any constructions, assignments and destructions: every state is exact if
      and only if no handle is made for an object that is gone or marked for deletion then. */
  lemma HandlesAreExact(ops: seq<(Op, set<Id>)>)
    ensures ExactThroughout(EMPTY, ops) <==> NoneTooLate(EMPTY, ops)
  {
    ExactThroughoutIffNoneTooLate(EMPTY, ops);
  }
}
