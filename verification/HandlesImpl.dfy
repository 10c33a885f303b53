/**
 ref_counted as an object: its constructors, assignments and destructor change its own
 counter and the shared reference counts.
 */
module HandlesImpl {
  import opened Lifetimes
  import opened Handles

  predicate Known(c: Counts, x: Ref) {
    Exists(c.model, x) && x in c.refs
  }

  /** From c to c' one count has gone up, if the id is known, and nothing else has changed. */
  predicate CountedUp(c: Counts, c': Counts, x: Ref) {
    && c'.model == c.model && c'.erased == c.erased && c'.refs.Keys == c.refs.Keys
    && (c'.faulted <==> c.faulted || !Known(c, x))
    && forall y | y in c.refs :: c'.refs[y] == c.refs[y] + if y == x && Known(c, x) then 1 else 0
  }

  /** From c to c' one count has gone down, if the id is known, and no other has changed.  At
      zero the object has been asked to go, and what has gone has left the counts. */
  ghost predicate CountedDown(c: Counts, c': Counts, running: set<Id>, x: Ref) {
    && (c'.faulted <==> c.faulted || !Known(c, x))
    && (forall y | y in c'.refs :: y in c.refs && c'.refs[y] == c.refs[y] - if y == x && Known(c, x) then 1 else 0)
    && if Known(c, x) && c.refs[x] <= 1 then
         && c'.model == After(c.model, running, {x}) && c'.erased == c.erased + [x]
         && (forall y :: y in c'.refs <==> y in c.refs && Exists(c'.model, y))
       else c'.model == c.model && c'.erased == c.erased && c'.refs.Keys == c.refs.Keys
  }

  lemma UnrefCountsDown(c: Counts, running: set<Id>, x: Ref)
    ensures Valid(c.model) ==> CountedDown(c, UnrefFrom(c, running, x), running, x)
  {
    if Valid(c.model) {
      EraseIsAfter(c.model, running, x);
    }
  }

  /** The client's global data, as ref and unref see it. */
  class Data {
    var counts: Counts
    var running: set<Id>

    constructor (counts: Counts, running: set<Id>)
      ensures this.counts == counts && this.running == running
    {
      this.counts := counts;
      this.running := running;
    }

    /** The object that the client's create functions put into its tables, uncounted. */
    method Create(x: Ref, parent: Id)
      modifies this`counts
      ensures counts ==
        old(counts).(model := Added(old(counts.model), running, x, parent), refs := old(counts.refs)[x := 0])
    {
      counts := counts.(model := Added(counts.model, running, x, parent), refs := counts.refs[x := 0]);
    }

    /** A missing id throws. */
    method Ref(x: Ref)
      modifies this`counts
      ensures counts == RefTo(old(counts), x)
      ensures CountedUp(old(counts), counts, x)
    {
      if Exists(counts.model, x) && x in counts.refs {
        counts := counts.(refs := counts.refs[x := counts.refs[x] + 1]);
      } else {
        counts := counts.(faulted := true);
      }
    }

    /** A missing id throws. */
    method Unref(x: Ref)
      modifies this`counts
      ensures counts == UnrefFrom(old(counts), running, x)
      ensures Valid(old(counts).model) ==> CountedDown(old(counts), counts, running, x)
    {
      UnrefCountsDown(counts, running, x);
      if !Exists(counts.model, x) || x !in counts.refs {
        counts := counts.(faulted := true);
        return;
      }
      counts := counts.(refs := counts.refs[x := counts.refs[x] - 1]);
      if counts.refs[x] <= 0 {
        var erased := Erase(counts.model, running, x);
        match erased {
          case Ok(m) => counts := Counts(m, Prune(counts.refs, m), counts.erased + [x], counts.faulted);
          case NotFound => counts := counts.(faulted := true);
        }
      }
    }
  }

  class RefCounted {
    var counter: Target

    constructor ()
      ensures counter == Nothing
    {
      counter := Nothing;
    }

    constructor FromCounter(data: Data, counter: Target)
      modifies data`counts
      ensures this.counter == counter
      ensures data.counts == Ref_(old(data.counts), counter)
    {
      this.counter := counter;
      if counter.To? {
        data.Ref(counter.x);
      }
    }

    constructor Copied(data: Data, other: RefCounted)
      modifies data`counts
      ensures counter == other.counter
      ensures data.counts == Ref_(old(data.counts), other.counter)
    {
      counter := other.counter;
      if other.counter.To? {
        data.Ref(other.counter.x);
      }
    }

    constructor Moved(other: RefCounted)
      modifies other
      ensures counter == old(other.counter) && other.counter == Nothing
    {
      counter := other.counter;
      new;
      other.counter := Nothing;
    }

    method CopyAssign(data: Data, other: RefCounted)
      modifies this, data`counts
      ensures counter == old(other.counter)
      ensures other.counter == old(other.counter)
      ensures data.counts ==
        if this == other then old(data.counts)
        else Ref_(Unref_(old(data.counts), data.running, old(counter)), other.counter)
    {
      if this != other {
        if counter.To? {
          data.Unref(counter.x);
        }
        counter := other.counter;
        if counter.To? {
          data.Ref(counter.x);
        }
      }
    }

    method MoveAssign(data: Data, other: RefCounted)
      modifies this, other, data`counts
      ensures counter == old(other.counter)
      ensures this != other ==> other.counter == Nothing
      ensures data.counts ==
        if this == other then old(data.counts) else Unref_(old(data.counts), data.running, old(counter))
    {
      if this != other {
        if counter.To? {
          data.Unref(counter.x);
        }
        counter := other.counter;
        other.counter := Nothing;
      }
    }

    method Destroy(data: Data)
      modifies data`counts
      ensures data.counts == Unref_(old(data.counts), data.running, counter)
    {
      if counter.To? {
        data.Unref(counter.x);
      }
    }
  }

  // ---- the objects and the runs of Handles ----

  /** The objects are the handles of st, each one a different object. */
  ghost predicate Represents(data: Data, objs: map<HandleId, RefCounted>, st: State)
    reads data, objs.Values
  {
    && data.counts == st.counts
    && objs.Keys == st.handles.Keys
    && (forall h | h in objs :: objs[h].counter == st.handles[h])
    && forall h, k | h in objs && k in objs && h != k :: objs[h] != objs[k]
  }

  /** One thing a program can do with handles, done to the objects, is the step of Handles:
      the objects that live on are the same, and none of them changes but as the step says. */
  method Perform(data: Data, objs: map<HandleId, RefCounted>, op: Op, ghost st: State)
    returns (objs': map<HandleId, RefCounted>)
    requires Represents(data, objs, st) && Enabled(st, op)
    modifies data`counts, objs.Values
    ensures Represents(data, objs', Step(st, op, data.running))
    ensures (forall h | h in objs' && h in objs :: objs'[h] == objs[h]) && fresh(objs'.Values - objs.Values)
  {
    objs' := objs;
    if op.Create? {
      data.Create(op.x, op.parent);
    } else if op.Construct? {
      var handle := new RefCounted.FromCounter(data, To(op.x));
      objs' := objs[op.h := handle];
    } else if op.Default? {
      var handle := new RefCounted();
      objs' := objs[op.h := handle];
    } else if op.Copy? {
      var handle := new RefCounted.Copied(data, objs[op.from]);
      objs' := objs[op.h := handle];
    } else if op.Move? {
      var handle := new RefCounted.Moved(objs[op.from]);
      objs' := objs[op.h := handle];
    } else if op.CopyAssign? {
      objs[op.h].CopyAssign(data, objs[op.from]);
    } else if op.MoveAssign? {
      objs[op.h].MoveAssign(data, objs[op.from]);
    } else {
      objs[op.h].Destroy(data);
      objs' := objs - {op.h};
    }
  }

  function HoldingObjects(objs: map<HandleId, RefCounted>, x: Ref): set<HandleId>
    reads objs.Values
  {
    set h | h in objs && objs[h].counter == To(x)
  }

  lemma HoldersAreObjects(data: Data, objs: map<HandleId, RefCounted>, st: State)
    requires Represents(data, objs, st)
    ensures forall x :: HoldingObjects(objs, x) == Holders(st.handles, x)
  {
    forall x
      ensures HoldingObjects(objs, x) == Holders(st.handles, x)
    {
      forall h
        ensures h in HoldingObjects(objs, x) <==> h in Holders(st.handles, x)
      {
        assert h in objs <==> h in st.handles;
      }
    }
  }

  /** Whatever a program does with handles, the objects go through a run of Handles; so if it
      makes none too late, nothing throws and every count is the number of objects that hold
      the id. */
  method PerformAll(data: Data, ops: seq<(Op, set<Id>)>) returns (objs: map<HandleId, RefCounted>)
    requires data.counts == EMPTY.counts
    requires forall k :: 0 <= k < |ops| ==> Enabled(Run(EMPTY, ops[..k]), ops[k].0)
    modifies data
    ensures Represents(data, objs, Run(EMPTY, ops))
    ensures NoneTooLate(EMPTY, ops) ==>
      && !data.counts.faulted
      && forall x :: Exists(data.counts.model, x) ==>
           x in data.counts.refs && data.counts.refs[x] == |HoldingObjects(objs, x)|
  {
    objs := map[];
    for i := 0 to |ops|
      invariant Represents(data, objs, Run(EMPTY, ops[..i]))
      invariant fresh(objs.Values)
    {
      RunOneMore(EMPTY, ops, i);
      data.running := ops[i].1;
      objs := Perform(data, objs, ops[i].0, Run(EMPTY, ops[..i]));
    }
    assert ops[..|ops|] == ops;
    HoldersAreObjects(data, objs, Run(EMPTY, ops));
    if NoneTooLate(EMPTY, ops) {
      HandlesAreExact(ops);
      ExactAtTheEnd(EMPTY, ops);
    }
  }
}
