/**
 The schedule of a round does not matter: when the connections inside sandboxes stay inside
 them, every interleaving of the sandboxes' orders leaves the same buffers, whatever the
 devices compute.
 */
module Interleaving {
  import opened Order
  import opened AudioPass
  import opened Latency
  import opened RoundHistory

  /** The connections of the devices of one sandbox lead to devices of the same sandbox. */
  predicate WiredInside(wires: Wiring, order: seq<Id>) {
    forall d | d in order :: d in wires && forall i :: 0 <= i < |wires[d]| ==> wires[d][i].otherDevice in order
  }

  predicate AllWiredInside(g: Group) {
    forall s :: 0 <= s < |g.orders| ==> WiredInside(g.wires, g.orders[s])
  }

  // ---- what one sandbox sees ----

  /** The buffers agree on all ports of these devices. */
  predicate Agree(order: seq<Id>, a: Buffers, b: Buffers) {
    && a.ins.Keys == b.ins.Keys && a.outs.Keys == b.outs.Keys
    && (forall p | p in a.ins && p.dev in order :: a.ins[p] == b.ins[p])
    && (forall p | p in a.outs && p.dev in order :: a.outs[p] == b.outs[p])
  }

  lemma {:induction false} CopiesAgree(order: seq<Id>, a: Buffers, b: Buffers, d: Id, conns: seq<PortConn>)
    requires Agree(order, a, b) && d in order && Connectable(a.outs.Keys, a.ins.Keys, d, conns)
    ensures Agree(order, CopyConns(a, d, conns), CopyConns(b, d, conns))
  {
    if conns != [] {
      CopiesAgree(order, a, b, d, conns[..|conns| - 1]);
    }
  }

  lemma ProcessAgrees(order: seq<Id>, a: Buffers, b: Buffers, f: Plugins, d: Id)
    requires Agree(order, a, b) && d in order
    ensures Agree(order, Process(a, f, d), Process(b, f, d))
  {
    assert InputsOf(a, d) == InputsOf(b, d);
  }

  /** A sandbox's own device does the same to buffers that look the same to the sandbox. */
  lemma OwnDeviceAgrees(order: seq<Id>, a: Buffers, b: Buffers, wires: Wiring, f: Plugins, d: Id)
    requires Agree(order, a, b) && d in order && d in wires && Shaped(a, wires) && Shaped(b, wires)
    ensures Agree(order, ProcessDevice(a, wires, f, d), ProcessDevice(b, wires, f, d))
  {
    ProcessAgrees(order, a, b, f, d);
    CopiesAgree(order, Process(a, f, d), Process(b, f, d), d, wires[d]);
  }

  lemma {:induction false} ForeignCopies(order: seq<Id>, st: Buffers, d: Id, conns: seq<PortConn>)
    requires Connectable(st.outs.Keys, st.ins.Keys, d, conns)
    requires forall i :: 0 <= i < |conns| ==> conns[i].otherDevice !in order
    ensures Agree(order, CopyConns(st, d, conns), st)
  {
    if conns != [] {
      ForeignCopies(order, st, d, conns[..|conns| - 1]);
    }
  }

  /** A device of another sandbox does nothing that the sandbox can see. */
  lemma ForeignDeviceAgrees(order: seq<Id>, st: Buffers, wires: Wiring, f: Plugins, d: Id)
    requires d !in order && d in wires && Shaped(st, wires)
    requires forall i :: 0 <= i < |wires[d]| ==> wires[d][i].otherDevice !in order
    ensures Agree(order, ProcessDevice(st, wires, f, d), st)
  {
    ForeignCopies(order, Process(st, f, d), d, wires[d]);
  }

  /** The part of a schedule that one sandbox has in it. */
  function Own(schedule: seq<Id>, order: seq<Id>): (own: seq<Id>)
    ensures forall d | d in own :: d in schedule && d in order
    ensures forall d | d in schedule && d in order :: d in own
  {
    if schedule == [] then []
    else
      var init, d := schedule[..|schedule| - 1], schedule[|schedule| - 1];
      assert schedule == init + [d];
      Own(init, order) + if d in order then [d] else []
  }

  /** Every device of the schedule is in this sandbox, or it and its connections are elsewhere. */
  predicate Apart(wires: Wiring, order: seq<Id>, schedule: seq<Id>) {
    forall d | d in schedule && d !in order ::
      d in wires && forall i :: 0 <= i < |wires[d]| ==> wires[d][i].otherDevice !in order
  }

  /** To a sandbox, a schedule looks like its own part of it. */
  lemma {:induction false} ScheduleLooksOwn(st: Buffers, wires: Wiring, f: Plugins, order: seq<Id>, schedule: seq<Id>)
    requires Shaped(st, wires) && AllWired(schedule, wires) && Apart(wires, order, schedule)
    ensures AllWired(Own(schedule, order), wires)
    ensures Agree(order, Pass(st, wires, f, schedule), Pass(st, wires, f, Own(schedule, order)))
  {
    if schedule != [] {
      var init, d := schedule[..|schedule| - 1], schedule[|schedule| - 1];
      ScheduleLooksOwn(st, wires, f, order, init);
      var a, b := Pass(st, wires, f, init), Pass(st, wires, f, Own(init, order));
      if d in order {
        OwnDeviceAgrees(order, a, b, wires, f, d);
        assert Own(schedule, order)[..|Own(init, order)|] == Own(init, order);
      } else {
        assert d in schedule;
        ForeignDeviceAgrees(order, a, wires, f, d);
        assert Own(schedule, order) == Own(init, order);
      }
    }
  }

  // ---- the own part of an interleaving is the order ----

  lemma NextIsNext(schedule: seq<Id>, order: seq<Id>, own: seq<Id>, k: nat, m: nat)
    requires Distinct(schedule) && Distinct(order) && k < |schedule| && m < |order| && order[m] == schedule[k]
    requires own == Own(schedule[..k], order) && own <= order
    requires forall a, b | a in order && b in order && Precedes(order, a, b) :: Precedes(schedule, a, b)
    ensures m == |own|
  {
    if |own| < m {
      assert Precedes(order, order[|own|], order[m]);
      assert Precedes(schedule, order[|own|], schedule[k]);
      PrecedesIffInPrefix(schedule, order[|own|], k);
    }
  }

  /** What a sandbox has done after the first k devices of the schedule is the beginning of its
      order. */
  lemma {:induction false} OwnIsPrefix(schedule: seq<Id>, orders: seq<seq<Id>>, s: nat, k: nat)
    requires Interleaves(schedule, orders) && s < |orders| && k <= |schedule|
    ensures Own(schedule[..k], orders[s]) <= orders[s]
    decreases k
  {
    if k > 0 {
      var order, own, d := orders[s], Own(schedule[..k - 1], orders[s]), schedule[k - 1];
      OwnIsPrefix(schedule, orders, s, k - 1);
      assert schedule[..k][..k - 1] == schedule[..k - 1];
      if d in order {
        var m :| 0 <= m < |order| && order[m] == d;
        NextIsNext(schedule, order, own, k - 1, m);
      }
    }
  }

  lemma OwnIsOrder(schedule: seq<Id>, orders: seq<seq<Id>>, s: nat)
    requires Interleaves(schedule, orders) && s < |orders|
    ensures Own(schedule, orders[s]) == orders[s]
  {
    var own := Own(schedule, orders[s]);
    OwnIsPrefix(schedule, orders, s, |schedule|);
    assert schedule[..|schedule|] == schedule;
    if orders[s] != [] {
      var last := |orders[s]| - 1;
      var d := orders[s][last];
      assert Distinct(orders[s]) && d in orders[s];
      assert d in schedule;
      var i :| 0 <= i < |own| && own[i] == orders[s][last];
      assert orders[s][i] == orders[s][last] && i == last;
    }
  }

  // ---- all sandboxes ----

  /** The schedule interleaves the orders and holds nothing else. */
  predicate Schedules(g: Group, schedule: seq<Id>) {
    Interleaves(schedule, g.orders) && forall d | d in schedule :: InSomeOrder(g, d)
  }

  lemma OthersAreApart(g: Group, schedule: seq<Id>, s: nat)
    requires GroupOk(g) && AllWiredInside(g) && Schedules(g, schedule) && s < |g.orders|
    ensures AllWired(schedule, g.wires) && Apart(g.wires, g.orders[s], schedule)
  {
    forall d | d in schedule
      ensures d in g.wires
      ensures d !in g.orders[s] ==>
        forall i :: 0 <= i < |g.wires[d]| ==> g.wires[d][i].otherDevice !in g.orders[s]
    {
      var t :| 0 <= t < |g.orders| && d in g.orders[t];
      assert WiredInside(g.wires, g.orders[t]);
    }
  }

  /** After any schedule a sandbox sees what its own order alone would leave. */
  lemma SandboxSeesItsOrder(g: Group, st: Buffers, f: Plugins, schedule: seq<Id>, s: nat)
    requires GroupOk(g) && AllWiredInside(g) && Schedules(g, schedule) && s < |g.orders| && Shaped(st, g.wires)
    ensures AllWired(schedule, g.wires) && AllWired(g.orders[s], g.wires)
    ensures Agree(g.orders[s], Pass(st, g.wires, f, schedule), Pass(st, g.wires, f, g.orders[s]))
  {
    OthersAreApart(g, schedule, s);
    ScheduleLooksOwn(st, g.wires, f, g.orders[s], schedule);
    OwnIsOrder(schedule, g.orders, s);
  }

  /** The ports of a device that is in no sandbox are left alone. */
  lemma ElsewhereIsKept(g: Group, st: Buffers, f: Plugins, schedule: seq<Id>, d: Id)
    requires AllWiredInside(g) && Schedules(g, schedule) && !InSomeOrder(g, d) && Shaped(st, g.wires)
    requires AllWired(schedule, g.wires)
    ensures Agree([d], Pass(st, g.wires, f, schedule), st)
  {
    forall e | e in schedule
      ensures e != d && forall i :: 0 <= i < |g.wires[e]| ==> g.wires[e][i].otherDevice != d
    {
      var t :| 0 <= t < |g.orders| && e in g.orders[t];
      assert WiredInside(g.wires, g.orders[t]);
    }
    forall p | p in st.ins && p.dev == d
      ensures Pass(st, g.wires, f, schedule).ins[p] == st.ins[p]
    {
      PassAvoids(st, g.wires, f, schedule, p);
    }
    forall p | p in st.outs && p.dev == d
      ensures Pass(st, g.wires, f, schedule).outs[p] == st.outs[p]
    {
      OutputsKept(st, g.wires, f, schedule, p);
    }
  }

  lemma PortsAgree(g: Group, st: Buffers, f: Plugins, a: seq<Id>, b: seq<Id>, d: Id)
    requires GroupOk(g) && AllWiredInside(g) && Shaped(st, g.wires) && Schedules(g, a) && Schedules(g, b)
    requires AllWired(a, g.wires) && AllWired(b, g.wires)
    ensures Agree([d], Pass(st, g.wires, f, a), Pass(st, g.wires, f, b))
  {
    if InSomeOrder(g, d) {
      var s :| 0 <= s < |g.orders| && d in g.orders[s];
      SandboxSeesItsOrder(g, st, f, a, s);
      SandboxSeesItsOrder(g, st, f, b, s);
    } else {
      ElsewhereIsKept(g, st, f, a, d);
      ElsewhereIsKept(g, st, f, b, d);
    }
  }

  lemma ScheduledAreWired(g: Group, schedule: seq<Id>)
    requires AllWiredInside(g) && Schedules(g, schedule)
    ensures AllWired(schedule, g.wires)
  {
    forall d | d in schedule
      ensures d in g.wires
    {
      var t :| 0 <= t < |g.orders| && d in g.orders[t];
      assert WiredInside(g.wires, g.orders[t]);
    }
  }

  /** Whatever the devices compute, any two interleavings of the sandboxes' orders leave exactly
      the same buffers. */
  lemma ScheduleDoesNotMatter(g: Group, st: Buffers, f: Plugins, a: seq<Id>, b: seq<Id>)
    requires GroupOk(g) && AllWiredInside(g) && Shaped(st, g.wires) && Schedules(g, a) && Schedules(g, b)
    ensures AllWired(a, g.wires) && AllWired(b, g.wires)
    ensures Pass(st, g.wires, f, a) == Pass(st, g.wires, f, b)
  {
    ScheduledAreWired(g, a);
    ScheduledAreWired(g, b);
    var x, y := Pass(st, g.wires, f, a), Pass(st, g.wires, f, b);
    forall p | p in x.ins
      ensures x.ins[p] == y.ins[p]
    {
      PortsAgree(g, st, f, a, b, p.dev);
    }
    forall p | p in x.outs
      ensures x.outs[p] == y.outs[p]
    {
      PortsAgree(g, st, f, a, b, p.dev);
    }
    assert x.ins == y.ins && x.outs == y.outs;
  }
}
