/**
 An effect rack of devices in series, all in one sandbox: the second scenario of the
 documentation, for any number of devices and wherever the table's iteration puts them.
 */
module OneSandboxRack {
  import opened Order
  import opened AudioPass
  import opened Latency
  import opened Rack

  /** Device i leads to device i + 1. */
  function SeriesDevice(n: nat, i: nat): Device {
    Device(i, if i + 1 < n then [PortConn(i + 1, 0, 0)] else [])
  }

  function Series(n: nat): (table: seq<Device>)
    ensures |table| == n && forall i :: 0 <= i < n ==> table[i] == SeriesDevice(n, i)
  {
    seq(n, i requires 0 <= i => SeriesDevice(n, i))
  }

  function SeriesWires(n: nat, k: nat): (wires: Wiring)
    ensures forall d :: d in wires <==> 0 <= d < k
    ensures forall d | d in wires :: wires[d] == SeriesDevice(n, d).outputConns
  {
    if k == 0 then map[] else SeriesWires(n, k - 1)[k - 1 := SeriesDevice(n, k - 1).outputConns]
  }

  /** The rack with the devices in this iteration order. */
  function SeriesGroup(n: nat, table: seq<Device>): Group {
    Group(SeriesWires(n, n), [], [Ids(ProcessingOrder(table))])
  }

  function SeriesChain(n: nat): (c: Chain)
    requires n > 0
    ensures |c.hops| == n && forall i :: 0 <= i < n ==> c.hops[i] == Hop(i, 0, 0)
    ensures |c.links| == n - 1 && forall i :: 0 <= i < n - 1 ==> c.links[i] == LocalLink(0, 0)
  {
    Chain(seq(n, i => Hop(i, 0, 0)), seq(n - 1, _ => LocalLink(0, 0)))
  }

  /** table holds the devices of the rack, in some order. */
  predicate IsSeries(n: nat, table: seq<Device>) {
    n > 0 && multiset(table) == multiset(Series(n))
  }

  lemma SeriesMembers(n: nat, table: seq<Device>)
    requires IsSeries(n, table)
    ensures DistinctIds(table) && forall d :: d in table <==> 0 <= d.id < n && d == SeriesDevice(n, d.id)
  {
    forall i, j | 0 <= i < j < |table|
      ensures table[i].id != table[j].id
    {
      SameCountsSameDistinctness(Series(n), table, i, j);
    }
    forall d
      ensures d in table <==> 0 <= d.id < n && d == SeriesDevice(n, d.id)
    {
      assert d in table <==> d in multiset(table);
      assert d in Series(n) <==> d in multiset(Series(n));
      if 0 <= d.id < n && d == SeriesDevice(n, d.id) {
        assert Series(n)[d.id] == d;
      }
    }
  }

  lemma InSeriesOrder(n: nat, table: seq<Device>, i: nat)
    requires IsSeries(n, table) && i < n
    ensures i in Ids(ProcessingOrder(table))
  {
    SeriesMembers(n, table);
    InOrder(table, SeriesDevice(n, i));
    var k :| 0 <= k < |ProcessingOrder(table)| && ProcessingOrder(table)[k] == SeriesDevice(n, i);
    assert Ids(ProcessingOrder(table))[k] == i;
  }

  lemma SeriesLinkIsOk(n: nat, table: seq<Device>, i: nat)
    requires IsSeries(n, table) && i + 1 < n
    ensures LinkOk(SeriesGroup(n, table), Hop(i, 0, 0), LocalLink(0, 0), Hop(i + 1, 0, 0))
  {
    InSeriesOrder(n, table, i);
    InSeriesOrder(n, table, i + 1);
    assert LastTo(SeriesWires(n, n)[i], 0, Port(i + 1, 0));
  }

  lemma SeriesIsChain(n: nat, table: seq<Device>)
    requires IsSeries(n, table)
    ensures ChainOk(SeriesGroup(n, table), SeriesChain(n))
  {
    forall i | 0 <= i < n - 1
      ensures LinkOk(SeriesGroup(n, table), SeriesChain(n).hops[i], SeriesChain(n).links[i], SeriesChain(n).hops[i + 1])
    {
      SeriesLinkIsOk(n, table, i);
    }
  }

  /** Where iteration yields device i. */
  ghost function Place(n: nat, table: seq<Device>, i: nat): (k: nat)
    requires IsSeries(n, table) && i < n
    ensures k < |table| && table[k].id == i
  {
    SeriesMembers(n, table);
    assert SeriesDevice(n, i) in table;
    var k :| 0 <= k < |table| && table[k] == SeriesDevice(n, i);
    k
  }

  /** Any rounds of processing the rack: the sandbox goes through its order, and every device passes
      its input through. */
  ghost predicate IsOneSandboxRack(s: Session, n: nat, table: seq<Device>) {
    && IsSeries(n, table) && s.g == SeriesGroup(n, table) && s.c == SeriesChain(n) && RackBuffers(s.st, n)
    && forall r | r in s.rs ::
         && r.schedule == Ids(ProcessingOrder(table))
         && forall d, ins: map<nat, Block> :: 0 in ins ==> r.f(d, 0, ins) == ins[0]
  }

  lemma SeriesRoundIsOk(r: Round, n: nat, table: seq<Device>)
    requires IsSeries(n, table) && r.schedule == Ids(ProcessingOrder(table))
    ensures RoundOk(SeriesGroup(n, table), r)
  {
    SeriesMembers(n, table);
    OrderIsDistinct(table);
    forall d | d in r.schedule
      ensures 0 <= d < n
    {
      var k :| 0 <= k < |r.schedule| && r.schedule[k] == d;
      InOrder(table, ProcessingOrder(table)[k]);
    }
  }

  lemma SeriesIsSession(s: Session, n: nat, table: seq<Device>)
    requires IsOneSandboxRack(s, n, table)
    ensures SessionOk(s)
  {
    SeriesIsChain(n, table);
    forall t | 0 <= t < |s.rs|
      ensures RoundOk(s.g, s.rs[t])
    {
      SeriesRoundIsOk(s.rs[t], n, table);
    }
    forall i, t | 0 <= i < |s.c.hops| && 0 <= t < |s.rs|
      ensures PassesThrough(s.st, s.c.hops[i], s.rs[t])
    {
      assert s.rs[t] in s.rs && s.c.hops[i] == Hop(i, 0, 0);
      InSeriesOrder(n, table, i);
    }
    assert Shaped(s.st, s.g.wires) && CrossShaped(s.st, s.g.cross);
  }

  lemma SeriesInSandbox(n: nat, table: seq<Device>, place: seq<nat>)
    requires IsSeries(n, table) && |place| == n
    requires forall i :: 0 <= i < n ==> place[i] < |table| && table[place[i]].id == i
    ensures InSandbox(SeriesGroup(n, table), SeriesChain(n), table, place)
  {
    SeriesMembers(n, table);
  }

  /** Wherever iteration puts the devices, what comes out of any but the first was written in an
      earlier round. */
  lemma NeverInOneRound(s: Session, n: nat, table: seq<Device>, t: nat, k: nat, past: nat)
    requires IsOneSandboxRack(s, n, table) && k < n && t < |s.rs|
    ensures SessionOk(s) && (TotalDelay(s.g, s.c, k) == 0 <==> k == 0)
    ensures past + TotalDelay(s.g, s.c, k) == t ==> HopOutput(s, t, k) == s.rs[past].input
  {
    SeriesIsSession(s, n, table);
    var place := seq(n, i requires 0 <= i < n => Place(n, table, i));
    SeriesInSandbox(n, table, place);
    SeriesMembers(n, table);
    UnfedChainAlwaysDelays(s.g, s.c, table, place, k);
    if past + TotalDelay(s.g, s.c, k) == t {
      ChainLatency(s, t, k, past);
    }
  }

  /** If iteration yields the devices in signal order, device k puts out what the client wrote k
      rounds before, as if each were in a sandbox of its own. */
  lemma AsSlowAsSandboxes(s: Session, n: nat, t: nat, k: nat, past: nat)
    requires IsOneSandboxRack(s, n, Series(n)) && k < n && past + k == t < |s.rs|
    ensures SessionOk(s) && HopOutput(s, t, k) == s.rs[past].input
  {
    SeriesIsSession(s, n, Series(n));
    var place: seq<nat> := seq(n, i requires 0 <= i < n => i);
    SeriesInSandbox(n, Series(n), place);
    OneSandboxChainDelaysEveryLink(s.g, s.c, Series(n), place, k);
    ChainLatency(s, t, k, past);
  }
}
