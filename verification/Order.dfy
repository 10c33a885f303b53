/**
 The order in which a sandbox processes its devices.  A table of devices is the sequence
 in which iteration yields them.
 */
module Order {

  type Id = int

  datatype PortConn = PortConn(otherDevice: Id, thisPort: nat, otherPort: nat)

  datatype Device = Device(id: Id, outputConns: seq<PortConn>)

  predicate DistinctIds(table: seq<Device>) {
    forall i, j :: 0 <= i < j < |table| ==> table[i].id != table[j].id
  }

  function Ids(ds: seq<Device>): (ids: seq<Id>)
    ensures |ids| == |ds|
    ensures forall i :: 0 <= i < |ds| ==> ids[i] == ds[i].id
  {
    seq(|ds|, i requires 0 <= i < |ds| => ds[i].id)
  }

  /** Some output of b is connected to an input of a. */
  predicate Feeds(b: Device, a: Id) {
    exists c | c in b.outputConns :: c.otherDevice == a
  }

  /** The first position of a device that feeds dev, or the end. */
  function InsertionIndex(order: seq<Device>, dev: Device): (i: nat)
    ensures i <= |order|
    ensures i < |order| ==> Feeds(order[i], dev.id)
    ensures forall k :: 0 <= k < i ==> !Feeds(order[k], dev.id)
  {
    if order == [] || Feeds(order[0], dev.id) then 0 else 1 + InsertionIndex(order[1..], dev)
  }

  function Insert(order: seq<Device>, dev: Device): seq<Device> {
    var i := InsertionIndex(order, dev);
    order[..i] + [dev] + order[i..]
  }

  function ProcessingOrder(table: seq<Device>): seq<Device> {
    if table == [] then []
    else Insert(ProcessingOrder(table[..|table| - 1]), table[|table| - 1])
  }

  // ---- the loops ----

  method IsAConnectedToInputOfB(a: Device, b: Device) returns (connected: bool)
    ensures connected <==> Feeds(b, a.id)
  {
    for i := 0 to |b.outputConns|
      invariant forall k :: 0 <= k < i ==> b.outputConns[k].otherDevice != a.id
    {
      if b.outputConns[i].otherDevice == a.id {
        assert b.outputConns[i] in b.outputConns;
        return true;
      }
    }
    return false;
  }

  method FindInsertionIndex(order: seq<Device>, dev: Device) returns (index: nat)
    ensures index <= |order|
    ensures index < |order| ==> Feeds(order[index], dev.id)
    ensures forall k :: 0 <= k < index ==> !Feeds(order[k], dev.id)
  {
    for i := 0 to |order|
      invariant forall k :: 0 <= k < i ==> !Feeds(order[k], dev.id)
    {
      var connected := IsAConnectedToInputOfB(dev, order[i]);
      if connected {
        return i;
      }
    }
    return |order|;
  }

  lemma OrderOfPrefix(table: seq<Device>, j: nat)
    requires j < |table|
    ensures ProcessingOrder(table[..j + 1]) == Insert(ProcessingOrder(table[..j]), table[j])
  {
    assert table[..j + 1][..j] == table[..j];
  }

  method MakeDeviceProcessingOrder(devices: seq<Device>) returns (ids: seq<Id>)
    ensures ids == Ids(ProcessingOrder(devices))
  {
    var order: seq<Device> := [];
    for i := 0 to |devices|
      invariant order == ProcessingOrder(devices[..i])
    {
      var index := FindInsertionIndex(order, devices[i]);
      assert index == InsertionIndex(order, devices[i]);
      order := order[..index] + [devices[i]] + order[index..];
      OrderOfPrefix(devices, i);
    }
    assert devices[..|devices|] == devices;
    ids := [];
    for i := 0 to |order|
      invariant ids == Ids(order[..i])
    {
      ids := ids + [order[i].id];
    }
    assert order[..|order|] == order;
  }

  // ---- what the order is ----

  lemma InsertAddsOne(order: seq<Device>, dev: Device)
    ensures multiset(Insert(order, dev)) == multiset(order) + multiset{dev}
    ensures |Insert(order, dev)| == |order| + 1
  {
    var i := InsertionIndex(order, dev);
    assert order == order[..i] + order[i..];
  }

  lemma {:induction false} OrderIsPermutation(table: seq<Device>)
    ensures multiset(ProcessingOrder(table)) == multiset(table)
    ensures |ProcessingOrder(table)| == |table|
  {
    if table != [] {
      var init, last := table[..|table| - 1], table[|table| - 1];
      OrderIsPermutation(init);
      InsertAddsOne(ProcessingOrder(init), last);
      assert table == init + [last];
    }
  }

  predicate Precedes<T(==)>(s: seq<T>, a: T, b: T) {
    exists i, j :: 0 <= i < j < |s| && s[i] == a && s[j] == b
  }

  predicate Distinct<T(==)>(s: seq<T>) {
    forall i, j :: 0 <= i < j < |s| ==> s[i] != s[j]
  }

  lemma PrecedesIsTotal<T>(s: seq<T>, a: T, b: T)
    requires a in s && b in s
    ensures a == b || Precedes(s, a, b) || Precedes(s, b, a)
  {
    var i :| 0 <= i < |s| && s[i] == a;
    var j :| 0 <= j < |s| && s[j] == b;
  }

  lemma PrecedesIsAsymmetric<T>(s: seq<T>, a: T, b: T)
    requires Distinct(s) && Precedes(s, a, b)
    ensures !Precedes(s, b, a)
  {
  }

  lemma {:induction false} AtMostOnce(table: seq<Device>, d: Device)
    requires DistinctIds(table)
    ensures multiset(table)[d] <= 1
  {
    if table != [] {
      assert table == [table[0]] + table[1..];
      AtMostOnce(table[1..], d);
      assert d == table[0] ==> d !in table[1..];
    }
  }

  lemma SameCountsSameDistinctness(table: seq<Device>, order: seq<Device>, i: nat, j: nat)
    requires DistinctIds(table) && multiset(order) == multiset(table) && i < j < |order|
    ensures order[i].id != order[j].id
  {
    var a, b := order[i], order[j];
    assert a in multiset(order) && b in multiset(order);
    if a == b {
      assert order == order[..i] + [a] + order[i + 1..j] + [b] + order[j + 1..];
      assert multiset(order)[a] >= 2;
      AtMostOnce(table, a);
    }
  }

  lemma {:induction false} OrderIsDistinct(table: seq<Device>)
    requires DistinctIds(table)
    ensures Distinct(ProcessingOrder(table)) && Distinct(Ids(ProcessingOrder(table)))
  {
    OrderIsPermutation(table);
    var order := ProcessingOrder(table);
    forall i, j | 0 <= i < j < |order|
      ensures order[i].id != order[j].id
    {
      SameCountsSameDistinctness(table, order, i, j);
    }
  }

  /** Insertion never changes the order of what is already there. */
  lemma InsertKeepsPrecedes(order: seq<Device>, dev: Device, a: Device, b: Device)
    requires Precedes(order, a, b)
    ensures Precedes(Insert(order, dev), a, b)
  {
    var i, j :| 0 <= i < j < |order| && order[i] == a && order[j] == b;
    var k, s := InsertionIndex(order, dev), Insert(order, dev);
    var i', j' := if i < k then i else i + 1, if j < k then j else j + 1;
    assert s[i'] == a && s[j'] == b;
  }

  lemma {:induction false} LaterInsertsKeepPrecedes(table: seq<Device>, n: nat, a: Device, b: Device)
    requires n <= |table| && Precedes(ProcessingOrder(table[..n]), a, b)
    ensures Precedes(ProcessingOrder(table), a, b)
    decreases |table| - n
  {
    if n == |table| {
      assert table[..n] == table;
    } else {
      OrderOfPrefix(table, n);
      InsertKeepsPrecedes(ProcessingOrder(table[..n]), table[n], a, b);
      LaterInsertsKeepPrecedes(table, n + 1, a, b);
    }
  }

  lemma InOrder(table: seq<Device>, d: Device)
    ensures d in ProcessingOrder(table) <==> d in table
  {
    OrderIsPermutation(table);
    assert d in ProcessingOrder(table) <==> d in multiset(ProcessingOrder(table));
    assert d in table <==> d in multiset(table);
  }

  lemma InsertedThenKept(table: seq<Device>, j: nat, a: Device, b: Device)
    requires j < |table| && Precedes(Insert(ProcessingOrder(table[..j]), table[j]), a, b)
    ensures Precedes(ProcessingOrder(table), a, b)
  {
    OrderOfPrefix(table, j);
    LaterInsertsKeepPrecedes(table, j + 1, a, b);
  }

  /** A device goes in before everything that feeds it. */
  lemma InsertedBeforeProducer(order: seq<Device>, dev: Device, b: Device)
    requires b in order && Feeds(b, dev.id)
    ensures Precedes(Insert(order, dev), dev, b)
  {
    var p :| 0 <= p < |order| && order[p] == b;
    var k := InsertionIndex(order, dev);
    assert k <= p;
    assert Insert(order, dev)[k] == dev && Insert(order, dev)[p + 1] == b;
  }

  /** A connection from a device that iteration yields earlier to one it yields later puts
      the consumer before the producer. */
  lemma ConsumerBeforeEarlierProducer(table: seq<Device>, i: nat, j: nat)
    requires i < j < |table| && Feeds(table[i], table[j].id)
    ensures Precedes(ProcessingOrder(table), table[j], table[i])
  {
    InOrder(table[..j], table[i]);
    assert table[i] == table[..j][i];
    InsertedBeforeProducer(ProcessingOrder(table[..j]), table[j], table[i]);
    InsertedThenKept(table, j, table[j], table[i]);
  }

  /** p feeds c, inside this table. */
  predicate Wire(table: seq<Device>, p: Device, c: Device) {
    p in table && c in table && p != c && Feeds(p, c.id)
  }

  predicate IteratesTopologically(table: seq<Device>) {
    forall i, j :: 0 <= i < j < |table| ==> !Feeds(table[j], table[i].id)
  }

  /** If iteration yields every producer before its consumers, the order is the reverse of a
      topological order: every consumer is processed before its producers. */
  lemma TopologicalIterationIsReversed(table: seq<Device>, p: Device, c: Device)
    requires IteratesTopologically(table) && Wire(table, p, c)
    ensures Precedes(ProcessingOrder(table), c, p)
  {
    var i :| 0 <= i < |table| && table[i] == p;
    var j :| 0 <= j < |table| && table[j] == c;
    assert i < j;
    ConsumerBeforeEarlierProducer(table, i, j);
  }

  // ---- the order the documentation describes ----

  /** Every device is processed after the devices that feed it. */
  predicate ProducersFirst(table: seq<Device>, order: seq<Device>) {
    forall p, c | p in table && c in table && Wire(table, p, c) :: Precedes(order, p, c)
  }

  predicate Unwired(table: seq<Device>) {
    forall p, c | p in table && c in table :: !Wire(table, p, c)
  }

  lemma AppendedAfter(order: seq<Device>, dev: Device, c: Device)
    requires c in order && forall q | q in order :: !Feeds(q, dev.id)
    ensures Precedes(Insert(order, dev), c, dev)
  {
    var n :| 0 <= n < |order| && order[n] == c;
    assert InsertionIndex(order, dev) == |order|;
    assert Insert(order, dev)[n] == c && Insert(order, dev)[|order|] == dev;
  }

  /** Any connection between two devices makes some consumer precede one of its producers. */
  lemma SomeConsumerFirst(table: seq<Device>, p: Device, c: Device)
    requires DistinctIds(table) && Wire(table, p, c)
    ensures exists q, d :: Wire(table, q, d) && Precedes(ProcessingOrder(table), d, q)
  {
    var i :| 0 <= i < |table| && table[i] == p;
    var j :| 0 <= j < |table| && table[j] == c;
    if i < j {
      ConsumerBeforeEarlierProducer(table, i, j);
    } else {
      var order := ProcessingOrder(table[..i]);
      InOrder(table[..i], c);
      assert c == table[..i][j];
      if exists q | q in order :: Feeds(q, p.id) {
        var q :| q in order && Feeds(q, p.id);
        InOrder(table[..i], q);
        InsertedBeforeProducer(order, p, q);
        InsertedThenKept(table, i, p, q);
        var n :| 0 <= n < i && table[..i][n] == q;
        assert Wire(table, q, p);
      } else {
        AppendedAfter(order, p, c);
        InsertedThenKept(table, i, c, p);
      }
    }
  }

  /** A device that nothing feeds comes after everything it feeds, in whatever order the table
      iterates. */
  lemma UnfedProducerComesLater(table: seq<Device>, p: Device, c: Device)
    requires p in table && c in table && Feeds(p, c.id) && forall d | d in table :: !Feeds(d, p.id)
    ensures Precedes(ProcessingOrder(table), c, p)
  {
    var i :| 0 <= i < |table| && table[i] == p;
    var j :| 0 <= j < |table| && table[j] == c;
    if i < j {
      ConsumerBeforeEarlierProducer(table, i, j);
    } else {
      assert p != c;
      var order := ProcessingOrder(table[..i]);
      InOrder(table[..i], c);
      assert c == table[..i][j];
      forall q | q in order
        ensures !Feeds(q, p.id)
      {
        InOrder(table[..i], q);
      }
      AppendedAfter(order, p, c);
      InsertedThenKept(table, i, c, p);
    }
  }

  /** The documented order, producers before consumers, is what comes out if and only if no
      two devices of the sandbox are connected. */
  lemma ProducersFirstIffUnwired(table: seq<Device>)
    requires DistinctIds(table)
    ensures ProducersFirst(table, ProcessingOrder(table)) <==> Unwired(table)
  {
    if !Unwired(table) {
      var p, c :| p in table && c in table && Wire(table, p, c);
      SomeConsumerFirst(table, p, c);
      var q, d :| Wire(table, q, d) && Precedes(ProcessingOrder(table), d, q);
      OrderIsDistinct(table);
      PrecedesIsAsymmetric(ProcessingOrder(table), d, q);
    }
  }
}
