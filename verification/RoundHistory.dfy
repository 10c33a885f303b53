/**
 The rounds that shared buffers have been through, and what they have in common with the
 rounds that Latency describes.
 */
module RoundHistory {
  import opened Order
  import opened AudioPass
  import opened Latency

  /** Sandbox s has the order orders[s]; no device is in two sandboxes, and all have connections,
      if only none. */
  predicate GroupOk(g: Group) {
    && (forall s :: 0 <= s < |g.orders| ==> Distinct(g.orders[s]) && AllWired(g.orders[s], g.wires))
    && forall s, t, d :: 0 <= s < |g.orders| && 0 <= t < |g.orders| && s != t && d in g.orders[s] ==> d !in g.orders[t]
  }

  // ---- the schedule of a round ----

  /** Every sandbox has processed the first devices of its order, in that order. */
  predicate OrderKept(schedule: seq<Id>, order: seq<Id>, n: nat) {
    && n <= |order|
    && (forall j :: 0 <= j < |order| ==> (order[j] in schedule <==> j < n))
    && forall i, j :: 0 <= i < j < n ==> Precedes(schedule, order[i], order[j])
  }

  predicate ScheduleOk(g: Group, schedule: seq<Id>, progress: seq<nat>) {
    && |progress| == |g.orders| && Distinct(schedule) && AllWired(schedule, g.wires)
    && forall s :: 0 <= s < |g.orders| ==> OrderKept(schedule, g.orders[s], progress[s])
  }

  lemma PrecedesInLonger(schedule: seq<Id>, d: Id, a: Id, b: Id)
    requires Precedes(schedule, a, b)
    ensures Precedes(schedule + [d], a, b)
  {
    var i, j :| 0 <= i < j < |schedule| && schedule[i] == a && schedule[j] == b;
    assert (schedule + [d])[i] == a && (schedule + [d])[j] == b;
  }

  lemma PrecedesLast(schedule: seq<Id>, d: Id, a: Id)
    requires a in schedule
    ensures Precedes(schedule + [d], a, d)
  {
    var i :| 0 <= i < |schedule| && schedule[i] == a;
    assert (schedule + [d])[i] == a && (schedule + [d])[|schedule|] == d;
  }

  lemma OwnOrderGrows(schedule: seq<Id>, order: seq<Id>, n: nat)
    requires Distinct(order) && OrderKept(schedule, order, n) && n < |order|
    ensures OrderKept(schedule + [order[n]], order, n + 1)
  {
    forall i, j | 0 <= i < j < n + 1
      ensures Precedes(schedule + [order[n]], order[i], order[j])
    {
      if j < n {
        PrecedesInLonger(schedule, order[n], order[i], order[j]);
      } else {
        PrecedesLast(schedule, order[n], order[i]);
      }
    }
  }

  lemma OtherOrderStays(schedule: seq<Id>, order: seq<Id>, n: nat, d: Id)
    requires OrderKept(schedule, order, n) && d !in order
    ensures OrderKept(schedule + [d], order, n)
  {
    forall i, j | 0 <= i < j < n
      ensures Precedes(schedule + [d], order[i], order[j])
    {
      PrecedesInLonger(schedule, d, order[i], order[j]);
    }
  }

  lemma ScheduleGrows(g: Group, schedule: seq<Id>, progress: seq<nat>, s: nat)
    requires GroupOk(g) && ScheduleOk(g, schedule, progress) && s < |g.orders| && progress[s] < |g.orders[s]|
    ensures ScheduleOk(g, schedule + [g.orders[s][progress[s]]], progress[s := progress[s] + 1])
  {
    var d := g.orders[s][progress[s]];
    assert d in g.orders[s] && d !in schedule;
    forall t | 0 <= t < |g.orders|
      ensures OrderKept(schedule + [d], g.orders[t], progress[s := progress[s] + 1][t])
    {
      if t == s {
        OwnOrderGrows(schedule, g.orders[s], progress[s]);
      } else {
        OtherOrderStays(schedule, g.orders[t], progress[t], d);
      }
    }
  }

  predicate AllDone(g: Group, progress: seq<nat>) {
    |progress| == |g.orders| && forall s :: 0 <= s < |g.orders| ==> progress[s] == |g.orders[s]|
  }

  // ---- the rounds played ----

  /** A round, the buffers it began with, and the buffers in which the client read its outputs. */
  datatype Played = Played(start: Buffers, round: Round, end: Buffers)

  /** The client found in the buffers what one round makes of those it began with. */
  ghost predicate PlayedOk(g: Group, head: Port, p: Played) {
    GroupShaped(g, p.start, head) && RoundOk(g, p.round) && p.end == Processed(g, p.start, head, p.round)
  }

  /** p was followed by a round that began with these buffers. */
  ghost predicate LeadsTo(g: Group, p: Played, start: Buffers) {
    CrossShaped(p.end, g.cross) && start == CrossCopies(p.end, g.cross)
  }

  /** The rounds played so far, of which the first began with st, lead to the buffers now. */
  ghost predicate PlayedUpTo(g: Group, st: Buffers, head: Port, played: seq<Played>, now: Buffers) {
    && (forall t :: 0 <= t < |played| ==> PlayedOk(g, head, played[t]))
    && (forall t :: 0 <= t < |played| - 1 ==> LeadsTo(g, played[t], played[t + 1].start))
    && if played == [] then now == st
       else played[0].start == st && LeadsTo(g, played[|played| - 1], now)
  }

  /** The rounds played so far lead somewhere. */
  ghost predicate LeadsOn(g: Group, st: Buffers, head: Port, played: seq<Played>) {
    exists now :: PlayedUpTo(g, st, head, played, now) && GroupShaped(g, now, head)
  }

  /** The current round began with start and has come to buffers. */
  ghost predicate InRound(g: Group, start: Buffers, head: Port, round: Round, buffers: Buffers) {
    && GroupShaped(g, start, head) && AllWired(round.schedule, g.wires)
    && buffers == Pass(Written(start, head, round.input), g.wires, round.f, round.schedule)
  }

  /** The first i connections have been copied since end. */
  ghost predicate Copied(g: Group, end: Buffers, buffers: Buffers, i: nat) {
    && i <= |g.cross| && CrossShaped(end, g.cross[..i]) && buffers == CrossCopies(end, g.cross[..i])
  }

  lemma PlayedGrows(g: Group, st: Buffers, head: Port, played: seq<Played>, p: Played)
    requires PlayedUpTo(g, st, head, played, p.start) && PlayedOk(g, head, p)
    ensures LeadsOn(g, st, head, played + [p])
  {
    var longer, now := played + [p], CrossCopies(p.end, g.cross);
    forall t | 0 <= t < |longer| - 1
      ensures LeadsTo(g, longer[t], longer[t + 1].start)
    {
      if t < |played| - 1 {
        assert longer[t] == played[t] && longer[t + 1] == played[t + 1];
      } else {
        assert longer[t] == played[|played| - 1] && longer[t + 1] == p;
      }
    }
    assert LeadsTo(g, p, now);
    assert PlayedUpTo(g, st, head, longer, now) && GroupShaped(g, now, head);
  }

  lemma OneMoreCopied(g: Group, end: Buffers, buffers: Buffers, i: nat)
    requires CrossShaped(end, g.cross) && i < |g.cross| && Copied(g, end, buffers, i)
    ensures g.cross[i].src in buffers.outs
    ensures Copied(g, end, buffers.(ins := buffers.ins[g.cross[i].dst := buffers.outs[g.cross[i].src]]), i + 1)
  {
    assert g.cross[i] in g.cross;
    assert g.cross[..i + 1][..i] == g.cross[..i];
    assert forall w | w in g.cross[..i + 1] :: w in g.cross;
  }

  function Rounds(played: seq<Played>): (rs: seq<Round>)
    ensures |rs| == |played| && forall t :: 0 <= t < |rs| ==> rs[t] == played[t].round
  {
    seq(|played|, t requires 0 <= t < |played| => played[t].round)
  }

  /** The rounds played are rounds as Latency describes them. */
  lemma {:induction false} PlayedAreRounds(g: Group, st: Buffers, head: Port, played: seq<Played>, now: Buffers, t: nat)
    requires PlayedUpTo(g, st, head, played, now) && GroupShaped(g, st, head)
    requires RoundsOk(g, Rounds(played)) && t < |played|
    ensures Before(g, st, head, Rounds(played), t) == played[t].start
  {
    assert PlayedOk(g, head, played[t]);
    if t > 0 {
      PlayedAreRounds(g, st, head, played, now, t - 1);
      assert PlayedOk(g, head, played[t - 1]) && LeadsTo(g, played[t - 1], played[t].start);
    }
  }

  // ---- the latency of a chain ----

  predicate InSomeOrder(g: Group, d: Id) {
    exists s :: 0 <= s < |g.orders| && d in g.orders[s]
  }

  /** The chain's ports exist, and its devices are in the sandboxes. */
  predicate ChainPlaced(g: Group, st: Buffers, c: Chain) {
    forall h | h in c.hops :: In(h) in st.ins && Out(h) in st.outs && InSomeOrder(g, h.dev)
  }

  /** The devices of the chain pass their input through. */
  ghost predicate Forwards(c: Chain, f: Plugins) {
    forall h, ins: map<nat, Block> | h in c.hops && h.inPort in ins :: f(h.dev, h.outPort, ins) == ins[h.inPort]
  }

  ghost predicate AllForward(c: Chain, played: seq<Played>) {
    forall t :: 0 <= t < |played| ==> Forwards(c, played[t].round.f)
  }

  lemma PlayedIsSession(g: Group, st: Buffers, c: Chain, played: seq<Played>)
    requires ChainOk(g, c) && ChainPlaced(g, st, c) && GroupShaped(g, st, In(c.hops[0])) && AllForward(c, played)
    requires forall t :: 0 <= t < |played| ==> PlayedOk(g, In(c.hops[0]), played[t])
    ensures SessionOk(Session(g, st, c, Rounds(played)))
  {
    forall t | 0 <= t < |played|
      ensures RoundOk(g, Rounds(played)[t])
    {
      assert PlayedOk(g, In(c.hops[0]), played[t]);
    }
    forall i, t | 0 <= i < |c.hops| && 0 <= t < |played|
      ensures PassesThrough(st, c.hops[i], Rounds(played)[t])
    {
    }
  }

  lemma EndIsOutput(g: Group, st: Buffers, head: Port, played: seq<Played>, now: Buffers, t: nat, p: Port)
    requires GroupShaped(g, st, head) && PlayedUpTo(g, st, head, played, now) && RoundsOk(g, Rounds(played))
    requires t < |played| && p in st.outs
    ensures p in played[t].end.outs && played[t].end.outs[p] == Output(g, st, head, Rounds(played), t, p)
  {
    PlayedAreRounds(g, st, head, played, now, t);
    assert PlayedOk(g, head, played[t]);
  }

}
