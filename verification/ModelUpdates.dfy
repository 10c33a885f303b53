/**
 What every update of the client's model changes and what it leaves alone.
 */
module ModelUpdates {
  import opened Lifetimes
  import opened LifetimeRuns

  /** Nothing but the group g has changed, and it has kept its mark. */
  predicate OnlyGroup(m: Model, m': Model, g: Id) {
    && m'.devices == m.devices && m'.sandboxes == m.sandboxes
    && g in m.groups && m'.groups.Keys == m.groups.Keys && m'.groups[g].marked == m.groups[g].marked
    && forall h | h in m.groups && h != g :: m'.groups[h] == m.groups[h]
  }

  /** Nothing but the flags of s and the count of its group have changed. */
  predicate OnlyFlags(m: Model, m': Model, s: Id, launched: bool, confirmed: bool)
    requires s in m.sandboxes
  {
    var g := m.sandboxes[s].group;
    && m'.devices == m.devices
    && m'.sandboxes.Keys == m.sandboxes.Keys
    && (forall t | t in m.sandboxes && t != s :: m'.sandboxes[t] == m.sandboxes[t])
    && m'.sandboxes[s] == Sandbox(g, m.sandboxes[s].devices, launched, confirmed, m.sandboxes[s].marked)
    && g in m.groups && m'.groups.Keys == m.groups.Keys
    && (forall h | h in m.groups && h != g :: m'.groups[h] == m.groups[h])
    && m'.groups[g].sandboxes == m.groups[g].sandboxes && m'.groups[g].conns == m.groups[g].conns
    && m'.groups[g].marked == m.groups[g].marked
  }

  /** The recount after the flags of s have been set, in terms of the sandboxes as they were. */
  lemma RecountOf(m: Model, running: set<Id>, s: Id, launched: bool, confirmed: bool)
    requires Valid(m) && s in m.sandboxes
    ensures
      var g := m.sandboxes[s].group;
      var x := m.sandboxes[s].(launched := launched, confirmed := confirmed);
      var m' := Recount(m.(sandboxes := m.sandboxes[s := x]), running, g);
      && OnlyFlags(m, m', s, launched, confirmed)
      && m'.groups[g].totalActive == |set t | t in m.groups[g].sandboxes && t in running
           && (if t == s then launched && confirmed
               else t in m.sandboxes && m.sandboxes[t].launched && m.sandboxes[t].confirmed)|
  {
    var g := m.sandboxes[s].group;
    var x := m.sandboxes[s].(launched := launched, confirmed := confirmed);
    var m1 := m.(sandboxes := m.sandboxes[s := x]);
    var ids := m.groups[g].sandboxes;
    assert (set t | t in ids && Active(m1, running, t)) == (set t | t in ids && t in running
           && (if t == s then launched && confirmed
               else t in m.sandboxes && m.sandboxes[t].launched && m.sandboxes[t].confirmed));
  }

  /** Confirming activation sets the sandbox's flag, and its group counts it from then on, if its
      process is running, with the others that are launched, confirmed and running. */
  lemma ConfirmCounts(w: World, s: Id, running: set<Id>)
    requires Valid(w.model)
    ensures
      var m, w' := w.model, Apply(w, ConfirmActivated(s), running);
      if s !in m.sandboxes then w' == w
      else
        var g := m.sandboxes[s].group;
        && w'.nextId == w.nextId
        && OnlyFlags(m, w'.model, s, m.sandboxes[s].launched, true)
        && w'.model.groups[g].totalActive == |set t | t in m.groups[g].sandboxes && t in running && t in m.sandboxes
             && m.sandboxes[t].launched && (m.sandboxes[t].confirmed || t == s)|
  {
    var m := w.model;
    if s in m.sandboxes {
      var g, launched := m.sandboxes[s].group, m.sandboxes[s].launched;
      RecountOf(m, running, s, launched, true);
      assert (set t | t in m.groups[g].sandboxes && t in running
               && (if t == s then launched && true
                   else t in m.sandboxes && m.sandboxes[t].launched && m.sandboxes[t].confirmed))
          == (set t | t in m.groups[g].sandboxes && t in running && t in m.sandboxes
               && m.sandboxes[t].launched && (m.sandboxes[t].confirmed || t == s));
    }
  }

  /** Once a launched process is found to have stopped, its sandbox is no longer launched and its
      group does not count it; a sandbox whose process runs is left as it is. */
  lemma StopUncounts(w: World, s: Id, running: set<Id>)
    requires Valid(w.model)
    ensures
      var m, w' := w.model, Apply(w, Stopped(s), running);
      if s !in m.sandboxes || !m.sandboxes[s].launched || s in running then w' == w
      else
        var g := m.sandboxes[s].group;
        && w'.nextId == w.nextId
        && OnlyFlags(m, w'.model, s, false, m.sandboxes[s].confirmed)
        && w'.model.groups[g].totalActive == |set t | t in m.groups[g].sandboxes && t in running && t in m.sandboxes
             && m.sandboxes[t].launched && m.sandboxes[t].confirmed|
  {
    var m := w.model;
    if s in m.sandboxes && m.sandboxes[s].launched && s !in running {
      var g, confirmed := m.sandboxes[s].group, m.sandboxes[s].confirmed;
      RecountOf(m, running, s, false, confirmed);
      assert (set t | t in m.groups[g].sandboxes && t in running
               && (if t == s then false && confirmed
                   else t in m.sandboxes && m.sandboxes[t].launched && m.sandboxes[t].confirmed))
          == (set t | t in m.groups[g].sandboxes && t in running && t in m.sandboxes
               && m.sandboxes[t].launched && m.sandboxes[t].confirmed);
    }
  }

  /** The two devices are in different sandboxes of the group g. */
  predicate ApartIn(m: Model, out: Id, into: Id, g: Id) {
    exists s, t | s in m.sandboxes && t in m.sandboxes && s != t ::
      && out in m.sandboxes[s].devices && into in m.sandboxes[t].devices
      && m.sandboxes[s].group == g && m.sandboxes[t].group == g
  }

  lemma JoinsIffApart(m: Model, c: CrossConn, g: Id)
    requires Valid(m)
    ensures JoinsInGroup(m, c, g) <==> ApartIn(m, c.outDev, c.inDev, g)
  {
    if JoinsInGroup(m, c, g) {
      var s, t := m.devices[c.outDev].sbox, m.devices[c.inDev].sbox;
      assert s in m.sandboxes && t in m.sandboxes && s != t;
    }
  }

  /** Connecting adds, and disconnecting removes, the one connection in the group of its devices,
      provided that they are in different sandboxes of one group; if not, nothing changes. */
  lemma RewireChangesOne(w: World, c: CrossConn, add: bool, running: set<Id>)
    requires Valid(w.model)
    ensures
      var m, w' := w.model, Apply(w, if add then Connect(c) else Disconnect(c), running);
      && w'.nextId == w.nextId
      && ((forall g :: !ApartIn(m, c.outDev, c.inDev, g)) ==> w' == w)
      && forall g | ApartIn(m, c.outDev, c.inDev, g) ::
           && OnlyGroup(m, w'.model, g)
           && w'.model.groups[g].sandboxes == m.groups[g].sandboxes
           && w'.model.groups[g].totalActive == m.groups[g].totalActive
           && forall x :: x in w'.model.groups[g].conns <==> if x == c then add else x in m.groups[g].conns
  {
    var m := w.model;
    forall g
      ensures JoinsInGroup(m, c, g) <==> ApartIn(m, c.outDev, c.inDev, g)
    {
      JoinsIffApart(m, c, g);
    }
  }

  /** A new group is empty, without connections, not active and not marked. */
  lemma CreateGroupAdds(w: World, running: set<Id>)
    requires WorldValid(w)
    ensures
      var m, w' := w.model, Apply(w, CreateGroup, running);
      && w'.nextId == w.nextId + 1 && w.nextId !in m.groups
      && w'.model.devices == m.devices && w'.model.sandboxes == m.sandboxes
      && w'.model.groups.Keys == m.groups.Keys + {w.nextId}
      && (forall h | h in m.groups :: w'.model.groups[h] == m.groups[h])
      && w'.model.groups[w.nextId] == Group({}, {}, 0, false)
  {
  }

  /** A new sandbox is launched, unconfirmed, unmarked and without devices; its group gets it but
      counts only those that were active before.  Without its group or its process there is none. */
  lemma CreateSandboxAdds(w: World, g: Id, launches: bool, running: set<Id>)
    requires WorldValid(w)
    ensures
      var m, s, w' := w.model, w.nextId, Apply(w, CreateSandbox(g, launches), running);
      && w'.nextId == w.nextId + 1
      && if g !in m.groups || !launches then w'.model == m
         else
           && w'.model.devices == m.devices && s !in m.sandboxes
           && w'.model.sandboxes.Keys == m.sandboxes.Keys + {s}
           && (forall t | t in m.sandboxes :: w'.model.sandboxes[t] == m.sandboxes[t])
           && w'.model.sandboxes[s] == Sandbox(g, {}, true, false, false)
           && w'.model.groups.Keys == m.groups.Keys
           && (forall h | h in m.groups && h != g :: w'.model.groups[h] == m.groups[h])
           && w'.model.groups[g].sandboxes == m.groups[g].sandboxes + {s}
           && w'.model.groups[g].conns == m.groups[g].conns && w'.model.groups[g].marked == m.groups[g].marked
           && w'.model.groups[g].totalActive == |set t | t in m.groups[g].sandboxes && t in running && t in m.sandboxes
                && m.sandboxes[t].launched && m.sandboxes[t].confirmed|
  {
    var m, s := w.model, w.nextId;
    if g in m.groups && launches {
      var m1 := m.(sandboxes := m.sandboxes[s := Sandbox(g, {}, true, false, false)]);
      var ids := m.groups[g].sandboxes + {s};
      var m2 := m1.(groups := m1.groups[g := m1.groups[g].(sandboxes := ids)]);
      assert (set t | t in ids && Active(m2, running, t))
          == (set t | t in m.groups[g].sandboxes && t in running && t in m.sandboxes
                && m.sandboxes[t].launched && m.sandboxes[t].confirmed);
    }
  }

  /** A new device is in its sandbox and nowhere else; without the sandbox there is none. */
  lemma CreateDeviceAdds(w: World, s: Id, running: set<Id>)
    requires WorldValid(w)
    ensures
      var m, d, w' := w.model, w.nextId, Apply(w, CreateDevice(s), running);
      && w'.nextId == w.nextId + 1
      && if s !in m.sandboxes then w'.model == m
         else
           && w'.model.groups == m.groups && d !in m.devices
           && w'.model.devices.Keys == m.devices.Keys + {d} && w'.model.devices[d].sbox == s
           && (forall e | e in m.devices :: w'.model.devices[e] == m.devices[e])
           && w'.model.sandboxes.Keys == m.sandboxes.Keys
           && (forall t | t in m.sandboxes && t != s :: w'.model.sandboxes[t] == m.sandboxes[t])
           && w'.model.sandboxes[s].devices == m.sandboxes[s].devices + {d}
           && w'.model.sandboxes[s] == m.sandboxes[s].(devices := w'.model.sandboxes[s].devices)
  {
  }

  /** Erasing does what Lifetimes.After says, and nothing when there is no such thing. */
  lemma EraseLeavesAfter(w: World, x: Ref, running: set<Id>)
    requires Valid(w.model)
    ensures var w' := Apply(w, EraseOne(x), running);
      w'.nextId == w.nextId && w'.model == if Exists(w.model, x) then After(w.model, running, {x}) else w.model
  {
    EraseIsAfter(w.model, running, x);
  }

  lemma CountedWith(m: Model, m1: Model, before: set<Id>, s: Id, running: set<Id>)
    requires s !in m.sandboxes && m1.sandboxes.Keys == m.sandboxes.Keys + {s}
    requires forall t | t in m.sandboxes :: m1.sandboxes[t] == m.sandboxes[t]
    requires m1.sandboxes[s].launched && s in running
    ensures
      |set t | t in before + {s} && t in running && t in m1.sandboxes
         && m1.sandboxes[t].launched && (m1.sandboxes[t].confirmed || t == s)|
      == |set t | t in before && t in running && t in m.sandboxes
            && m.sandboxes[t].launched && m.sandboxes[t].confirmed| + 1
  {
    var counted := set t | t in before && t in running && t in m.sandboxes
                  && m.sandboxes[t].launched && m.sandboxes[t].confirmed;
    assert (set t | t in before + {s} && t in running && t in m1.sandboxes
              && m1.sandboxes[t].launched && (m1.sandboxes[t].confirmed || t == s)) == counted + {s};
  }

  /** A sandbox that is created, activated and running is counted by its group. */
  lemma ActivatedIsCounted(w: World, g: Id, running: set<Id>)
    requires WorldValid(w) && g in w.model.groups && w.nextId in running
    ensures
      var created := Apply(w, CreateSandbox(g, true), running);
      var confirmed := Apply(created, ConfirmActivated(w.nextId), running);
      && g in created.model.groups && g in confirmed.model.groups
      && confirmed.model.groups[g].totalActive == created.model.groups[g].totalActive + 1
  {
    var created := Apply(w, CreateSandbox(g, true), running);
    CreateSandboxAdds(w, g, true, running);
    ApplyKeepsValid(w, CreateSandbox(g, true), running);
    ConfirmCounts(created, w.nextId, running);
    CountedWith(w.model, created.model, w.model.groups[g].sandboxes, w.nextId, running);
  }
}
