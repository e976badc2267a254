/** The scanner is never stranded, and a probe in flight always owns the one pending connect. */
module PresenceRadio {
  import opened Common
  import opened Presence
  import S = PresenceSafety

  /** A slot that is probing owns the pending connect and has no connection handle yet. */
  predicate Owns(x: Slot, i: nat, r: Radio) {
    x.probing ==> x.used && r == Connecting(i) && x.handle == NO_HANDLE
  }

  ghost predicate ProbesOwn(s: State) {
    forall i :: 0 <= i < |s.slots| ==> Owns(s.slots[i], i, s.radio)
  }

  /** The pending connect belongs to a slot that is probing. */
  ghost predicate ConnectOwned(s: State) {
    s.radio.Connecting? ==> s.radio.slot < |s.slots| && s.slots[s.radio.slot].probing
  }

  /** The scanner runs, or a connect is pending, or the restart timer is armed. */
  ghost predicate Live(s: State) {
    s.radio.Idle? ==> s.armed
  }

  predicate Linked(x: Slot) {
    x.used && x.connected ==> x.present
  }

  /** A used slot with a live link is present. */
  ghost predicate LinkedPresent(s: State) {
    forall i :: 0 <= i < |s.slots| ==> Linked(s.slots[i])
  }

  /** What a step restores. */
  ghost predicate Kept(s: State, t: State) {
    && |t.slots| == |s.slots|
    && (ProbesOwn(s) ==> ProbesOwn(t))
    && (Live(s) ==> Live(t))
    && (ProbesOwn(s) && ConnectOwned(s) ==> ConnectOwned(t))
    && (LinkedPresent(s) ==> LinkedPresent(t))
  }

  /** A change of one slot that leaves the radio and the probe alone. */
  lemma OneSlot(s: State, t: State, i: nat)
    requires i < |s.slots| == |t.slots| && t.slots == s.slots[i := t.slots[i]] && t.radio == s.radio
    requires s.armed ==> t.armed
    requires t.slots[i].probing == s.slots[i].probing
    requires t.slots[i].probing ==> t.slots[i].used && (t.slots[i].handle == s.slots[i].handle)
    requires Linked(s.slots[i]) ==> Linked(t.slots[i])
    ensures Kept(s, t)
  {
    assert forall j :: 0 <= j < |s.slots| && j != i ==> t.slots[j] == s.slots[j];
    if ProbesOwn(s) { assert Owns(s.slots[i], i, s.radio); }
  }

  /** A slot outside any probe is claimed, allocated or freed. */
  lemma QuietSlot(s: State, t: State, i: nat)
    requires i < |s.slots| == |t.slots| && t.slots == s.slots[i := t.slots[i]] && t.radio == s.radio && t.armed == s.armed
    requires !s.slots[i].used && !t.slots[i].probing && Linked(t.slots[i])
    ensures Kept(s, t)
  {
    assert forall j :: 0 <= j < |s.slots| && j != i ==> t.slots[j] == s.slots[j];
    if ProbesOwn(s) { assert Owns(s.slots[i], i, s.radio); }
  }

  lemma SeenKeeps(s: State, a: Addr, bonded: bool, now: int, synced: bool)
    ensures Kept(s, Seen(s, a, bonded, now, synced))
    ensures Seen(s, a, bonded, now, synced).radio == s.radio && Seen(s, a, bonded, now, synced).armed == s.armed
  {
    var t := Seen(s, a, bonded, now, synced);
    var k := IndexOf(s.slots, a);
    var f := FirstFree(s.slots);
    if k < |s.slots| {
      assert t.slots == s.slots[k := t.slots[k]];
      OneSlot(s, t, k);
    } else if f < |s.slots| && bonded {
      assert t.slots == s.slots[f := t.slots[f]];
      QuietSlot(s, t, f);
    }
  }

  /** After a sighting the slot that holds the peer, if any, is present. */
  lemma SeenPresent(s: State, a: Addr, bonded: bool, now: int, synced: bool)
    ensures var t := Seen(s, a, bonded, now, synced);
            var k := IndexOf(t.slots, a);
            k < |t.slots| ==> t.slots[k].present
  {
    var t := Seen(s, a, bonded, now, synced);
    var k := IndexOf(s.slots, a);
    var f := FirstFree(s.slots);
    if k < |s.slots| {
      assert Holds(t.slots[k], a);
      assert forall j :: 0 <= j < |s.slots| && j != k ==> t.slots[j] == s.slots[j];
      assert IndexOf(t.slots, a) == k;
    } else if f < |s.slots| && bonded {
      assert Holds(t.slots[f], a);
      assert forall j :: 0 <= j < |s.slots| && j != f ==> t.slots[j] == s.slots[j];
      assert IndexOf(t.slots, a) == f;
    } else {
      assert t.slots == s.slots;
    }
  }

  lemma ProbeStartKeeps(s: State, i: nat, now: int, pairing: bool, reply: ProbeReply)
    requires i < |s.slots| && s.slots[i].used
    ensures Kept(s, ProbeStart(s, i, now, pairing, reply))
  {
    var t := ProbeStart(s, i, now, pairing, reply);
    assert forall j :: 0 <= j < |s.slots| && j != i ==> t.slots[j] == s.slots[j];
    if ProbesOwn(s) && !s.slots[i].probing && !pairing && !reply.cancelFails {
      assert Owns(t.slots[i], i, t.radio);
      forall j | 0 <= j < |s.slots| && j != i
        ensures Owns(t.slots[j], j, t.radio)
      {
        assert Owns(s.slots[j], j, s.radio);
      }
    }
    assert Linked(s.slots[i]) ==> Linked(t.slots[i]);
  }

  lemma GiveUpKeeps(s: State, i: nat, now: int, synced: bool)
    requires i < |s.slots| && !s.slots[i].connected
    ensures Kept(s, GiveUp(s, i, now, synced))
  {
    var t := GiveUp(s, i, now, synced);
    assert t.slots == s.slots[i := t.slots[i]];
    if ElapsedMs(now, s.slots[i].lastSeen) > s.timeoutMs && !s.slots[i].probing {
      assert !t.slots[i].probing;
      OneSlot(s, t, i);
    }
  }

  lemma TickSlotKeeps(s: State, i: nat, now: int, synced: bool, pairing: bool, reply: ProbeReply)
    requires i < |s.slots|
    ensures Kept(s, TickSlot(s, i, now, synced, pairing, reply))
  {
    if s.slots[i].used {
      var r := RefreshLinked(s, i, now);
      var c := CatchUp(r, i, now, synced);
      assert c.slots == s.slots[i := c.slots[i]];
      OneSlot(s, c, i);
      ProbeStartKeeps(c, i, now, pairing, reply);
      if !c.slots[i].connected {
        if c.slots[i].present {
          var p := ProbeStale(c, i, now, pairing, reply);
          S.ProbeStartFrame(c, i, now, pairing, reply);
          GiveUpKeeps(p, i, now, synced);
        }
      }
    }
  }

  lemma TickSlotKeepsOn(s: State, t: State, u: State, i: nat, now: int, synced: bool, pairing: bool, reply: ProbeReply)
    requires i < |t.slots| && Kept(s, t) && u == TickSlot(t, i, now, synced, pairing, reply)
    ensures Kept(s, u)
  {
    TickSlotKeeps(t, i, now, synced, pairing, reply);
  }

  lemma {:induction false} TickKeeps(s: State, n: nat, now: int, synced: bool, pairing: bool, replies: seq<ProbeReply>)
    requires n <= |s.slots| == |replies|
    ensures Kept(s, TickUpTo(s, n, now, synced, pairing, replies))
  {
    hide TickSlot;
    if n > 0 {
      var t := TickUpTo(s, n - 1, now, synced, pairing, replies);
      TickKeeps(s, n - 1, now, synced, pairing, replies);
      TickSlotKeepsOn(s, t, TickSlot(t, n - 1, now, synced, pairing, replies[n - 1]), n - 1, now, synced, pairing,
                      replies[n - 1]);
    }
  }

  lemma {:induction false} PreallocateKeeps(s: State, bonds: seq<Bond>, now: int)
    ensures Kept(s, Preallocate(s, bonds, now))
    ensures Preallocate(s, bonds, now).radio == s.radio && Preallocate(s, bonds, now).armed == s.armed
    decreases |bonds|
  {
    if bonds != [] {
      var f := FirstFree(s.slots);
      if IndexOf(s.slots, bonds[0].peer) < |s.slots| {
        PreallocateKeeps(s, bonds[1..], now);
      } else if f < |s.slots| {
        var t := AllocateAt(s, f, bonds[0], now);
        QuietSlot(s, t, f);
        PreallocateKeeps(t, bonds[1..], now);
      }
    }
  }

  /** The end of the pending connect leaves no slot probing and arms the timer. */
  lemma ConnectEnds(s: State, i: nat, x: Slot)
    requires ProbesOwn(s) && s.radio == Connecting(i) && i < |s.slots| && !x.probing
    ensures var t := ScheduleRestart(Put(s.(radio := Idle), i, x));
            ProbesOwn(t) && Live(t) && ConnectOwned(t)
  {
    forall j | 0 <= j < |s.slots|
      ensures j != i ==> !s.slots[j].probing
    {
      assert Owns(s.slots[j], j, s.radio);
    }
  }

  /** A probe that connects: its link is marked first, then the sighting makes its slot present. */
  lemma ProbeConnectedKeeps(s: State, i: nat, handle: int, bonded: bool, now: int, synced: bool)
    requires ProbesOwn(s) && S.Distinct(s.slots) && s.radio == Connecting(i) && i < |s.slots|
    ensures Kept(s, ProbeConnected(s, i, handle, bonded, now, synced))
  {
    var x := s.slots[i].(handle := handle, connected := true, probing := false);
    var t := Put(s.(radio := Idle), i, x);
    ConnectEnds(s, i, x);
    assert ProbesOwn(t) by {
      assert t.slots == ScheduleRestart(t).slots;
      assert forall j :: 0 <= j < |t.slots| ==> Owns(ScheduleRestart(t).slots[j], j, Idle);
    }
    SeenKeeps(t, x.addr, bonded, now, synced);
    var u := Seen(t, x.addr, bonded, now, synced);
    if LinkedPresent(s) { LinkedAfter(s, t, i, bonded, now, synced); }
    assert ProbesOwn(ScheduleRestart(u)) by {
      forall j | 0 <= j < |u.slots|
        ensures Owns(u.slots[j], j, u.radio)
      {
      }
    }
  }

  lemma LinkedAfter(s: State, t: State, i: nat, bonded: bool, now: int, synced: bool)
    requires LinkedPresent(s) && S.Distinct(s.slots) && i < |s.slots|
    requires |t.slots| == |s.slots| && t.slots == s.slots[i := t.slots[i]]
    requires t.slots[i].used == s.slots[i].used && t.slots[i].addr == s.slots[i].addr
    ensures LinkedPresent(Seen(t, t.slots[i].addr, bonded, now, synced))
  {
    var a := t.slots[i].addr;
    var u := Seen(t, a, bonded, now, synced);
    forall j | 0 <= j < |u.slots|
      ensures Linked(u.slots[j])
    {
      if j == i {
        if t.slots[i].used {
          assert Holds(t.slots[i], a);
          assert IndexOf(t.slots, a) == i;
        }
      } else {
        assert Linked(s.slots[j]);
      }
    }
  }

  lemma HidKeeps(s: State, a: Addr, bonded: bool, now: int, synced: bool)
    ensures Kept(s, HidConnected(s, a, bonded, now, synced))
    ensures Kept(s, HidDisconnected(s, a, now))
  {
    var t := Seen(s, a, bonded, now, synced);
    SeenKeeps(s, a, bonded, now, synced);
    SeenPresent(s, a, bonded, now, synced);
    var u := HidConnected(s, a, bonded, now, synced);
    var k := IndexOf(t.slots, a);
    if k < |t.slots| {
      OneSlot(t, u, k);
    }
    var d := HidDisconnected(s, a, now);
    var j := IndexOf(s.slots, a);
    if j < |s.slots| { OneSlot(s, d, j); }
  }

  lemma OtherCallbacks(s: State, st: Step)
    requires ProbesOwn(s) && Live(s) && Enabled(s, st.action)
    requires st.action.ProbeFail? || st.action.ProbeLinkDown?
    ensures Kept(s, Next(s, st)) && Live(Next(s, st))
  {
    match st.action
    case ProbeFail(i) =>
      ConnectEnds(s, i, s.slots[i].(probing := false, lastProbe := st.now));
      var t := Next(s, st);
      if LinkedPresent(s) {
        forall j | 0 <= j < |t.slots| ensures Linked(t.slots[j]) { assert Linked(s.slots[j]); }
      }
    case ProbeLinkDown(i, h) =>
      assert Owns(s.slots[i], i, s.radio);
      if s.slots[i].handle == h { OneSlot(s, Next(s, st), i); }
  }

  /** A bond is revoked while its probe is pending. */
  predicate Disturbs(s: State, a: Action) {
    a.RevokeBond? && s.radio == Connecting(IndexOf(s.slots, a.peer))
  }

  lemma AdminKeeps(s: State, st: Step)
    requires ProbesOwn(s) && Live(s) && LinkedPresent(s) && Enabled(s, st.action)
    requires st.action.WipeEvents? || st.action.RevokeBond? || st.action.ChangeTimeout? || st.action.RestartScan?
    ensures var t := Next(s, st); ProbesOwn(t) && Live(t) && LinkedPresent(t)
    ensures ConnectOwned(s) ==> (ConnectOwned(Next(s, st)) <==> !Disturbs(s, st.action))
  {
    var t := Next(s, st);
    forall j | 0 <= j < |t.slots|
      ensures Owns(t.slots[j], j, t.radio) && Linked(t.slots[j])
    {
      assert Owns(s.slots[j], j, s.radio) && Linked(s.slots[j]);
    }
  }

  lemma NextKeeps(s: State, st: Step)
    requires ProbesOwn(s) && Live(s) && LinkedPresent(s) && S.Distinct(s.slots) && Enabled(s, st.action)
    ensures var t := Next(s, st); ProbesOwn(t) && Live(t) && LinkedPresent(t)
    ensures ConnectOwned(s) ==> (ConnectOwned(Next(s, st)) <==> !Disturbs(s, st.action))
  {
    match st.action
    case Sighting(a, bonded) => SeenKeeps(s, a, bonded, st.now, st.synced);
    case Ticks(pairing, replies) => TickKeeps(s, |s.slots|, st.now, st.synced, pairing, replies);
    case ProbeOk(i, h, bonded) => ProbeConnectedKeeps(s, i, h, bonded, st.now, st.synced);
    case ProbeFail(i) => OtherCallbacks(s, st);
    case ProbeLinkDown(i, h) => OtherCallbacks(s, st);
    case HidUp(a, bonded) => HidKeeps(s, a, bonded, st.now, st.synced);
    case HidDown(a) => HidKeeps(s, a, false, st.now, st.synced);
    case AllocateBonds(peers, log) => PreallocateKeeps(s, BondsOf(peers, log), st.now);
    case _ => AdminKeeps(s, st);
  }

  /** No bond is revoked while its own probe waits for the outcome of the connect. */
  ghost predicate RevokesClear(r: Run)
    requires r.Legal()
  {
    r.Then? ==> RevokesClear(r.before) && !Disturbs(r.before.End(), r.step.action)
  }

  lemma {:induction false} RunKeeps(r: Run)
    requires r.Legal()
    ensures ProbesOwn(r.End()) && Live(r.End()) && LinkedPresent(r.End())
    ensures RevokesClear(r) ==> ConnectOwned(r.End())
  {
    match r
    case Booted(now, stored, peers, log) =>
      var blank := State(seq(SLOTS, i => EMPTY_SLOT), TIMEOUT_DEFAULT_S * 1000, Idle, false, []);
      PreallocateKeeps(LoadTimeout(blank, stored), BondsOf(peers, log), now);
    case Then(before, step) =>
      RunKeeps(before);
      S.RunKeeps(before);
      NextKeeps(before.End(), step);
  }

  /** In every reachable state the scanner runs, a connect is pending, or the restart timer is armed;
      and when that timer fires the scanner runs or a connect is pending. */
  lemma ScannerNeverStranded(r: Run)
    requires r.Legal()
    ensures r.End().radio.Scanning? || r.End().radio.Connecting? || r.End().armed
    ensures forall now, synced {:trigger Step(now, synced, RestartScan)} :: r.End().armed ==>
              !Next(r.End(), Step(now, synced, RestartScan)).radio.Idle?
  {
    RunKeeps(r);
  }

  /** At most one slot is probing, and it owns the pending connect. */
  lemma OneProbeAtATime(r: Run, i: nat, j: nat)
    requires r.Legal() && i < |r.End().slots| && j < |r.End().slots|
    requires r.End().slots[i].probing && r.End().slots[j].probing
    ensures i == j && r.End().radio == Connecting(i)
  {
    RunKeeps(r);
    assert Owns(r.End().slots[i], i, r.End().radio) && Owns(r.End().slots[j], j, r.End().radio);
  }

  /** Unless a bond was revoked while it was being probed, the pending connect has a slot waiting for its
      outcome. */
  lemma ConnectHasOwner(r: Run, i: nat)
    requires r.Legal() && RevokesClear(r) && r.End().radio == Connecting(i)
    ensures i < |r.End().slots| && r.End().slots[i].probing
  {
    RunKeeps(r);
  }
}
