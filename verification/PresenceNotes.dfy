/** What a run notes, step by step: when, and on whose word. */
module PresenceNotes {
  import opened Common
  import opened EventLines
  import opened Presence
  import L = LatestEvents
  import S = PresenceSafety

  /** Between `s` and `t` only notes stamped `now` were added, and no peer was resumed. */
  ghost predicate Adds(s: State, t: State, now: int) {
    s.notes <= t.notes
    && forall i :: |s.notes| <= i < |t.notes| ==> t.notes[i].at == now && !t.notes[i].Resumed?
  }

  lemma AddsOn(s: State, t: State, u: State, now: int)
    requires Adds(s, t, now) && Adds(t, u, now)
    ensures Adds(s, u, now)
  {
  }

  lemma SeenAdds(s: State, a: Addr, bonded: bool, now: int, synced: bool)
    ensures Adds(s, Seen(s, a, bonded, now, synced), now)
  {
  }

  lemma CaughtUpAdds(s: State, i: nat, now: int, synced: bool)
    requires i < |s.slots|
    ensures Adds(s, CatchUp(RefreshLinked(s, i, now), i, now, synced), now)
  {
    var r := RefreshLinked(s, i, now);
    assert Adds(s, r, now) && Adds(r, CatchUp(r, i, now, synced), now);
  }

  lemma GiveUpAdds(s: State, i: nat, now: int, synced: bool)
    requires i < |s.slots|
    ensures Adds(s, GiveUp(s, i, now, synced), now)
  {
  }

  lemma ProbesAddNothing(s: State, i: nat, now: int, pairing: bool, reply: ProbeReply)
    requires i < |s.slots|
    ensures ReprobeAway(s, i, now, pairing, reply).notes == s.notes
    ensures ProbeStale(s, i, now, pairing, reply).notes == s.notes
  {
    S.ProbeStartFrame(s, i, now, pairing, reply);
  }

  lemma TickSlotAdds(s: State, i: nat, now: int, synced: bool, pairing: bool, reply: ProbeReply)
    requires i < |s.slots|
    ensures Adds(s, TickSlot(s, i, now, synced, pairing, reply), now)
  {
    var c := CatchUp(RefreshLinked(s, i, now), i, now, synced);
    CaughtUpAdds(s, i, now, synced);
    ProbesAddNothing(c, i, now, pairing, reply);
    var p := ProbeStale(c, i, now, pairing, reply);
    GiveUpAdds(p, i, now, synced);
    assert Adds(s, GiveUp(p, i, now, synced), now) by {
      assert Adds(s, p, now);
      AddsOn(s, p, GiveUp(p, i, now, synced), now);
    }
  }

  lemma TickSlotAddsOn(s: State, t: State, u: State, i: nat, now: int, synced: bool, pairing: bool, reply: ProbeReply)
    requires i < |t.slots| && Adds(s, t, now) && u == TickSlot(t, i, now, synced, pairing, reply)
    ensures Adds(s, u, now)
  {
    TickSlotAdds(t, i, now, synced, pairing, reply);
    AddsOn(s, t, u, now);
  }

  lemma {:induction false} TickAdds(s: State, n: nat, now: int, synced: bool, pairing: bool, replies: seq<ProbeReply>)
    requires n <= |s.slots| == |replies|
    ensures Adds(s, TickUpTo(s, n, now, synced, pairing, replies), now)
  {
    if n > 0 {
      var t := TickUpTo(s, n - 1, now, synced, pairing, replies);
      TickAdds(s, n - 1, now, synced, pairing, replies);
      TickSlotAddsOn(s, t, TickSlot(t, n - 1, now, synced, pairing, replies[n - 1]), n - 1, now, synced, pairing,
                     replies[n - 1]);
    }
  }

  /** A peer is resumed because the lookup in the stored log answered IN. */
  predicate Resumes(n: Note, now: int, peers: seq<Addr>, log: seq<Line>) {
    n.Resumed? && n.at == now && n.peer in peers && L.LatestOf(log, n.peer) == L.Latest(true, In)
  }

  /** The notes of an allocation are resumptions of bonds that were in. */
  lemma {:induction false} PreallocateNotes(s: State, bonds: seq<Bond>, now: int)
    ensures var t := Preallocate(s, bonds, now);
            s.notes <= t.notes
            && forall i :: |s.notes| <= i < |t.notes| ==>
                 t.notes[i].Resumed? && t.notes[i].at == now && Bond(t.notes[i].peer, true) in bonds
    decreases |bonds|
  {
    if bonds != [] {
      var f := FirstFree(s.slots);
      if IndexOf(s.slots, bonds[0].peer) < |s.slots| {
        PreallocateNotes(s, bonds[1..], now);
      } else if f < |s.slots| {
        PreallocateNotes(AllocateAt(s, f, bonds[0], now), bonds[1..], now);
      }
    }
  }

  lemma BondInMeansLog(peers: seq<Addr>, log: seq<Line>, a: Addr)
    requires Bond(a, true) in BondsOf(peers, log)
    ensures a in peers && L.LatestOf(log, a) == L.Latest(true, In)
  {
    var i :| 0 <= i < |peers| && BondsOf(peers, log)[i] == Bond(a, true);
    assert BondOf(peers[i], log) == Bond(a, true);
  }

  /** The notes of a boot or an allocation say who was resumed from the log. */
  lemma AllocationNotes(s: State, peers: seq<Addr>, log: seq<Line>, now: int)
    ensures var t := Preallocate(s, BondsOf(peers, log), now);
            s.notes <= t.notes && forall i :: |s.notes| <= i < |t.notes| ==> Resumes(t.notes[i], now, peers, log)
  {
    PreallocateNotes(s, BondsOf(peers, log), now);
    var t := Preallocate(s, BondsOf(peers, log), now);
    forall i | |s.notes| <= i < |t.notes|
      ensures Resumes(t.notes[i], now, peers, log)
    {
      BondInMeansLog(peers, log, t.notes[i].peer);
    }
  }

  lemma HidAdds(s: State, a: Addr, bonded: bool, now: int, synced: bool)
    ensures Adds(s, HidConnected(s, a, bonded, now, synced), now) && Adds(s, HidDisconnected(s, a, now), now)
  {
    SeenAdds(s, a, bonded, now, synced);
  }

  /** Every step but an allocation. */
  lemma NextAdds(s: State, st: Step)
    requires Enabled(s, st.action) && !st.action.AllocateBonds?
    ensures Adds(s, Next(s, st), st.now)
  {
    match st.action
    case Sighting(a, bonded) => SeenAdds(s, a, bonded, st.now, st.synced);
    case Ticks(pairing, replies) => TickAdds(s, |s.slots|, st.now, st.synced, pairing, replies);
    case ProbeOk(i, h, bonded) =>
      var t := Put(s.(radio := Idle), i, s.slots[i].(handle := h, connected := true, probing := false));
      SeenAdds(t, s.slots[i].addr, bonded, st.now, st.synced);
    case HidUp(a, bonded) => HidAdds(s, a, bonded, st.now, st.synced);
    case HidDown(a) => HidAdds(s, a, false, st.now, st.synced);
    case _ =>
  }

  // ---------- whole runs ----------

  /** Some boot or allocation of the run resumed the peer, and the log it read answered IN for it. */
  ghost predicate FromLog(r: Run, n: Note) {
    match r
    case Booted(now, _, peers, log) => Resumes(n, now, peers, log)
    case Then(before, step) =>
      FromLog(before, n)
      || (step.action.AllocateBonds? && Resumes(n, step.now, step.action.peers, step.action.log))
  }

  lemma {:induction false} ResumedFromLog(r: Run, k: nat)
    requires r.Legal() && k < |r.End().notes| && r.End().notes[k].Resumed?
    ensures FromLog(r, r.End().notes[k])
  {
    match r
    case Booted(now, stored, peers, log) =>
      var blank := State(seq(SLOTS, i => EMPTY_SLOT), TIMEOUT_DEFAULT_S * 1000, Idle, false, []);
      AllocationNotes(LoadTimeout(blank, stored), peers, log, now);
    case Then(before, step) =>
      var s := before.End();
      if step.action.AllocateBonds? {
        AllocationNotes(s, step.action.peers, step.action.log, step.now);
      } else {
        NextAdds(s, step);
      }
      if k < |s.notes| { ResumedFromLog(before, k); }
  }

  /** The notes of a run are in the order of their times, from the boot on. */
  lemma {:induction false} NotesInOrder(r: Run)
    requires r.Legal()
    ensures forall i, j :: 0 <= i < j < |r.End().notes| ==> r.End().notes[i].at <= r.End().notes[j].at
    ensures forall i :: 0 <= i < |r.End().notes| ==> 0 < r.End().notes[i].at <= r.Clock()
  {
    match r
    case Booted(now, stored, peers, log) =>
      var blank := State(seq(SLOTS, i => EMPTY_SLOT), TIMEOUT_DEFAULT_S * 1000, Idle, false, []);
      AllocationNotes(LoadTimeout(blank, stored), peers, log, now);
    case Then(before, step) =>
      NotesInOrder(before);
      var s := before.End();
      if step.action.AllocateBonds? {
        AllocationNotes(s, step.action.peers, step.action.log, step.now);
      } else {
        NextAdds(s, step);
      }
      assert r.End() == Next(s, step);
      ClockPositive(before);
  }

  lemma {:induction false} ClockPositive(r: Run)
    requires r.Legal()
    ensures r.Clock() > 0
  {
    if r.Then? { ClockPositive(r.before); }
  }

  predicate Tells(n: Note, a: Addr) {
    (n.Recorded? || n.Resumed?) && n.peer == a
  }

  lemma {:induction false} LatestWitness(h: seq<Note>, a: Addr) returns (j: nat)
    requires S.Latest(h, a) == Some(In)
    ensures j < |h| && Tells(h[j], a) && (h[j].Recorded? ==> h[j].kind.In?)
    ensures forall m :: j < m < |h| ==> !h[m].Wiped? && !Tells(h[m], a)
  {
    j := |h| - 1;
    if !Tells(h[j], a) { j := LatestWitness(h[..j], a); }
  }

  /** No orphan OUT, down to the log: the last thing said of the peer before an OUT, with no wipe since, is a
      recorded IN, or its resumption at a boot or allocation at which the lookup in the stored log, over all
      its lines, answered IN. */
  lemma OutFollowsIn(r: Run, k: nat) returns (j: nat)
    requires r.Legal()
    requires k < |r.End().notes| && r.End().notes[k].Recorded? && r.End().notes[k].kind.Out?
    ensures var h, a := r.End().notes, r.End().notes[k].peer;
            j < k && Tells(h[j], a)
            && (if h[j].Recorded? then h[j].kind.In? else FromLog(r, h[j]))
            && forall m :: j < m < k ==> !h[m].Wiped? && !Tells(h[m], a)
  {
    S.NoOrphanOut(r, k);
    j := LatestWitness(r.End().notes[..k], r.End().notes[k].peer);
    if r.End().notes[j].Resumed? { ResumedFromLog(r, j); }
  }
}
