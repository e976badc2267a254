/** What every step of the presence machine keeps, and what follows for whole runs: no OUT without a
    preceding IN, and no OUT while there is recent evidence of presence. */
module PresenceSafety {
  import opened Common
  import opened Presence

  // ---------- reading the notes ----------

  /** The kind of the latest recorded call for `a` since the last wipe; a resumed peer counts as In. */
  function Latest(h: seq<Note>, a: Addr): Option<Kind> {
    if h == [] then None
    else
      match h[|h| - 1]
      case Wiped(_) => None
      case Recorded(p, k, _) => if p == a then Some(k) else Latest(h[..|h| - 1], a)
      case Resumed(p, _) => if p == a then Some(In) else Latest(h[..|h| - 1], a)
      case _ => Latest(h[..|h| - 1], a)
  }

  /** Every proof of presence of `a` is at most as recent as `t`. */
  ghost predicate SeenBy(h: seq<Note>, a: Addr, t: int) {
    forall n :: n in h && n.Refreshed? && n.peer == a ==> n.at <= t
  }

  /** Note `k` is not an OUT without a preceding IN. */
  ghost predicate Backed(h: seq<Note>, k: nat)
    requires k < |h|
  {
    h[k].Recorded? && h[k].kind.Out? ==> Latest(h[..k], h[k].peer) == Some(In)
  }

  /** If note `k` says that a peer left, its last proof of presence was more than the timeout ago. */
  ghost predicate Timed(h: seq<Note>, k: nat)
    requires k < |h|
  {
    h[k].Left? ==>
      forall j :: 0 <= j < k && h[j].Refreshed? && h[j].peer == h[k].peer
                  ==> ElapsedMs(h[k].at, h[j].at) > h[k].timeoutMs
  }

  /** An OUT is recorded only for a peer that left in the same step. */
  ghost predicate Follows(h: seq<Note>, k: nat)
    requires k < |h|
  {
    h[k].Recorded? && h[k].kind.Out? ==>
      k > 0 && h[k - 1].Left? && h[k - 1].peer == h[k].peer && h[k - 1].at == h[k].at
  }

  ghost predicate NotesOk(h: seq<Note>) {
    forall k :: 0 <= k < |h| ==> Backed(h, k) && Timed(h, k) && Follows(h, k)
  }

  lemma NotesGrow(h: seq<Note>, n: Note)
    requires NotesOk(h)
    requires Backed(h + [n], |h|) && Timed(h + [n], |h|) && Follows(h + [n], |h|)
    ensures NotesOk(h + [n])
  {
    var g := h + [n];
    forall k | 0 <= k < |g|
      ensures Backed(g, k) && Timed(g, k) && Follows(g, k)
    {
      if k < |h| {
        assert Backed(h, k) && Timed(h, k) && Follows(h, k);
        assert g[..k] == h[..k];
      }
    }
  }

  lemma LatestGrows(h: seq<Note>, n: Note, a: Addr)
    ensures Latest(h + [n], a) ==
            match n
            case Wiped(_) => None
            case Recorded(p, k, _) => if p == a then Some(k) else Latest(h, a)
            case Resumed(p, _) => if p == a then Some(In) else Latest(h, a)
            case _ => Latest(h, a)
  {
    assert (h + [n])[..|h|] == h;
  }

  // ---------- the invariant ----------

  /** An acknowledged slot is present and its peer's latest call was IN; a present slot is used and
      knows its latest proof of presence. */
  ghost predicate SlotOk(x: Slot, h: seq<Note>, now: int) {
    && (x.present ==> x.used && SeenBy(h, x.addr, x.lastSeen))
    && (x.ack ==> x.present && Latest(h, x.addr) == Some(In))
    && x.lastSeen <= now
    && x.lastProbe <= now
  }

  ghost predicate Distinct(slots: seq<Slot>) {
    forall i, j :: 0 <= i < j < |slots| && slots[i].used && slots[j].used ==> slots[i].addr != slots[j].addr
  }

  ghost predicate AllOk(s: State, now: int) {
    forall i :: 0 <= i < |s.slots| ==> SlotOk(s.slots[i], s.notes, now)
  }

  ghost predicate NotesPast(h: seq<Note>, now: int) {
    forall n :: n in h ==> n.at <= now
  }

  ghost predicate Inv(s: State, now: int) {
    && now > 0
    && |s.slots| == SLOTS
    && TIMEOUT_MIN_S * 1000 <= s.timeoutMs <= TIMEOUT_MAX_S * 1000
    && Distinct(s.slots)
    && AllOk(s, now)
    && NotesOk(s.notes)
    && NotesPast(s.notes, now)
  }

  /** Changing one slot, keeping its peer, keeps the invariant if the slot stays good. */
  lemma PutKeeps(s: State, i: nat, x: Slot, now: int)
    requires Inv(s, now) && i < |s.slots| && SlotOk(x, s.notes, now)
    requires x.used ==> s.slots[i].used && x.addr == s.slots[i].addr
    ensures Inv(Put(s, i, x), now)
  {
  }

  /** A note about slot `i`'s peer leaves the other slots good. */
  lemma LogKeeps(s: State, i: nat, n: Note, x: Slot, now: int)
    requires Inv(s, now) && i < |s.slots| && s.slots[i].used
    requires !n.Wiped? && n.peer == s.slots[i].addr && n.at == now
    requires x.used && x.addr == s.slots[i].addr && SlotOk(x, s.notes + [n], now)
    requires n.Recorded? && n.kind.Out? ==>
               Latest(s.notes, n.peer) == Some(In) &&
               |s.notes| > 0 && s.notes[|s.notes| - 1] == Left(n.peer, now, s.timeoutMs)
    requires n.Left? ==>
               n.timeoutMs == s.timeoutMs && s.slots[i].present &&
               ElapsedMs(now, s.slots[i].lastSeen) > s.timeoutMs
    ensures Inv(Put(Log(s, n), i, x), now)
  {
    var t := Put(Log(s, n), i, x);
    forall j | 0 <= j < |t.slots|
      ensures SlotOk(t.slots[j], t.notes, now)
    {
      if j != i {
        assert SlotOk(s.slots[j], s.notes, now);
        LatestGrows(s.notes, n, s.slots[j].addr);
        if s.slots[j].used {
          assert s.slots[j].addr != s.slots[i].addr by { OtherAddr(s, i, j); }
        }
      }
    }
    assert (s.notes + [n])[..|s.notes|] == s.notes;
    if n.Left? {
      assert SlotOk(s.slots[i], s.notes, now);
      forall j | 0 <= j < |s.notes| && s.notes[j].Refreshed? && s.notes[j].peer == n.peer
        ensures ElapsedMs(n.at, s.notes[j].at) > n.timeoutMs
      {
        assert s.notes[j] in s.notes;
      }
    }
    NotesGrow(s.notes, n);
  }

  lemma OtherAddr(s: State, i: nat, j: nat)
    requires Distinct(s.slots) && i < |s.slots| && j < |s.slots| && i != j
    requires s.slots[i].used && s.slots[j].used
    ensures s.slots[i].addr != s.slots[j].addr
  {
  }

  lemma Later(s: State, before: int, now: int)
    requires Inv(s, before) && before <= now
    ensures Inv(s, now)
  {
  }

  // ---------- every step keeps it ----------

  /** A sighting of a peer that no slot holds changes only the notes. */
  lemma StrayKeeps(s: State, a: Addr, now: int)
    requires Inv(s, now) && IndexOf(s.slots, a) == |s.slots|
    ensures Inv(Log(s, Refreshed(a, now)), now)
  {
    var n := Refreshed(a, now);
    forall j | 0 <= j < |s.slots|
      ensures SlotOk(s.slots[j], s.notes + [n], now)
    {
      assert SlotOk(s.slots[j], s.notes, now) && !Holds(s.slots[j], a);
      LatestGrows(s.notes, n, s.slots[j].addr);
    }
    NotesGrow(s.notes, n);
  }

  /** A free slot may be given to a peer that no slot holds. */
  lemma FillKeeps(s: State, f: nat, x: Slot, now: int)
    requires Inv(s, now) && f < |s.slots| && !s.slots[f].used
    requires IndexOf(s.slots, x.addr) == |s.slots| && SlotOk(x, s.notes, now)
    ensures Inv(Put(s, f, x), now)
  {
    assert forall j :: 0 <= j < |s.slots| ==> !Holds(s.slots[j], x.addr);
  }

  lemma RecordInKeeps(s: State, i: nat, now: int)
    requires Inv(s, now) && i < |s.slots| && s.slots[i].present
    ensures Inv(RecordIn(s, i, now), now)
  {
    var x := s.slots[i];
    assert SlotOk(x, s.notes, now);
    LatestGrows(s.notes, Recorded(x.addr, In, now), x.addr);
    LogKeeps(s, i, Recorded(x.addr, In, now), x.(ack := true), now);
  }

  /** A proof of presence for the peer of slot `i`, which refreshes the slot. */
  lemma RefreshKeeps(s: State, i: nat, x: Slot, now: int)
    requires Inv(s, now) && i < |s.slots| && s.slots[i].used
    requires x.used && x.addr == s.slots[i].addr && x.lastSeen == now && x.lastProbe <= now
    requires x.ack ==> s.slots[i].ack && x.present
    ensures Inv(Put(Log(s, Refreshed(x.addr, now)), i, x), now)
  {
    assert SlotOk(s.slots[i], s.notes, now);
    LatestGrows(s.notes, Refreshed(x.addr, now), x.addr);
    LogKeeps(s, i, Refreshed(x.addr, now), x, now);
  }

  lemma SeenKeeps(s: State, a: Addr, bonded: bool, now: int, synced: bool)
    requires Inv(s, now)
    ensures Inv(Seen(s, a, bonded, now, synced), now)
  {
    var r := Log(s, Refreshed(a, now));
    var k := IndexOf(s.slots, a);
    if k < |s.slots| {
      var x := s.slots[k].(lastSeen := now, present := true);
      assert SlotOk(s.slots[k], s.notes, now);
      RefreshKeeps(s, k, x, now);
      if !x.ack && synced { RecordInKeeps(Put(r, k, x), k, now); }
    } else {
      StrayKeeps(s, a, now);
      var f := FirstFree(r.slots);
      if f < |r.slots| && bonded {
        var c := Claimed(r.slots[f], a);
        var x := c.(lastSeen := now, present := true);
        assert SlotOk(r.slots[f], r.notes, now);
        FillKeeps(r, f, x, now);
        assert Put(Put(r, f, c), f, x) == Put(r, f, x);
        if synced { RecordInKeeps(Put(r, f, x), f, now); }
      }
    }
  }

  lemma ProbeStartKeeps(s: State, i: nat, now: int, pairing: bool, reply: ProbeReply)
    requires Inv(s, now) && i < |s.slots|
    ensures Inv(ProbeStart(s, i, now, pairing, reply), now)
  {
    var x := s.slots[i];
    assert SlotOk(x, s.notes, now);
    PutKeeps(s, i, x.(lastProbe := now), now);
    PutKeeps(s, i, x.(probing := true, handle := NO_HANDLE), now);
    PutKeeps(s, i, x.(handle := NO_HANDLE, lastProbe := now), now);
  }

  lemma ProbeStartFrame(s: State, i: nat, now: int, pairing: bool, reply: ProbeReply)
    requires i < |s.slots|
    ensures var t := ProbeStart(s, i, now, pairing, reply);
            && t.notes == s.notes && t.timeoutMs == s.timeoutMs
            && t.slots[i] == s.slots[i].(probing := t.slots[i].probing, handle := t.slots[i].handle,
                                         lastProbe := t.slots[i].lastProbe)
            && forall j :: 0 <= j < |s.slots| && j != i ==> t.slots[j] == s.slots[j]
  {
  }

  lemma GiveUpKeeps(s: State, i: nat, now: int, synced: bool)
    requires Inv(s, now) && i < |s.slots| && s.slots[i].present
    ensures Inv(GiveUp(s, i, now, synced), now)
  {
    var x := s.slots[i];
    if ElapsedMs(now, x.lastSeen) > s.timeoutMs && !x.probing {
      var gone := x.(present := false, ack := false);
      var left := Left(x.addr, now, s.timeoutMs);
      assert SlotOk(x, s.notes, now);
      LatestGrows(s.notes, left, x.addr);
      LogKeeps(s, i, left, x, now);
      LogKeeps(s, i, left, gone, now);
      var t := Put(Log(s, left), i, x);
      assert t == Log(s, left);
      if x.ack && synced {
        LogKeeps(t, i, Recorded(x.addr, Out, now), gone, now);
      }
    }
  }

  lemma TickSlotKeeps(s: State, i: nat, now: int, synced: bool, pairing: bool, reply: ProbeReply)
    requires Inv(s, now) && i < |s.slots|
    ensures Inv(TickSlot(s, i, now, synced, pairing, reply), now)
  {
    var x := s.slots[i];
    if x.used {
      assert SlotOk(x, s.notes, now);
      var r := RefreshLinked(s, i, now);
      if x.connected {
        RefreshKeeps(s, i, x.(lastSeen := now, present := true, ack := if x.present then x.ack else false), now);
      }
      var c := CatchUp(r, i, now, synced);
      if r.slots[i].present && !r.slots[i].ack && synced { RecordInKeeps(r, i, now); }
      ProbeStartKeeps(c, i, now, pairing, reply);
      ProbeStartFrame(c, i, now, pairing, reply);
      if !c.slots[i].connected && c.slots[i].present {
        GiveUpKeeps(ProbeStale(c, i, now, pairing, reply), i, now, synced);
      }
    }
  }

  lemma {:induction false} TickKeeps(s: State, n: nat, now: int, synced: bool, pairing: bool, replies: seq<ProbeReply>)
    requires Inv(s, now) && n <= |s.slots| == |replies|
    ensures Inv(TickUpTo(s, n, now, synced, pairing, replies), now)
  {
    if n > 0 {
      TickKeeps(s, n - 1, now, synced, pairing, replies);
      var t := TickUpTo(s, n - 1, now, synced, pairing, replies);
      TickSlotKeeps(t, n - 1, now, synced, pairing, replies[n - 1]);
      assert TickUpTo(s, n, now, synced, pairing, replies)
          == TickSlot(t, n - 1, now, synced, pairing, replies[n - 1]);
    }
  }

  lemma HidKeeps(s: State, a: Addr, bonded: bool, now: int, synced: bool)
    requires Inv(s, now)
    ensures Inv(HidConnected(s, a, bonded, now, synced), now)
    ensures Inv(HidDisconnected(s, a, now), now)
  {
    SeenKeeps(s, a, bonded, now, synced);
    var t := Seen(s, a, bonded, now, synced);
    var k := IndexOf(t.slots, a);
    if k < |t.slots| {
      assert SlotOk(t.slots[k], t.notes, now);
      PutKeeps(t, k, t.slots[k].(connected := true), now);
    }
    var j := IndexOf(s.slots, a);
    if j < |s.slots| {
      assert SlotOk(s.slots[j], s.notes, now);
      RefreshKeeps(s, j, s.slots[j].(connected := false, lastSeen := now), now);
    }
  }

  lemma ProbeEndKeeps(s: State, i: nat, handle: int, bonded: bool, now: int, synced: bool)
    requires Inv(s, now) && i < |s.slots|
    ensures Inv(ProbeConnected(s, i, handle, bonded, now, synced), now)
    ensures Inv(ProbeFailed(s, i, now), now)
  {
    var x := s.slots[i];
    assert SlotOk(x, s.notes, now);
    var up := x.(handle := handle, connected := true, probing := false);
    PutKeeps(s.(radio := Idle), i, up, now);
    SeenKeeps(Put(s.(radio := Idle), i, up), x.addr, bonded, now, synced);
    PutKeeps(s.(radio := Idle), i, x.(probing := false, lastProbe := now), now);
  }

  /** The callback of a link that went down may hit a slot that was freed meanwhile. */
  lemma LinkDownKeeps(s: State, i: nat, handle: int, now: int)
    requires Inv(s, now) && i < |s.slots|
    ensures Inv(LinkDown(s, i, handle, now), now)
  {
    var x := s.slots[i];
    if x.handle == handle {
      var down := x.(handle := NO_HANDLE, probing := false, connected := false, lastSeen := now, lastProbe := now);
      assert SlotOk(x, s.notes, now);
      if x.used {
        RefreshKeeps(s, i, down, now);
      } else {
        PutKeeps(s, i, down, now);
      }
    }
  }

  lemma WipeKeeps(s: State, now: int)
    requires Inv(s, now)
    ensures Inv(Wipe(s, now), now)
  {
    var t := Wipe(s, now);
    forall j | 0 <= j < |t.slots|
      ensures SlotOk(t.slots[j], t.notes, now)
    {
      assert SlotOk(s.slots[j], s.notes, now);
    }
    NotesGrow(s.notes, Wiped(now));
  }

  lemma AllocateKeeps(s: State, b: Bond, now: int)
    requires Inv(s, now)
    requires IndexOf(s.slots, b.peer) == |s.slots|
    ensures var f := FirstFree(s.slots); f < |s.slots| ==> Inv(AllocateAt(s, f, b, now), now)
  {
    var f := FirstFree(s.slots);
    if f < |s.slots| {
      var away := Allocated(Bond(b.peer, false), now);
      FillKeeps(s, f, away, now);
      if b.wasIn {
        var t := Put(s, f, away);
        LatestGrows(s.notes, Resumed(b.peer, now), b.peer);
        LogKeeps(t, f, Resumed(b.peer, now), Allocated(b, now), now);
        assert AllocateAt(s, f, b, now) == Put(Log(t, Resumed(b.peer, now)), f, Allocated(b, now));
      }
    }
  }

  lemma {:induction false} PreallocateKeeps(s: State, bonds: seq<Bond>, now: int)
    requires Inv(s, now)
    ensures Inv(Preallocate(s, bonds, now), now)
    decreases |bonds|
  {
    if bonds != [] {
      var f := FirstFree(s.slots);
      if IndexOf(s.slots, bonds[0].peer) < |s.slots| {
        PreallocateKeeps(s, bonds[1..], now);
      } else if f < |s.slots| {
        AllocateKeeps(s, bonds[0], now);
        PreallocateKeeps(AllocateAt(s, f, bonds[0], now), bonds[1..], now);
      }
    }
  }

  lemma NextKeeps(s: State, st: Step)
    requires Inv(s, st.now) && Enabled(s, st.action)
    ensures Inv(Next(s, st), st.now)
  {
    match st.action
    case Sighting(a, bonded) => SeenKeeps(s, a, bonded, st.now, st.synced);
    case Ticks(pairing, replies) => TickKeeps(s, |s.slots|, st.now, st.synced, pairing, replies);
    case ProbeOk(i, h, bonded) => ProbeEndKeeps(s, i, h, bonded, st.now, st.synced);
    case ProbeFail(i) => ProbeEndKeeps(s, i, 0, false, st.now, st.synced);
    case ProbeLinkDown(i, h) => LinkDownKeeps(s, i, h, st.now);
    case HidUp(a, bonded) => HidKeeps(s, a, bonded, st.now, st.synced);
    case HidDown(a) => HidKeeps(s, a, false, st.now, st.synced);
    case WipeEvents => WipeKeeps(s, st.now);
    case ChangeTimeout(_) =>
    case AllocateBonds(peers, log) => PreallocateKeeps(s, BondsOf(peers, log), st.now);
    case RevokeBond(a) =>
      if IndexOf(s.slots, a) < |s.slots| { PutKeeps(s, IndexOf(s.slots, a), EMPTY_SLOT, st.now); }
    case RestartScan =>
  }

  lemma BootKeeps(now: int, stored: Option<int>, bonds: seq<Bond>)
    requires now > 0
    ensures Inv(Boot(now, stored, bonds), now)
  {
    var blank := State(seq(SLOTS, i => EMPTY_SLOT), TIMEOUT_DEFAULT_S * 1000, Idle, false, []);
    PreallocateKeeps(LoadTimeout(blank, stored), bonds, now);
  }

  /** Every legal run, whatever its callbacks, keeps the invariant. */
  lemma {:induction false} RunKeeps(r: Run)
    requires r.Legal()
    ensures Inv(r.End(), r.Clock())
  {
    match r
    case Booted(now, stored, peers, log) => BootKeeps(now, stored, BondsOf(peers, log));
    case Then(before, step) =>
      RunKeeps(before);
      Later(before.End(), before.Clock(), step.now);
      NextKeeps(before.End(), step);
  }

  // ---------- what it means for whole runs ----------

  /** No orphan OUT: an OUT is recorded for a peer only if its latest recorded call since the last wipe
      was IN, or it was restored as present from the log and nothing was recorded for it since. */
  lemma NoOrphanOut(r: Run, k: nat)
    requires r.Legal()
    requires k < |r.End().notes| && r.End().notes[k].Recorded? && r.End().notes[k].kind.Out?
    ensures Latest(r.End().notes[..k], r.End().notes[k].peer) == Some(In)
  {
    RunKeeps(r);
    assert Backed(r.End().notes, k);
  }

  /** In terms of the notes: when an OUT is recorded, every earlier sighting, live-link tick and link drop of
      that peer is older than the timeout in force, which is never below 30 s. */
  lemma OutsAreTimed(r: Run, k: nat, j: nat)
    requires r.Legal()
    requires k < |r.End().notes| && r.End().notes[k].Recorded? && r.End().notes[k].kind.Out?
    requires j < k && r.End().notes[j].Refreshed? && r.End().notes[j].peer == r.End().notes[k].peer
    ensures k > 0 && r.End().notes[k - 1].Left?
    ensures ElapsedMs(r.End().notes[k].at, r.End().notes[j].at) > r.End().notes[k - 1].timeoutMs
  {
    hide Run.End;
    RunKeeps(r);
    var h := r.End().notes;
    assert Follows(h, k) && Timed(h, k - 1);
  }

  /** The turn of one slot leaves the other slots alone. */
  lemma TickSlotFrame(s: State, i: nat, j: nat, now: int, synced: bool, pairing: bool, reply: ProbeReply)
    requires i < |s.slots| && j < |s.slots| && i != j
    ensures TickSlot(s, i, now, synced, pairing, reply).slots[j] == s.slots[j]
    ensures TickSlot(s, i, now, synced, pairing, reply).timeoutMs == s.timeoutMs
  {
    hide ProbeStart;
    var c := CatchUp(RefreshLinked(s, i, now), i, now, synced);
    ProbeStartFrame(c, i, now, pairing, reply);
  }

  lemma {:induction false} TickFrame(s: State, n: nat, j: nat, now: int, synced: bool, pairing: bool, replies: seq<ProbeReply>)
    requires n <= |s.slots| == |replies| && j < |s.slots|
    ensures var t := TickUpTo(s, n, now, synced, pairing, replies);
            && t.timeoutMs == s.timeoutMs
            && (n <= j ==> t.slots[j] == s.slots[j])
            && (j < n ==> t.slots[j] == TickSlot(TickUpTo(s, j, now, synced, pairing, replies), j,
                                                 now, synced, pairing, replies[j]).slots[j])
  {
    if n > 0 {
      TickFrame(s, n - 1, j, now, synced, pairing, replies);
      var t := TickUpTo(s, n - 1, now, synced, pairing, replies);
      var u := TickSlot(t, n - 1, now, synced, pairing, replies[n - 1]);
      TimeoutFrame(t, n - 1, now, synced, pairing, replies[n - 1]);
      if j != n - 1 { TickSlotFrame(t, n - 1, j, now, synced, pairing, replies[n - 1]); }
      assert u == TickUpTo(s, n, now, synced, pairing, replies);
    }
  }

  lemma TimeoutFrame(s: State, i: nat, now: int, synced: bool, pairing: bool, reply: ProbeReply)
    requires i < |s.slots|
    ensures TickSlot(s, i, now, synced, pairing, reply).timeoutMs == s.timeoutMs
  {
  }

  lemma TickSlotLeaves(s: State, t: State, i: nat, now: int, synced: bool, pairing: bool, reply: ProbeReply)
    requires i < |s.slots| && s.slots[i].used && s.slots[i].present
    requires t == TickSlot(s, i, now, synced, pairing, reply)
    ensures !t.slots[i].present <==>
            !s.slots[i].connected && !s.slots[i].probing && ElapsedMs(now, s.slots[i].lastSeen) > s.timeoutMs
  {
    var c := CatchUp(s, i, now, synced);
    ProbeStartFrame(c, i, now, pairing, reply);
  }

  /** A tick takes a present peer's presence if and only if it finds the peer unconnected, with no probe in
      flight, and silent for longer than the timeout. */
  lemma LeavesIff(s: State, st: Step, i: nat)
    requires Inv(s, st.now) && Enabled(s, st.action) && st.action.Ticks? && i < |s.slots| && s.slots[i].present
    ensures !Next(s, st).slots[i].present <==>
            !s.slots[i].connected && !s.slots[i].probing && ElapsedMs(st.now, s.slots[i].lastSeen) > s.timeoutMs
  {
    var pairing, replies := st.action.pairing, st.action.replies;
    assert SlotOk(s.slots[i], s.notes, st.now);
    TickFrame(s, |s.slots|, i, st.now, st.synced, pairing, replies);
    TickFrame(s, i, i, st.now, st.synced, pairing, replies);
    var before := TickUpTo(s, i, st.now, st.synced, pairing, replies);
    TickSlotLeaves(before, TickSlot(before, i, st.now, st.synced, pairing, replies[i]), i, st.now, st.synced, pairing,
                   replies[i]);
  }

  lemma SeenStays(s: State, a: Addr, bonded: bool, now: int, synced: bool, i: nat)
    requires i < |s.slots| && s.slots[i].used
    ensures s.slots[i].present ==> Seen(s, a, bonded, now, synced).slots[i].present
    ensures Seen(s, a, bonded, now, synced).slots[i].addr == s.slots[i].addr
  {
  }

  /** A slot stops being present, without being freed, only in a tick that finds it unconnected, with no
      probe in flight, and silent for longer than the timeout. */
  lemma LeavesOnlyWhenSilent(s: State, st: Step, i: nat)
    requires Inv(s, st.now) && Enabled(s, st.action) && i < |s.slots|
    requires s.slots[i].present && !Next(s, st).slots[i].present && Next(s, st).slots[i].used
    ensures st.action.Ticks? && !s.slots[i].connected && !s.slots[i].probing
    ensures ElapsedMs(st.now, s.slots[i].lastSeen) > s.timeoutMs
  {
    assert SlotOk(s.slots[i], s.notes, st.now);
    match st.action
    case Sighting(a, bonded) => SeenStays(s, a, bonded, st.now, st.synced, i);
    case HidUp(a, bonded) => SeenStays(s, a, bonded, st.now, st.synced, i);
    case ProbeOk(k, h, bonded) =>
      var t := Put(s.(radio := Idle), k, s.slots[k].(handle := h, connected := true, probing := false));
      SeenStays(t, s.slots[k].addr, bonded, st.now, st.synced, i);
    case AllocateBonds(peers, log) => PreallocateFrame(s, BondsOf(peers, log), st.now, i);
    case Ticks(_, _) => LeavesIff(s, st, i);
    case _ =>
  }

  lemma {:induction false} PreallocateFrame(s: State, bonds: seq<Bond>, now: int, i: nat)
    requires i < |s.slots| && s.slots[i].used
    ensures Preallocate(s, bonds, now).slots[i] == s.slots[i]
    decreases |bonds|
  {
    if bonds != [] {
      var f := FirstFree(s.slots);
      if IndexOf(s.slots, bonds[0].peer) < |s.slots| {
        PreallocateFrame(s, bonds[1..], now, i);
      } else if f < |s.slots| {
        PreallocateFrame(AllocateAt(s, f, bonds[0], now), bonds[1..], now, i);
      }
    }
  }

  /** A used slot stays its peer's, unless the bond is revoked. */
  predicate StaysHome(x: Slot, y: Slot) {
    x.used ==> y.used && y.addr == x.addr
  }

  lemma TickSlotHome(s: State, i: nat, now: int, synced: bool, pairing: bool, reply: ProbeReply)
    requires i < |s.slots|
    ensures StaysHome(s.slots[i], TickSlot(s, i, now, synced, pairing, reply).slots[i])
  {
    var c := CatchUp(RefreshLinked(s, i, now), i, now, synced);
    ProbeStartFrame(c, i, now, pairing, reply);
  }

  lemma TickHome(s: State, st: Step, i: nat)
    requires Enabled(s, st.action) && st.action.Ticks? && i < |s.slots|
    ensures StaysHome(s.slots[i], Next(s, st).slots[i])
  {
    var pairing, replies := st.action.pairing, st.action.replies;
    TickFrame(s, |s.slots|, i, st.now, st.synced, pairing, replies);
    TickFrame(s, i, i, st.now, st.synced, pairing, replies);
    TickSlotHome(TickUpTo(s, i, st.now, st.synced, pairing, replies), i, st.now, st.synced, pairing, replies[i]);
  }

  lemma SeenHome(s: State, a: Addr, bonded: bool, now: int, synced: bool, i: nat)
    requires i < |s.slots|
    ensures StaysHome(s.slots[i], Seen(s, a, bonded, now, synced).slots[i])
    ensures StaysHome(s.slots[i], HidConnected(s, a, bonded, now, synced).slots[i])
  {
  }

  lemma ProbeHome(s: State, st: Step, i: nat)
    requires Enabled(s, st.action) && st.action.ProbeOk? && i < |s.slots|
    ensures StaysHome(s.slots[i], Next(s, st).slots[i])
  {
    var k, h := st.action.slot, st.action.handle;
    var t := Put(s.(radio := Idle), k, s.slots[k].(handle := h, connected := true, probing := false));
    SeenHome(t, s.slots[k].addr, st.action.bonded, st.now, st.synced, i);
  }

  lemma StepHome(s: State, st: Step, i: nat)
    requires Enabled(s, st.action) && i < |s.slots| && st.action != RevokeBond(s.slots[i].addr)
    ensures StaysHome(s.slots[i], Next(s, st).slots[i])
  {
    match st.action
    case Sighting(a, bonded) => SeenHome(s, a, bonded, st.now, st.synced, i);
    case HidUp(a, bonded) => SeenHome(s, a, bonded, st.now, st.synced, i);
    case Ticks(_, _) => TickHome(s, st, i);
    case ProbeOk(_, _, _) => ProbeHome(s, st, i);
    case AllocateBonds(peers, log) =>
      if s.slots[i].used { PreallocateFrame(s, BondsOf(peers, log), st.now, i); }
    case _ =>
  }
}
