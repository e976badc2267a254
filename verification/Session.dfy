/** Presence and debounce together. At every boot the wall clock is unknown at first; the lemmas say how soon it
    must be known for each peer's recorded events to alternate and for none of them to be swallowed by the
    debounce. */
module Session {
  import opened Common
  import opened Presence
  import opened PresenceNotes
  import S = PresenceSafety
  import D = Debounce
  import T = PresenceTiming

  /** What a run is measured by: when it booted, and a timeout that its presence timeout is never below. */
  datatype Terms = Terms(boot: int, timeoutMs: int) {
    /** How long after a peer was seen its IN may be recorded and still be the debounce window older than its
        next IN: one timeout, rounded up to the next millisecond, less that window. */
    function Slack(): int {
      (timeoutMs + 1) * 1000 - D.WINDOW_US
    }

    /** The latest time of the first tick with the wall clock known. */
    function Deadline(): int {
      boot + Slack()
    }
  }

  /** Note `k` alternates with its peer's previous one and is at least the debounce window later than its peer's
      earlier notes of that kind. */
  ghost predicate Spaced(h: seq<Note>, k: nat)
    requires k < |h|
  {
    h[k].Recorded? ==>
      && (h[k].kind.Out? <==> S.Latest(h[..k], h[k].peer) == Some(In))
      && forall j :: 0 <= j < k && h[j].Recorded? && h[j].peer == h[k].peer && h[j].kind == h[k].kind
                     ==> h[j].at + D.WINDOW_US <= h[k].at
  }

  ghost predicate AllSpaced(h: seq<Note>) {
    forall k :: 0 <= k < |h| ==> Spaced(h, k)
  }

  predicate Records(n: Note, a: Addr) {
    n.Recorded? && n.peer == a
  }

  /** An acknowledged slot is present and its peer's latest word is IN; nothing was recorded for its peer more
      than the slack after it was last seen. Nothing at all was recorded for a present peer that waits for the
      wall clock, and an absent peer's INs are at least the debounce window old. */
  ghost predicate CalmSlot(x: Slot, h: seq<Note>, now: int, b: Terms) {
    && (x.ack ==> x.present)
    && (x.present ==> x.used && b.boot <= x.lastSeen)
    && x.lastSeen <= now
    && (x.used ==> (x.ack <==> S.Latest(h, x.addr) == Some(In)))
    && (x.ack ==> forall n :: n in h && Records(n, x.addr) ==> n.at <= x.lastSeen + b.Slack())
    && (x.present && !x.ack ==> forall n :: n in h ==> !Records(n, x.addr))
    && (x.used && !x.present ==> forall n :: n in h && Records(n, x.addr) && n.kind.In? ==> n.at + D.WINDOW_US <= now)
  }

  /** Every peer that was ever told about has a slot. */
  ghost predicate Homed(s: State) {
    forall n :: n in s.notes && (n.Recorded? || n.Resumed?) ==> IndexOf(s.slots, n.peer) < |s.slots|
  }

  /** Nothing was wiped, and no OUT was recorded before the deadline. */
  ghost predicate Plain(h: seq<Note>, b: Terms) {
    forall n :: n in h ==> !n.Wiped? && (n.Recorded? && n.kind.Out? ==> b.Deadline() < n.at)
  }

  ghost predicate Calm(s: State, now: int, b: Terms) {
    && |s.slots| == SLOTS
    && TIMEOUT_MIN_S * 1000 <= b.timeoutMs <= s.timeoutMs
    && S.Distinct(s.slots)
    && Homed(s)
    && AllSpaced(s.notes)
    && Plain(s.notes, b)
    && forall i :: 0 <= i < |s.slots| ==> CalmSlot(s.slots[i], s.notes, now, b)
  }

  lemma SpacedGrow(h: seq<Note>, n: Note)
    requires AllSpaced(h) && Spaced(h + [n], |h|)
    ensures AllSpaced(h + [n])
  {
    var g := h + [n];
    forall k | 0 <= k < |g|
      ensures Spaced(g, k)
    {
      if k < |h| {
        assert Spaced(h, k) && g[..k] == h[..k];
      }
    }
  }

  /** Sightings and departures say nothing about what was recorded. */
  lemma QuietNote(s: State, n: Note, now: int, b: Terms)
    requires Calm(s, now, b) && (n.Refreshed? || n.Left?)
    ensures Calm(Log(s, n), now, b)
  {
    SpacedGrow(s.notes, n);
    forall i | 0 <= i < |s.slots|
      ensures CalmSlot(s.slots[i], s.notes + [n], now, b)
    {
      assert CalmSlot(s.slots[i], s.notes, now, b);
      S.LatestGrows(s.notes, n, s.slots[i].addr);
    }
  }

  lemma IndexStays(s: State, i: nat, x: Slot, a: Addr)
    requires i < |s.slots| && IndexOf(s.slots, a) < |s.slots|
    requires s.slots[i].used ==> x.used && x.addr == s.slots[i].addr
    ensures IndexOf(s.slots[i := x], a) < |s.slots|
  {
    assert Holds(s.slots[i := x][IndexOf(s.slots, a)], a);
  }

  lemma CalmPut(s: State, i: nat, x: Slot, now: int, b: Terms)
    requires Calm(s, now, b) && i < |s.slots| && CalmSlot(x, s.notes, now, b)
    requires x.used == s.slots[i].used && x.addr == s.slots[i].addr
    ensures Calm(Put(s, i, x), now, b)
  {
    forall n | n in s.notes && (n.Recorded? || n.Resumed?)
      ensures IndexOf(Put(s, i, x).slots, n.peer) < |s.slots|
    {
      IndexStays(s, i, x, n.peer);
    }
  }

  /** A peer without a slot moves into a free one. */
  lemma CalmFill(s: State, f: nat, x: Slot, now: int, b: Terms)
    requires Calm(s, now, b) && f < |s.slots| && !s.slots[f].used && x.used
    requires IndexOf(s.slots, x.addr) == |s.slots|
    requires !x.present && !x.ack && x.lastSeen <= now
    ensures Calm(Put(s, f, x), now, b)
  {
    var t := Put(s, f, x);
    forall n | n in s.notes && (n.Recorded? || n.Resumed?)
      ensures IndexOf(t.slots, n.peer) < |s.slots| && n.peer != x.addr
    {
      IndexStays(s, f, x, n.peer);
    }
    assert forall j :: 0 <= j < |s.slots| ==> !Holds(s.slots[j], x.addr);
    Untold(s.notes, x.addr);
  }

  lemma {:induction false} Untold(h: seq<Note>, a: Addr)
    requires forall n :: n in h ==> !Tells(n, a)
    ensures S.Latest(h, a) == None
  {
    if h != [] {
      assert h[|h| - 1] in h;
      Untold(h[..|h| - 1], a);
    }
  }

  /** A peer of which nothing but INs was told is in. */
  lemma {:induction false} OnlyIns(h: seq<Note>, a: Addr)
    requires forall n :: n in h ==> !n.Wiped? && (Records(n, a) ==> n.kind.In?)
    requires S.Latest(h, a) != Some(In)
    ensures forall n :: n in h ==> !Records(n, a)
  {
    if h != [] {
      assert h[|h| - 1] in h;
      OnlyIns(h[..|h| - 1], a);
    }
  }

  /** Up to the deadline nothing was recorded for a peer that is not acknowledged. */
  lemma NothingYet(s: State, i: nat, now: int, b: Terms)
    requires CalmPast(s, now, b) && now <= b.Deadline() && i < |s.slots| && s.slots[i].used && !s.slots[i].ack
    ensures forall n :: n in s.notes ==> !Records(n, s.slots[i].addr)
  {
    assert CalmSlot(s.slots[i], s.notes, now, b);
    OnlyIns(s.notes, s.slots[i].addr);
  }

  /** An event, or a resumption, of the peer in slot `i`, after which the slot reads `x`. */
  lemma Speak(s: State, i: nat, n: Note, x: Slot, now: int, b: Terms)
    requires Calm(s, now, b) && i < |s.slots| && s.slots[i].used && Tells(n, s.slots[i].addr)
    requires x.used && x.addr == s.slots[i].addr && CalmSlot(x, s.notes + [n], now, b)
    requires Spaced(s.notes + [n], |s.notes|) && (n.Recorded? && n.kind.Out? ==> b.Deadline() < n.at)
    ensures Calm(Put(Log(s, n), i, x), now, b)
  {
    var t := Put(Log(s, n), i, x);
    SpacedGrow(s.notes, n);
    forall j | 0 <= j < |t.slots|
      ensures CalmSlot(t.slots[j], t.notes, now, b)
    {
      if j != i {
        assert CalmSlot(s.slots[j], s.notes, now, b);
        S.LatestGrows(s.notes, n, s.slots[j].addr);
        if s.slots[j].used { S.OtherAddr(s, i, j); }
      }
    }
    forall m | m in t.notes && (m.Recorded? || m.Resumed?)
      ensures IndexOf(t.slots, m.peer) < |t.slots|
    {
      if m == n { assert Holds(t.slots[i], m.peer); } else { IndexStays(s, i, x, m.peer); }
    }
  }

  /** IN is recorded for a peer that is not acknowledged, not too long after it was seen. */
  lemma Arrives(s: State, i: nat, x: Slot, now: int, b: Terms)
    requires Calm(s, now, b) && i < |s.slots| && s.slots[i].used && !s.slots[i].ack
    requires x.used && x.addr == s.slots[i].addr && x.present && x.ack
    requires b.boot <= x.lastSeen <= now <= x.lastSeen + b.Slack() && S.NotesPast(s.notes, now)
    ensures Calm(Put(Log(s, Recorded(x.addr, In, now)), i, x), now, b)
  {
    var n := Recorded(x.addr, In, now);
    assert CalmSlot(s.slots[i], s.notes, now, b);
    S.LatestGrows(s.notes, n, x.addr);
    assert (s.notes + [n])[..|s.notes|] == s.notes;
    assert Spaced(s.notes + [n], |s.notes|);
    Speak(s, i, n, x, now, b);
  }

  /** A present peer is given up: OUT is recorded and the slot becomes absent. */
  lemma Departs(s: State, i: nat, x: Slot, now: int, b: Terms)
    requires Calm(s, now, b) && i < |s.slots| && s.slots[i].ack
    requires ElapsedMs(now, s.slots[i].lastSeen) > s.timeoutMs
    requires x == s.slots[i].(present := false, ack := false)
    ensures Calm(Put(Log(s, Recorded(x.addr, Out, now)), i, x), now, b)
  {
    var n := Recorded(x.addr, Out, now);
    assert CalmSlot(s.slots[i], s.notes, now, b);
    S.LatestGrows(s.notes, n, x.addr);
    assert (s.notes + [n])[..|s.notes|] == s.notes;
    assert s.slots[i].lastSeen + b.Slack() + D.WINDOW_US <= now;
    Speak(s, i, n, x, now, b);
  }

  // ---------- every step keeps the session calm ----------

  ghost predicate CalmPast(s: State, now: int, b: Terms) {
    Calm(s, now, b) && S.NotesPast(s.notes, now)
  }

  /** Up to the deadline the wall clock may be unknown; afterwards it is known, and no present peer waits for
      it. */
  predicate InTime(x: Slot, now: int, synced: bool, b: Terms) {
    now <= b.Deadline() || (synced && (x.present ==> x.ack))
  }

  lemma SeenCalm(s: State, a: Addr, bonded: bool, now: int, synced: bool, b: Terms)
    requires CalmPast(s, now, b) && b.boot <= now
    requires forall i :: 0 <= i < |s.slots| ==> InTime(s.slots[i], now, synced, b)
    ensures CalmPast(Seen(s, a, bonded, now, synced), now, b)
  {
    var r := Log(s, Refreshed(a, now));
    QuietNote(s, Refreshed(a, now), now, b);
    var k := IndexOf(r.slots, a);
    if k < |r.slots| {
      assert CalmSlot(r.slots[k], r.notes, now, b);
      SeenSlotCalm(r, k, now, synced, b);
    } else {
      var f := FirstFree(r.slots);
      if f < |r.slots| && bonded {
        assert CalmSlot(r.slots[f], r.notes, now, b) && InTime(s.slots[f], now, synced, b);
        CalmFill(r, f, Claimed(r.slots[f], a), now, b);
        SeenSlotCalm(Put(r, f, Claimed(r.slots[f], a)), f, now, synced, b);
      }
    }
  }

  lemma SeenSlotCalm(s: State, i: nat, now: int, synced: bool, b: Terms)
    requires CalmPast(s, now, b) && b.boot <= now && i < |s.slots| && s.slots[i].used
    requires InTime(s.slots[i], now, synced, b)
    ensures CalmPast(SeenSlot(s, i, now, synced), now, b)
  {
    var x := s.slots[i].(lastSeen := now, present := true);
    assert CalmSlot(s.slots[i], s.notes, now, b);
    if x.ack {
      CalmPut(s, i, x, now, b);
    } else if synced {
      Arrives(s, i, x.(ack := true), now, b);
      assert SeenSlot(s, i, now, true) == Put(Log(s, Recorded(x.addr, In, now)), i, x.(ack := true));
    } else {
      NothingYet(s, i, now, b);
      CalmPut(s, i, x, now, b);
    }
  }

  /** Fields that the session does not depend on. */
  lemma SideFields(s: State, t: State, i: nat, now: int, b: Terms)
    requires CalmPast(s, now, b) && i < |s.slots| == |t.slots|
    requires t.notes == s.notes && t.timeoutMs == s.timeoutMs && t.slots == s.slots[i := t.slots[i]]
    requires t.slots[i] == s.slots[i].(connected := t.slots[i].connected, probing := t.slots[i].probing,
                                       handle := t.slots[i].handle, lastProbe := t.slots[i].lastProbe)
    ensures CalmPast(t, now, b)
  {
    assert CalmSlot(s.slots[i], s.notes, now, b);
    CalmPut(s, i, t.slots[i], now, b);
    assert Put(s, i, t.slots[i]).slots == t.slots;
  }

  lemma ProbeStartCalm(s: State, i: nat, now: int, pairing: bool, reply: ProbeReply, b: Terms)
    requires CalmPast(s, now, b) && i < |s.slots|
    ensures CalmPast(ProbeStart(s, i, now, pairing, reply), now, b)
  {
    S.ProbeStartFrame(s, i, now, pairing, reply);
    SideFields(s, ProbeStart(s, i, now, pairing, reply), i, now, b);
  }

  lemma GiveUpCalm(s: State, i: nat, now: int, synced: bool, b: Terms)
    requires CalmPast(s, now, b) && i < |s.slots| && s.slots[i].present && InTime(s.slots[i], now, synced, b)
    ensures CalmPast(GiveUp(s, i, now, synced), now, b)
  {
    var x := s.slots[i];
    assert CalmSlot(x, s.notes, now, b);
    if ElapsedMs(now, x.lastSeen) > s.timeoutMs && !x.probing {
      QuietNote(s, Left(x.addr, now, s.timeoutMs), now, b);
      Departs(Log(s, Left(x.addr, now, s.timeoutMs)), i, x.(present := false, ack := false), now, b);
    }
  }

  lemma RefreshCalm(s: State, i: nat, now: int, b: Terms)
    requires CalmPast(s, now, b) && b.boot <= now && i < |s.slots| && s.slots[i].used
    requires now <= b.Deadline() || s.slots[i].present
    ensures CalmPast(RefreshLinked(s, i, now), now, b)
  {
    var x := s.slots[i];
    assert CalmSlot(x, s.notes, now, b);
    if x.connected {
      var r := Log(s, Refreshed(x.addr, now));
      QuietNote(s, Refreshed(x.addr, now), now, b);
      assert CalmSlot(x, r.notes, now, b);
      if !x.ack && now <= b.Deadline() { NothingYet(r, i, now, b); }
      CalmPut(r, i, x.(lastSeen := now, present := true), now, b);
    }
  }

  lemma CatchUpCalm(s: State, i: nat, now: int, synced: bool, b: Terms)
    requires CalmPast(s, now, b) && i < |s.slots| && s.slots[i].used && InTime(s.slots[i], now, synced, b)
    ensures CalmPast(CatchUp(s, i, now, synced), now, b)
    ensures InTime(CatchUp(s, i, now, synced).slots[i], now, synced, b)
  {
    var x := s.slots[i];
    assert CalmSlot(x, s.notes, now, b);
    if x.present && !x.ack && synced {
      Arrives(s, i, x.(ack := true), now, b);
    }
  }

  /** A live link brings a peer back and its IN is recorded at once. */
  lemma BackCalm(s: State, i: nat, now: int, b: Terms)
    requires CalmPast(s, now, b) && b.boot <= now && i < |s.slots| && s.slots[i].used
    requires s.slots[i].connected && !s.slots[i].present
    ensures CalmPast(CatchUp(RefreshLinked(s, i, now), i, now, true), now, b)
  {
    var x := s.slots[i];
    assert CalmSlot(x, s.notes, now, b);
    var r := Log(s, Refreshed(x.addr, now));
    QuietNote(s, Refreshed(x.addr, now), now, b);
    assert CalmSlot(x, r.notes, now, b);
    var y := x.(lastSeen := now, present := true, ack := true);
    Arrives(r, i, y, now, b);
    assert CatchUp(RefreshLinked(s, i, now), i, now, true) == Put(Log(r, Recorded(x.addr, In, now)), i, y);
  }

  lemma LinkedCalm(s: State, i: nat, now: int, synced: bool, b: Terms)
    requires CalmPast(s, now, b) && b.boot <= now && i < |s.slots| && s.slots[i].used
    requires InTime(s.slots[i], now, synced, b)
    ensures var c := CatchUp(RefreshLinked(s, i, now), i, now, synced);
            CalmPast(c, now, b) && InTime(c.slots[i], now, synced, b)
  {
    var x := s.slots[i];
    if x.connected && !x.present && now > b.Deadline() {
      BackCalm(s, i, now, b);
    } else if x.connected {
      RefreshCalm(s, i, now, b);
      CatchUpCalm(RefreshLinked(s, i, now), i, now, synced, b);
    } else {
      CatchUpCalm(s, i, now, synced, b);
    }
  }

  lemma TickSlotCalm(s: State, i: nat, now: int, synced: bool, pairing: bool, reply: ProbeReply, b: Terms)
    requires CalmPast(s, now, b) && b.boot <= now && i < |s.slots| && InTime(s.slots[i], now, synced, b)
    ensures CalmPast(TickSlot(s, i, now, synced, pairing, reply), now, b)
  {
    if s.slots[i].used {
      LinkedCalm(s, i, now, synced, b);
      var c := CatchUp(RefreshLinked(s, i, now), i, now, synced);
      ProbeStartCalm(c, i, now, pairing, reply, b);
      S.ProbeStartFrame(c, i, now, pairing, reply);
      if !c.slots[i].connected && c.slots[i].present {
        GiveUpCalm(ProbeStale(c, i, now, pairing, reply), i, now, synced, b);
      }
    }
  }

  lemma {:induction false} TickCalm(s: State, n: nat, now: int, synced: bool, pairing: bool,
                                    replies: seq<ProbeReply>, b: Terms)
    requires CalmPast(s, now, b) && b.boot <= now && n <= |s.slots| == |replies|
    requires forall i :: 0 <= i < |s.slots| ==> InTime(s.slots[i], now, synced, b)
    ensures CalmPast(TickUpTo(s, n, now, synced, pairing, replies), now, b)
  {
    if n > 0 {
      TickCalm(s, n - 1, now, synced, pairing, replies, b);
      S.TickFrame(s, n - 1, n - 1, now, synced, pairing, replies);
      assert InTime(s.slots[n - 1], now, synced, b);
      TickSlotCalm(TickUpTo(s, n - 1, now, synced, pairing, replies), n - 1, now, synced, pairing, replies[n - 1], b);
    }
  }

  lemma {:induction false} PreallocateCalm(s: State, bonds: seq<Bond>, now: int, b: Terms)
    requires CalmPast(s, now, b) && 0 <= now && b.boot <= now
    ensures CalmPast(Preallocate(s, bonds, now), now, b)
    decreases |bonds|
  {
    if bonds != [] {
      var f := FirstFree(s.slots);
      if IndexOf(s.slots, bonds[0].peer) < |s.slots| {
        PreallocateCalm(s, bonds[1..], now, b);
      } else if f < |s.slots| {
        AllocateCalm(s, f, bonds[0], now, b);
        PreallocateCalm(AllocateAt(s, f, bonds[0], now), bonds[1..], now, b);
      }
    }
  }

  lemma AllocateCalm(s: State, f: nat, bond: Bond, now: int, b: Terms)
    requires CalmPast(s, now, b) && 0 <= now && b.boot <= now
    requires IndexOf(s.slots, bond.peer) == |s.slots| && f == FirstFree(s.slots) < |s.slots|
    ensures CalmPast(AllocateAt(s, f, bond, now), now, b)
  {
    var away := Allocated(Bond(bond.peer, false), now);
    CalmFill(s, f, away, now, b);
    if bond.wasIn {
      var t := Put(s, f, away);
      var n := Resumed(bond.peer, now);
      var x := Allocated(bond, now);
      assert t.slots[f] == away && CalmSlot(t.slots[f], t.notes, now, b);
      Homeless(s, bond.peer);
      S.LatestGrows(t.notes, n, bond.peer);
      Speak(t, f, n, x, now, b);
      assert AllocateAt(s, f, bond, now) == Put(Log(t, n), f, x);
    }
  }

  /** Nothing was recorded for a peer without a slot. */
  lemma Homeless(s: State, a: Addr)
    requires Homed(s) && IndexOf(s.slots, a) == |s.slots|
    ensures forall n :: n in s.notes ==> !Records(n, a)
  {
  }

  lemma HidCalm(s: State, a: Addr, bonded: bool, now: int, synced: bool, b: Terms)
    requires CalmPast(s, now, b) && b.boot <= now
    requires forall i :: 0 <= i < |s.slots| ==> InTime(s.slots[i], now, synced, b)
    ensures CalmPast(HidConnected(s, a, bonded, now, synced), now, b)
    ensures CalmPast(HidDisconnected(s, a, now), now, b)
  {
    SeenCalm(s, a, bonded, now, synced, b);
    var t := Seen(s, a, bonded, now, synced);
    var k := IndexOf(t.slots, a);
    if k < |t.slots| { SideFields(t, HidConnected(s, a, bonded, now, synced), k, now, b); }
    var j := IndexOf(s.slots, a);
    if j < |s.slots| {
      var r := Log(s, Refreshed(a, now));
      QuietNote(s, Refreshed(a, now), now, b);
      assert CalmSlot(r.slots[j], r.notes, now, b);
      CalmPut(r, j, r.slots[j].(connected := false, lastSeen := now), now, b);
    }
  }

  lemma ProbeEndCalm(s: State, st: Step, b: Terms)
    requires CalmPast(s, st.now, b) && b.boot <= st.now && Enabled(s, st.action)
    requires forall i :: 0 <= i < |s.slots| ==> InTime(s.slots[i], st.now, st.synced, b)
    requires st.action.ProbeOk? || st.action.ProbeFail? || st.action.ProbeLinkDown?
    ensures CalmPast(Next(s, st), st.now, b)
  {
    match st.action
    case ProbeOk(i, h, bonded) =>
      var x := s.slots[i];
      var t := Put(s.(radio := Idle), i, x.(handle := h, connected := true, probing := false));
      SideFields(s, t, i, st.now, b);
      forall j | 0 <= j < |t.slots|
        ensures InTime(t.slots[j], st.now, st.synced, b)
      {
        assert InTime(s.slots[j], st.now, st.synced, b);
      }
      SeenCalm(t, x.addr, bonded, st.now, st.synced, b);
    case ProbeFail(i) => SideFields(s, Next(s, st), i, st.now, b);
    case ProbeLinkDown(i, h) =>
      var x := s.slots[i];
      assert CalmSlot(x, s.notes, st.now, b);
      if x.handle == h {
        var r := if x.used then Log(s, Refreshed(x.addr, st.now)) else s;
        if x.used { QuietNote(s, Refreshed(x.addr, st.now), st.now, b); }
        assert CalmSlot(x, r.notes, st.now, b);
        CalmPut(r, i, x.(handle := NO_HANDLE, probing := false, connected := false,
                         lastSeen := st.now, lastProbe := st.now), st.now, b);
      }
  }

  lemma NextCalm(s: State, st: Step, b: Terms)
    requires CalmPast(s, st.now, b) && 0 <= st.now && b.boot <= st.now && Enabled(s, st.action)
    requires !st.action.WipeEvents? && !st.action.RevokeBond? && b.timeoutMs <= Next(s, st).timeoutMs
    requires forall i :: 0 <= i < |s.slots| ==> InTime(s.slots[i], st.now, st.synced, b)
    ensures CalmPast(Next(s, st), st.now, b)
  {
    match st.action
    case Sighting(a, bonded) => SeenCalm(s, a, bonded, st.now, st.synced, b);
    case Ticks(pairing, replies) => TickCalm(s, |s.slots|, st.now, st.synced, pairing, replies, b);
    case HidUp(a, bonded) => HidCalm(s, a, bonded, st.now, st.synced, b);
    case HidDown(a) => HidCalm(s, a, false, st.now, st.synced, b);
    case AllocateBonds(peers, log) => PreallocateCalm(s, BondsOf(peers, log), st.now, b);
    case ChangeTimeout(_) =>
    case RestartScan =>
    case _ => ProbeEndCalm(s, st, b);
  }

  // ---------- a tick with the wall clock known leaves nobody waiting ----------

  ghost predicate AllAcked(s: State) {
    forall i :: 0 <= i < |s.slots| ==> (s.slots[i].present ==> s.slots[i].ack)
  }

  lemma TickSlotAcks(s: State, i: nat, now: int, pairing: bool, reply: ProbeReply)
    requires i < |s.slots| && (s.slots[i].present ==> s.slots[i].used)
    ensures var y := TickSlot(s, i, now, true, pairing, reply).slots[i]; y.present ==> y.ack
  {
    var c := CatchUp(RefreshLinked(s, i, now), i, now, true);
    S.ProbeStartFrame(c, i, now, pairing, reply);
  }

  lemma TickAcks(s: State, st: Step)
    requires Enabled(s, st.action) && st.action.Ticks? && st.synced
    requires forall i :: 0 <= i < |s.slots| ==> (s.slots[i].present ==> s.slots[i].used)
    ensures AllAcked(Next(s, st))
  {
    var pairing, replies := st.action.pairing, st.action.replies;
    forall i | 0 <= i < |s.slots|
      ensures Next(s, st).slots[i].present ==> Next(s, st).slots[i].ack
    {
      S.TickFrame(s, |s.slots|, i, st.now, true, pairing, replies);
      S.TickFrame(s, i, i, st.now, true, pairing, replies);
      TickSlotAcks(TickUpTo(s, i, st.now, true, pairing, replies), i, st.now, pairing, replies[i]);
    }
  }

  lemma {:induction false} PreallocateAcked(s: State, bonds: seq<Bond>, now: int)
    requires AllAcked(s)
    ensures AllAcked(Preallocate(s, bonds, now))
    decreases |bonds|
  {
    if bonds != [] {
      var f := FirstFree(s.slots);
      if IndexOf(s.slots, bonds[0].peer) < |s.slots| {
        PreallocateAcked(s, bonds[1..], now);
      } else if f < |s.slots| {
        PreallocateAcked(AllocateAt(s, f, bonds[0], now), bonds[1..], now);
      }
    }
  }

  lemma SeenAcked(s: State, a: Addr, bonded: bool, now: int)
    requires AllAcked(s)
    ensures AllAcked(Seen(s, a, bonded, now, true)) && AllAcked(HidConnected(s, a, bonded, now, true))
  {
  }

  lemma NextAcked(s: State, st: Step)
    requires AllAcked(s) && Enabled(s, st.action) && st.synced && !st.action.WipeEvents? && !st.action.Ticks?
    ensures AllAcked(Next(s, st))
  {
    match st.action
    case Sighting(a, bonded) => SeenAcked(s, a, bonded, st.now);
    case HidUp(a, bonded) => SeenAcked(s, a, bonded, st.now);
    case ProbeOk(i, h, bonded) =>
      SeenAcked(Put(s.(radio := Idle), i, s.slots[i].(handle := h, connected := true, probing := false)),
                s.slots[i].addr, bonded, st.now);
    case AllocateBonds(peers, log) => PreallocateAcked(s, BondsOf(peers, log), st.now);
    case _ =>
  }

  // ---------- undisturbed runs ----------

  function BootedAt(r: Run): int {
    if r.Booted? then r.now else BootedAt(r.before)
  }

  /** A tick with the wall clock known has come since the last step without it, and the clock stayed known. */
  predicate Settled(r: Run) {
    r.Then? ==> r.step.synced && (r.step.action.Ticks? || Settled(r.before))
  }

  /** No step wipes the log or revokes a bond, and the timeout is never below `timeoutMs`. The wall clock may be
      unknown at first, but from a timeout less 10 s after the boot on it is known, and by then a tick has come
      with the clock known. */
  ghost predicate Undisturbed(r: Run, timeoutMs: int)
    requires r.Legal()
  {
    && TIMEOUT_MIN_S * 1000 <= timeoutMs <= r.End().timeoutMs
    && (r.Then? ==>
          && Undisturbed(r.before, timeoutMs)
          && !r.step.action.WipeEvents? && !r.step.action.RevokeBond?
          && (r.step.now <= Terms(BootedAt(r), timeoutMs).Deadline() || (r.step.synced && Settled(r.before))))
  }

  lemma {:induction false} AfterBoot(r: Run)
    requires r.Legal()
    ensures BootedAt(r) <= r.Clock()
  {
    if r.Then? { AfterBoot(r.before); }
  }

  lemma {:induction false} RunCalm(r: Run, timeoutMs: int)
    requires r.Legal() && Undisturbed(r, timeoutMs)
    ensures Calm(r.End(), r.Clock(), Terms(BootedAt(r), timeoutMs))
    ensures Settled(r) ==> AllAcked(r.End())
  {
    var b := Terms(BootedAt(r), timeoutMs);
    S.RunKeeps(r);
    AfterBoot(r);
    match r
    case Booted(now, stored, peers, log) =>
      var blank := State(seq(SLOTS, i => EMPTY_SLOT), TIMEOUT_DEFAULT_S * 1000, Idle, false, []);
      var s := LoadTimeout(blank, stored);
      T.PreallocateTimeout(s, BondsOf(peers, log), now);
      PreallocateCalm(s, BondsOf(peers, log), now, b);
      PreallocateAcked(s, BondsOf(peers, log), now);
    case Then(before, step) =>
      S.RunKeeps(before);
      RunCalm(before, timeoutMs);
      CalmLater(before.End(), before.Clock(), step.now, b);
      NextCalm(before.End(), step, b);
      if Settled(r) { NextSettles(before, step); }
  }

  lemma NextSettles(before: Run, step: Step)
    requires before.Legal() && Enabled(before.End(), step.action) && step.synced && !step.action.WipeEvents?
    requires step.action.Ticks? || AllAcked(before.End())
    ensures AllAcked(Next(before.End(), step))
  {
    S.RunKeeps(before);
    var s := before.End();
    assert forall i :: 0 <= i < |s.slots| ==> S.SlotOk(s.slots[i], s.notes, before.Clock());
    if step.action.Ticks? { TickAcks(s, step); } else { NextAcked(s, step); }
  }

  lemma CalmLater(s: State, before: int, now: int, b: Terms)
    requires Calm(s, before, b) && before <= now
    ensures Calm(s, now, b)
  {
    forall i | 0 <= i < |s.slots|
      ensures CalmSlot(s.slots[i], s.notes, now, b)
    {
      assert CalmSlot(s.slots[i], s.notes, before, b);
    }
  }

  // ---------- the events of a session ----------

  /** The calls of `dd_event_record` in the notes, oldest first. */
  function Calls(h: seq<Note>): seq<D.Call> {
    if h == [] then []
    else
      var n := h[|h| - 1];
      var calls := Calls(h[..|h| - 1]);
      if n.Recorded? then calls + [D.Call(n.peer, n.kind, n.at)] else calls
  }

  /** Each peer's events alternate: OUT after IN (or after being resumed), IN after OUT or as the first. */
  lemma EventsAlternate(r: Run, timeoutMs: int, k: nat)
    requires r.Legal() && Undisturbed(r, timeoutMs)
    requires k < |r.End().notes| && r.End().notes[k].Recorded?
    ensures r.End().notes[k].kind.Out? <==> S.Latest(r.End().notes[..k], r.End().notes[k].peer) == Some(In)
  {
    RunCalm(r, timeoutMs);
    assert Spaced(r.End().notes, k);
  }

  /** The calls of one peer and kind are at least the debounce window apart. */
  lemma {:induction false} CallsSpaced(h: seq<Note>)
    requires AllSpaced(h)
    ensures forall c :: c in Calls(h) ==> exists n :: n in h && n == Recorded(c.peer, c.kind, c.at)
    ensures forall j, k :: 0 <= j < k < |Calls(h)| && Calls(h)[j].peer == Calls(h)[k].peer
                           && Calls(h)[j].kind == Calls(h)[k].kind
                           ==> Calls(h)[j].at + D.WINDOW_US <= Calls(h)[k].at
  {
    if h != [] {
      var g, n := h[..|h| - 1], h[|h| - 1];
      forall k | 0 <= k < |g|
        ensures Spaced(g, k)
      {
        assert Spaced(h, k) && g[..k] == h[..k];
      }
      CallsSpaced(g);
      assert Spaced(h, |h| - 1);
      forall c | c in Calls(h)
        ensures exists m :: m in h && m == Recorded(c.peer, c.kind, c.at)
      {
        if c in Calls(g) {
          var m :| m in g && m == Recorded(c.peer, c.kind, c.at);
          assert m in h;
        } else {
          assert n in h;
        }
      }
      forall j | 0 <= j < |Calls(g)| && n.Recorded? && Calls(g)[j].peer == n.peer && Calls(g)[j].kind == n.kind
        ensures Calls(g)[j].at + D.WINDOW_US <= n.at
      {
        assert Calls(g)[j] in Calls(g);
        assert Recorded(n.peer, n.kind, Calls(g)[j].at) in g;
      }
    }
  }

  /** The debounce never swallows a presence event of an undisturbed session. */
  lemma NothingSwallowed(r: Run, timeoutMs: int, k: nat)
    requires r.Legal() && Undisturbed(r, timeoutMs) && k < |Calls(r.End().notes)|
    ensures D.Accepted(Calls(r.End().notes), k)
  {
    RunCalm(r, timeoutMs);
    CallsSpaced(r.End().notes);
    D.NeverDroppedAfterWindow(Calls(r.End().notes), k);
  }
}
