/** What the presence machine makes of what is heard: told from the callbacks of a run, not from its notes. */
module PresenceEvidence {
  import opened Common
  import opened Presence
  import S = PresenceSafety
  import T = PresenceTiming
  import N = PresenceNotes

  // ---------- what is heard ----------

  /** The callback says that `a` is near, or was until now; or the stored log is asked for it. */
  ghost predicate Heard(s: State, act: Action, a: Addr) {
    match act
    case Sighting(p, _) => p == a
    case HidUp(p, _) => p == a
    case HidDown(p) => p == a
    case ProbeOk(k, _, _) => k < |s.slots| && s.slots[k].addr == a
    case ProbeLinkDown(k, h) => k < |s.slots| && Holds(s.slots[k], a) && s.slots[k].handle == h
    case Ticks(_, _) => exists k :: 0 <= k < |s.slots| && Holds(s.slots[k], a) && s.slots[k].connected
    case AllocateBonds(peers, _) => a in peers && forall k :: 0 <= k < |s.slots| ==> !Holds(s.slots[k], a)
    case _ => false
  }

  /** The callback says that the peer is near now. */
  predicate Arrives(act: Action) {
    act.Sighting? || act.HidUp? || act.ProbeOk? || act.Ticks?
  }

  /** Something was heard of `a` at time `t` of the run; its boot counts for everyone. */
  ghost predicate HeardAt(r: Run, a: Addr, t: int)
    requires r.Legal()
  {
    match r
    case Booted(now, _, _, _) => t == now
    case Then(before, step) => HeardAt(before, a, t) || (t == step.now && Heard(before.End(), step.action, a))
  }

  // ---------- what a sighting does ----------

  /** A sighting makes the peer's slot present as of now, whatever slot it is and whatever it was; a bonded peer
      without a slot gets the first free one; no other slot changes. */
  lemma SightingArrives(s: State, a: Addr, bonded: bool, now: int, synced: bool)
    ensures var t := Next(s, Step(now, synced, Sighting(a, bonded)));
            var k, f := IndexOf(s.slots, a), FirstFree(s.slots);
            var claims := k == |s.slots| && f < |s.slots| && bonded;
            var i := if claims then f else k;
            && t.timeoutMs == s.timeoutMs && t.radio == s.radio && t.armed == s.armed
            && (i < |s.slots| ==>
                  && t.slots[i] == s.slots[i].(used := true, addr := a, lastSeen := now, present := true,
                                               ack := synced || (!claims && s.slots[i].ack),
                                               probing := !claims && s.slots[i].probing,
                                               handle := if claims then NO_HANDLE else s.slots[i].handle,
                                               lastProbe := if claims then 0 else s.slots[i].lastProbe))
            && forall j :: 0 <= j < |s.slots| && j != i ==> t.slots[j] == s.slots[j]
  {
  }

  /** A slot after a step: refreshed by what was heard, or present only as it was before. */
  ghost predicate UpToDate(s: State, st: Step, x: Slot, y: Slot) {
    && (y.used && Heard(s, st.action, y.addr) && !st.action.AllocateBonds? ==>
          y.lastSeen == st.now && (Arrives(st.action) ==> y.present))
    && (y.present ==>
          y.used && (y.lastSeen == st.now
                     || (x.present && x.addr == y.addr && x.lastSeen == y.lastSeen && !Heard(s, st.action, y.addr))))
  }

  lemma SeenUpToDate(s: State, a: Addr, bonded: bool, now: int, synced: bool, i: nat)
    requires S.Distinct(s.slots) && i < |s.slots| && (s.slots[i].present ==> s.slots[i].used)
    ensures var x, y := s.slots[i], Seen(s, a, bonded, now, synced).slots[i];
            if y.used && y.addr == a then y.present && y.lastSeen == now else y == x
  {
    if Holds(s.slots[i], a) { assert IndexOf(s.slots, a) == i; }
  }

  lemma HidUpToDate(s: State, a: Addr, bonded: bool, now: int, synced: bool, i: nat)
    requires S.Distinct(s.slots) && i < |s.slots| && (s.slots[i].present ==> s.slots[i].used)
    ensures var x, y := s.slots[i], HidConnected(s, a, bonded, now, synced).slots[i];
            if y.used && y.addr == a then y.present && y.lastSeen == now else y == x
  {
    hide Seen;
    SeenUpToDate(s, a, bonded, now, synced, i);
  }

  lemma SightingUpToDate(s: State, st: Step, i: nat)
    requires S.Inv(s, st.now) && Enabled(s, st.action) && i < |s.slots|
    requires st.action.Sighting? || st.action.HidUp? || st.action.ProbeOk?
    ensures UpToDate(s, st, s.slots[i], Next(s, st).slots[i])
  {
    assert S.SlotOk(s.slots[i], s.notes, st.now);
    match st.action
    case Sighting(a, bonded) => SeenUpToDate(s, a, bonded, st.now, st.synced, i);
    case HidUp(a, bonded) => HidUpToDate(s, a, bonded, st.now, st.synced, i);
    case ProbeOk(k, h, bonded) =>
      var t := Put(s.(radio := Idle), k, s.slots[k].(handle := h, connected := true, probing := false));
      SeenUpToDate(t, s.slots[k].addr, bonded, st.now, st.synced, i);
  }

  lemma TickSlotUpToDate(s: State, i: nat, now: int, synced: bool, pairing: bool, reply: ProbeReply)
    requires i < |s.slots| && (s.slots[i].present ==> s.slots[i].used)
    ensures var x, y := s.slots[i], TickSlot(s, i, now, synced, pairing, reply).slots[i];
            && y.used == x.used && y.addr == x.addr && (!x.used ==> y == x)
            && (x.used && x.connected ==> y.present && y.lastSeen == now)
            && (!x.connected && y.present ==> x.present && y.lastSeen == x.lastSeen)
  {
    var c := CatchUp(RefreshLinked(s, i, now), i, now, synced);
    S.ProbeStartFrame(c, i, now, pairing, reply);
  }

  lemma TickUpToDate(s: State, st: Step, i: nat)
    requires S.Inv(s, st.now) && Enabled(s, st.action) && st.action.Ticks? && i < |s.slots|
    ensures UpToDate(s, st, s.slots[i], Next(s, st).slots[i])
  {
    hide TickSlot;
    var pairing, replies := st.action.pairing, st.action.replies;
    S.TickFrame(s, |s.slots|, i, st.now, st.synced, pairing, replies);
    S.TickFrame(s, i, i, st.now, st.synced, pairing, replies);
    assert S.SlotOk(s.slots[i], s.notes, st.now);
    TickSlotUpToDate(TickUpTo(s, i, st.now, st.synced, pairing, replies), i, st.now, st.synced, pairing, replies[i]);
    var x := s.slots[i];
    if x.used && !x.connected {
      assert forall k :: 0 <= k < |s.slots| && Holds(s.slots[k], x.addr) ==> k == i;
    }
  }

  lemma {:induction false} PreallocateFills(s: State, bonds: seq<Bond>, now: int, i: nat)
    requires i < |s.slots|
    ensures var x, y := s.slots[i], Preallocate(s, bonds, now).slots[i];
            if x.used then y == x
            else y == x || (y.used && exists b :: b in bonds && y == Allocated(b, now))
    decreases |bonds|
  {
    if bonds != [] {
      var f := FirstFree(s.slots);
      if IndexOf(s.slots, bonds[0].peer) < |s.slots| {
        PreallocateFills(s, bonds[1..], now, i);
      } else if f < |s.slots| {
        PreallocateFills(AllocateAt(s, f, bonds[0], now), bonds[1..], now, i);
        assert bonds[0] in bonds;
      }
    }
  }

  lemma AllocationUpToDate(s: State, st: Step, i: nat)
    requires S.Inv(s, st.now) && Enabled(s, st.action) && st.action.AllocateBonds? && i < |s.slots|
    ensures UpToDate(s, st, s.slots[i], Next(s, st).slots[i])
  {
    assert S.SlotOk(s.slots[i], s.notes, st.now);
    PreallocateFills(s, BondsOf(st.action.peers, st.action.log), st.now, i);
  }

  lemma OtherUpToDate(s: State, st: Step, i: nat)
    requires S.Inv(s, st.now) && Enabled(s, st.action) && i < |s.slots|
    requires !st.action.Sighting? && !st.action.HidUp? && !st.action.ProbeOk? && !st.action.Ticks?
    requires !st.action.AllocateBonds?
    ensures UpToDate(s, st, s.slots[i], Next(s, st).slots[i])
  {
    assert S.SlotOk(s.slots[i], s.notes, st.now);
    match st.action
    case HidDown(a) => if Holds(s.slots[i], a) { assert IndexOf(s.slots, a) == i; }
    case _ =>
  }

  /** Whatever the callback: who was heard has its slot refreshed, and nobody else becomes present. */
  lemma HeardRefreshes(s: State, st: Step, i: nat)
    requires S.Inv(s, st.now) && Enabled(s, st.action) && i < |s.slots|
    ensures UpToDate(s, st, s.slots[i], Next(s, st).slots[i])
  {
    match st.action
    case Sighting(_, _) => SightingUpToDate(s, st, i);
    case HidUp(_, _) => SightingUpToDate(s, st, i);
    case ProbeOk(_, _, _) => SightingUpToDate(s, st, i);
    case Ticks(_, _) => TickUpToDate(s, st, i);
    case AllocateBonds(_, _) => AllocationUpToDate(s, st, i);
    case _ => OtherUpToDate(s, st, i);
  }

  // ---------- over runs ----------

  predicate KnowsOf(x: Slot, t: int) {
    x.present ==> t <= x.lastSeen
  }

  /** A present slot knows when its peer was last heard. */
  ghost predicate Informed(r: Run)
    requires r.Legal()
  {
    forall i, t: int :: 0 <= i < |r.End().slots| && HeardAt(r, r.End().slots[i].addr, t) ==>
      KnowsOf(r.End().slots[i], t)
  }

  lemma {:induction false} HeardBefore(r: Run, a: Addr, t: int)
    requires r.Legal() && HeardAt(r, a, t)
    ensures t <= r.Clock()
  {
    if r.Then? && HeardAt(r.before, a, t) { HeardBefore(r.before, a, t); }
  }

  lemma {:induction false} PresentInformed(r: Run)
    requires r.Legal()
    ensures Informed(r)
  {
    match r
    case Booted(now, stored, peers, log) =>
      var blank := State(seq(SLOTS, i => EMPTY_SLOT), TIMEOUT_DEFAULT_S * 1000, Idle, false, []);
      forall i | 0 <= i < SLOTS
        ensures r.End().slots[i].present ==> r.End().slots[i].lastSeen == now
      {
        PreallocateFills(LoadTimeout(blank, stored), BondsOf(peers, log), now, i);
      }
    case Then(before, step) =>
      PresentInformed(before);
      S.RunKeeps(before);
      S.Later(before.End(), before.Clock(), step.now);
      InformedStep(before, step);
  }

  lemma InformedStep(before: Run, step: Step)
    requires Run.Then(before, step).Legal() && Informed(before) && S.Inv(before.End(), step.now)
    ensures Informed(Run.Then(before, step))
  {
    hide Next;
    var r, s := Run.Then(before, step), before.End();
    SlotsKept(s, step);
    forall i, t: int | 0 <= i < |r.End().slots| && HeardAt(r, r.End().slots[i].addr, t)
      ensures KnowsOf(r.End().slots[i], t)
    {
      var x, y := s.slots[i], r.End().slots[i];
      HeardRefreshes(s, step, i);
      HeardBefore(r, y.addr, t);
      if y.present && y.lastSeen != step.now {
        assert HeardAt(before, x.addr, t);
        assert KnowsOf(x, t);
      }
    }
  }

  lemma SlotsKept(s: State, st: Step)
    requires Enabled(s, st.action)
    ensures |Next(s, st).slots| == |s.slots|
  {
  }

  /** The timeout in force, in seconds: the latest one set, limited to 30..600; before that the stored one if it is
      in this range, and 60 otherwise. */
  function Seconds(r: Run): int {
    match r
    case Booted(_, stored, _, _) => if stored.Some? && 30 <= stored.value <= 600 then stored.value else 60
    case Then(before, step) =>
      match step.action
      case ChangeTimeout(s) => if s < 30 then 30 else if 600 < s then 600 else s
      case _ => Seconds(before)
  }

  lemma {:induction false} TimeoutInForce(r: Run)
    requires r.Legal()
    ensures r.End().timeoutMs == 1000 * Seconds(r)
  {
    match r
    case Booted(now, stored, peers, log) =>
      var blank := State(seq(SLOTS, i => EMPTY_SLOT), TIMEOUT_DEFAULT_S * 1000, Idle, false, []);
      T.PreallocateTimeout(LoadTimeout(blank, stored), BondsOf(peers, log), now);
    case Then(before, step) =>
      TimeoutInForce(before);
      S.RunKeeps(before);
      if !step.action.ChangeTimeout? { T.TimeoutStays(before.End(), step); }
  }

  // ---------- what is recorded ----------

  /** `n` is noted in the step. */
  ghost predicate Noted(s: State, t: State, n: Note) {
    s.notes <= t.notes && n in t.notes[|s.notes|..]
  }

  /** A slot that the tick gives up. */
  predicate Leaving(x: Slot, now: int, timeoutMs: int) {
    x.used && x.present && !x.connected && !x.probing && ElapsedMs(now, x.lastSeen) > timeoutMs
  }

  /** All that one slot's turn in a tick notes: a live link, an IN that is owed, and the departure. */
  function Told(x: Slot, now: int, synced: bool, timeoutMs: int): seq<Note> {
    (if x.used && x.connected then [Refreshed(x.addr, now)] else [])
    + (if x.used && synced && (x.present || x.connected) && !(x.present && x.ack) then [Recorded(x.addr, In, now)] else [])
    + (if Leaving(x, now, timeoutMs) then [Left(x.addr, now, timeoutMs)] else [])
    + (if Leaving(x, now, timeoutMs) && synced then [Recorded(x.addr, Out, now)] else [])
  }

  function ToldUpTo(slots: seq<Slot>, n: nat, now: int, synced: bool, timeoutMs: int): seq<Note>
    requires n <= |slots|
  {
    if n == 0 then [] else ToldUpTo(slots, n - 1, now, synced, timeoutMs) + Told(slots[n - 1], now, synced, timeoutMs)
  }

  lemma CaughtUpTells(s: State, i: nat, now: int, synced: bool)
    requires i < |s.slots| && s.slots[i].used
    ensures var x, c := s.slots[i], CatchUp(RefreshLinked(s, i, now), i, now, synced);
            && c.notes == s.notes + (if x.connected then [Refreshed(x.addr, now)] else [])
                          + (if synced && (x.present || x.connected) && !(x.present && x.ack)
                             then [Recorded(x.addr, In, now)] else [])
            && c.timeoutMs == s.timeoutMs
            && c.slots[i].present == (x.present || x.connected) && (synced && c.slots[i].present ==> c.slots[i].ack)
            && (!x.connected ==> c.slots[i] == x.(ack := c.slots[i].ack))
            && c.slots[i].connected == x.connected && c.slots[i].addr == x.addr
  {
  }

  lemma TickSlotTells(s: State, i: nat, now: int, synced: bool, pairing: bool, reply: ProbeReply)
    requires i < |s.slots|
    ensures TickSlot(s, i, now, synced, pairing, reply).notes
            == s.notes + Told(s.slots[i], now, synced, s.timeoutMs)
  {
    hide CatchUp, RefreshLinked, ProbeStart;
    var x := s.slots[i];
    if x.used {
      CaughtUpTells(s, i, now, synced);
      var c := CatchUp(RefreshLinked(s, i, now), i, now, synced);
      S.ProbeStartFrame(c, i, now, pairing, reply);
    }
  }

  lemma {:induction false} TickTells(s: State, n: nat, now: int, synced: bool, pairing: bool, replies: seq<ProbeReply>)
    requires n <= |s.slots| == |replies|
    ensures TickUpTo(s, n, now, synced, pairing, replies).notes == s.notes + ToldUpTo(s.slots, n, now, synced, s.timeoutMs)
  {
    hide TickSlot, Told;
    if n > 0 {
      TickTells(s, n - 1, now, synced, pairing, replies);
      S.TickFrame(s, n - 1, n - 1, now, synced, pairing, replies);
      TickSlotTells(TickUpTo(s, n - 1, now, synced, pairing, replies), n - 1, now, synced, pairing, replies[n - 1]);
    }
  }

  lemma {:induction false} ToldBySome(slots: seq<Slot>, m: nat, now: int, synced: bool, timeoutMs: int, n: Note)
    requires m <= |slots|
    ensures n in ToldUpTo(slots, m, now, synced, timeoutMs)
            <==> exists i :: 0 <= i < m && n in Told(slots[i], now, synced, timeoutMs)
  {
    hide Told;
    if m > 0 { ToldBySome(slots, m - 1, now, synced, timeoutMs, n); }
  }

  /** A tick notes exactly what its slots' turns tell. */
  lemma TickNotes(s: State, st: Step, n: Note)
    requires Enabled(s, st.action) && st.action.Ticks?
    ensures Noted(s, Next(s, st), n)
            <==> exists i :: 0 <= i < |s.slots| && n in Told(s.slots[i], st.now, st.synced, s.timeoutMs)
  {
    hide Told, TickUpTo;
    var told := ToldUpTo(s.slots, |s.slots|, st.now, st.synced, s.timeoutMs);
    TickTells(s, |s.slots|, st.now, st.synced, st.action.pairing, st.action.replies);
    ToldBySome(s.slots, |s.slots|, st.now, st.synced, s.timeoutMs, n);
    assert (s.notes + told)[|s.notes|..] == told;
  }

  /** The notes of the steps that are neither a tick nor a sighting hold no event. */
  lemma QuietNotes(s: State, st: Step, n: Note)
    requires Enabled(s, st.action) && n.Recorded? && Noted(s, Next(s, st), n)
    ensures Arrives(st.action)
  {
    match st.action
    case AllocateBonds(peers, log) => N.AllocationNotes(s, peers, log, st.now);
    case _ =>
  }

  /** OUT is recorded for a peer exactly when a tick with the wall clock known gives it up. */
  lemma OutRecordedIff(s: State, st: Step, a: Addr)
    requires Enabled(s, st.action)
    ensures Noted(s, Next(s, st), Recorded(a, Out, st.now))
            <==> st.action.Ticks? && st.synced
                 && exists i :: 0 <= i < |s.slots| && s.slots[i].addr == a && Leaving(s.slots[i], st.now, s.timeoutMs)
  {
    var n := Recorded(a, Out, st.now);
    if st.action.Ticks? {
      TickNotes(s, st, n);
      forall i | 0 <= i < |s.slots|
        ensures n in Told(s.slots[i], st.now, st.synced, s.timeoutMs)
                <==> st.synced && s.slots[i].addr == a && Leaving(s.slots[i], st.now, s.timeoutMs)
      {
        OutTold(s.slots[i], st.now, st.synced, s.timeoutMs, a);
      }
    } else if Noted(s, Next(s, st), n) {
      QuietNotes(s, st, n);
      SightingTells(s, st, n);
    }
  }

  lemma OutTold(x: Slot, now: int, synced: bool, timeoutMs: int, a: Addr)
    ensures Recorded(a, Out, now) in Told(x, now, synced, timeoutMs)
            <==> synced && x.addr == a && Leaving(x, now, timeoutMs)
  {
  }

  lemma InTold(x: Slot, now: int, synced: bool, timeoutMs: int, a: Addr)
    ensures Recorded(a, In, now) in Told(x, now, synced, timeoutMs)
            <==> Holds(x, a) && synced && (x.present || x.connected) && !(x.present && x.ack)
  {
  }

  /** The peer of a sighting, and whether the bond store knows it. */
  function Seer(s: State, act: Action): (Addr, bool)
    requires act.Sighting? || act.HidUp? || (act.ProbeOk? && act.slot < |s.slots|)
  {
    match act
    case Sighting(p, bonded) => (p, bonded)
    case HidUp(p, bonded) => (p, bonded)
    case ProbeOk(k, _, bonded) => (s.slots[k].addr, bonded)
  }

  /** A sighting's IN is owed: the peer's slot is not acknowledged, or the peer gets a free one. */
  predicate Owed(slots: seq<Slot>, a: Addr, bonded: bool) {
    var k := IndexOf(slots, a);
    if k < |slots| then !slots[k].ack else bonded && FirstFree(slots) < |slots|
  }

  lemma SeenTells(s: State, a: Addr, bonded: bool, now: int, synced: bool)
    ensures Seen(s, a, bonded, now, synced).notes
            == s.notes + ([Refreshed(a, now)] + if synced && Owed(s.slots, a, bonded) then [Recorded(a, In, now)] else [])
  {
  }

  lemma SameOwed(x: seq<Slot>, y: seq<Slot>, a: Addr, bonded: bool)
    requires |x| == |y| && forall i :: 0 <= i < |x| ==> x[i].used == y[i].used && x[i].addr == y[i].addr && x[i].ack == y[i].ack
    ensures Owed(x, a, bonded) == Owed(y, a, bonded)
  {
    assert forall i :: 0 <= i < |x| ==> Holds(x[i], a) == Holds(y[i], a);
  }

  lemma SightingTells(s: State, st: Step, n: Note)
    requires Enabled(s, st.action) && n.Recorded? && (st.action.Sighting? || st.action.HidUp? || st.action.ProbeOk?)
    ensures var (a, bonded) := Seer(s, st.action);
            Noted(s, Next(s, st), n) <==> n == Recorded(a, In, st.now) && st.synced && Owed(s.slots, a, bonded)
  {
    hide Seen, Owed, Next;
    var (a, bonded) := Seer(s, st.action);
    var more := [Refreshed(a, st.now)] + if st.synced && Owed(s.slots, a, bonded) then [Recorded(a, In, st.now)] else [];
    NextOfSighting(s, st);
    assert (s.notes + more)[|s.notes|..] == more;
  }

  lemma NextOfSighting(s: State, st: Step)
    requires Enabled(s, st.action) && (st.action.Sighting? || st.action.HidUp? || st.action.ProbeOk?)
    ensures var (a, bonded) := Seer(s, st.action);
            Next(s, st).notes == s.notes + ([Refreshed(a, st.now)]
                                            + if st.synced && Owed(s.slots, a, bonded) then [Recorded(a, In, st.now)] else [])
  {
    hide Seen, Owed;
    match st.action
    case Sighting(a, bonded) => SeenTells(s, a, bonded, st.now, st.synced);
    case HidUp(a, bonded) => SeenTells(s, a, bonded, st.now, st.synced);
    case ProbeOk(k, h, bonded) =>
      var u := Put(s.(radio := Idle), k, s.slots[k].(handle := h, connected := true, probing := false));
      SeenTells(u, s.slots[k].addr, bonded, st.now, st.synced);
      SameOwed(s.slots, u.slots, s.slots[k].addr, bonded);
  }

  /** IN is recorded for a peer exactly when the wall clock is known and its slot, not acknowledged yet, is sighted
      or found present or connected by a tick, or the peer is bonded and its sighting gets it a slot. */
  lemma InRecordedIff(s: State, st: Step, a: Addr)
    requires Enabled(s, st.action)
    ensures Noted(s, Next(s, st), Recorded(a, In, st.now))
            <==> st.synced &&
                 match st.action
                 case Ticks(_, _) =>
                   exists i :: 0 <= i < |s.slots| && Holds(s.slots[i], a) && (s.slots[i].present || s.slots[i].connected)
                               && !(s.slots[i].present && s.slots[i].ack)
                 case Sighting(p, bonded) => p == a && Owed(s.slots, a, bonded)
                 case HidUp(p, bonded) => p == a && Owed(s.slots, a, bonded)
                 case ProbeOk(k, _, bonded) => s.slots[k].addr == a && Owed(s.slots, a, bonded)
                 case _ => false
  {
    var n := Recorded(a, In, st.now);
    if st.action.Ticks? {
      TickNotes(s, st, n);
      forall i | 0 <= i < |s.slots|
        ensures n in Told(s.slots[i], st.now, st.synced, s.timeoutMs)
                <==> Holds(s.slots[i], a) && st.synced && (s.slots[i].present || s.slots[i].connected)
                     && !(s.slots[i].present && s.slots[i].ack)
      {
        InTold(s.slots[i], st.now, st.synced, s.timeoutMs, a);
      }
    } else if st.action.Sighting? || st.action.HidUp? || st.action.ProbeOk? {
      SightingTells(s, st, n);
    } else if Noted(s, Next(s, st), n) {
      QuietNotes(s, st, n);
    }
  }

  /** No premature OUT: whenever a run records an OUT of a peer, the boot and everything heard of the peer lie
      further back than the timeout in force, in microseconds. */
  lemma NoPrematureOut(r: Run, a: Addr, t: int)
    requires r.Legal() && r.Then? && Noted(r.before.End(), r.End(), Recorded(a, Out, r.step.now)) && HeardAt(r, a, t)
    ensures t + 1000 * (1000 * Seconds(r.before) + 1) <= r.step.now
    ensures 30 <= Seconds(r.before) <= 600
  {
    var s := r.before.End();
    OutRecordedIff(s, r.step, a);
    var i :| 0 <= i < |s.slots| && s.slots[i].addr == a && Leaving(s.slots[i], r.step.now, s.timeoutMs);
    S.RunKeeps(r.before);
    PresentInformed(r.before);
    TimeoutInForce(r.before);
    NotHeardLeaving(s, r.step, i);
    assert HeardAt(r.before, a, t) ==> KnowsOf(s.slots[i], t);
  }

  lemma NotHeardLeaving(s: State, st: Step, i: nat)
    requires S.Distinct(s.slots) && st.action.Ticks? && i < |s.slots| && Leaving(s.slots[i], st.now, s.timeoutMs)
    ensures !Heard(s, st.action, s.slots[i].addr)
  {
    assert forall k :: 0 <= k < |s.slots| && Holds(s.slots[k], s.slots[i].addr) ==> k == i;
  }

  // ---------- who was heard stays for the timeout ----------

  /** `u` continues `w`, no bond of `a` was revoked, and the timeout was never below `timeoutMs`. */
  ghost predicate Goes(u: Run, w: Run, a: Addr, timeoutMs: int)
    requires u.Legal()
  {
    timeoutMs <= u.End().timeoutMs
    && (u == w || (u.Then? && Goes(u.before, w, a, timeoutMs) && u.step.action != RevokeBond(a)))
  }

  lemma SlotStays(s: State, st: Step, i: nat)
    requires S.Inv(s, st.now) && Enabled(s, st.action) && i < |s.slots| && s.slots[i].present
    requires st.action != RevokeBond(s.slots[i].addr)
    ensures var x, y := s.slots[i], Next(s, st).slots[i];
            && y.used && y.addr == x.addr && (y.present ==> x.lastSeen <= y.lastSeen)
            && (!y.present ==> ElapsedMs(st.now, x.lastSeen) > s.timeoutMs)
  {
    var y := Next(s, st).slots[i];
    assert S.SlotOk(s.slots[i], s.notes, st.now);
    S.NextKeeps(s, st);
    S.StepHome(s, st, i);
    HeardRefreshes(s, st, i);
    if !y.present { S.LeavesOnlyWhenSilent(s, st, i); }
  }

  /** A present peer is given up, if ever, only when nothing was heard of it for a timeout: who was heard at `t` is
      present until then, whatever the callbacks and whatever its slot. */
  lemma {:induction false} PresentForTimeout(u: Run, w: Run, i: nat, timeoutMs: int)
    requires u.Legal() && w.Legal() && i < |w.End().slots| && w.End().slots[i].present
    requires Goes(u, w, w.End().slots[i].addr, timeoutMs)
    requires u.Clock() < w.End().slots[i].lastSeen + 1000 * (timeoutMs + 1)
    ensures i < |u.End().slots| && Holds(u.End().slots[i], w.End().slots[i].addr) && u.End().slots[i].present
    ensures w.End().slots[i].lastSeen <= u.End().slots[i].lastSeen
  {
    S.RunKeeps(u);
    if u == w {
      assert S.SlotOk(u.End().slots[i], u.End().notes, u.Clock());
    } else {
      PresentForTimeout(u.before, w, i, timeoutMs);
      S.RunKeeps(u.before);
      S.Later(u.before.End(), u.before.Clock(), u.Clock());
      SlotStays(u.before.End(), u.step, i);
    }
  }

  /** A revoked bond frees the peer's slot and nothing else; a probe of it that is pending stays pending. */
  lemma RevokeFrees(s: State, a: Addr, now: int, synced: bool)
    requires S.Distinct(s.slots)
    ensures var t := Next(s, Step(now, synced, RevokeBond(a)));
            && t == s.(slots := t.slots) && |t.slots| == |s.slots|
            && forall i :: 0 <= i < |s.slots| ==>
                 !Holds(t.slots[i], a)
                 && t.slots[i] == if Holds(s.slots[i], a) then EMPTY_SLOT else s.slots[i]
  {
  }

  // ---------- links and probes ----------

  /** Which callbacks mark a slot connected, and which take the mark away. */
  lemma ConnectedIff(s: State, st: Step, i: nat)
    requires S.Inv(s, st.now) && Enabled(s, st.action) && i < |s.slots|
    ensures var x, y := s.slots[i], Next(s, st).slots[i];
            y.connected <==>
              match st.action
              case ProbeOk(k, _, _) => k == i || x.connected
              case HidUp(p, _) => Holds(y, p) || x.connected
              case ProbeLinkDown(k, h) => x.connected && !(k == i && h == x.handle)
              case HidDown(p) => x.connected && !Holds(x, p)
              case RevokeBond(p) => x.connected && !Holds(x, p)
              case AllocateBonds(_, _) => x.connected && (x.used || y == x)
              case _ => x.connected
  {
    match st.action
    case Sighting(a, bonded) => SeenConnected(s, a, bonded, st.now, st.synced, i);
    case HidUp(a, bonded) => HidConnectedIff(s, a, bonded, st.now, st.synced, i);
    case ProbeOk(k, h, bonded) =>
      var t := Put(s.(radio := Idle), k, s.slots[k].(handle := h, connected := true, probing := false));
      SeenConnected(t, s.slots[k].addr, bonded, st.now, st.synced, i);
    case Ticks(_, _) => TickConnected(s, st, i);
    case AllocateBonds(peers, log) => PreallocateFills(s, BondsOf(peers, log), st.now, i);
    case _ =>
  }

  lemma SeenConnected(s: State, a: Addr, bonded: bool, now: int, synced: bool, i: nat)
    requires i < |s.slots|
    ensures Seen(s, a, bonded, now, synced).slots[i].connected == s.slots[i].connected
  {
  }

  lemma HidConnectedIff(s: State, a: Addr, bonded: bool, now: int, synced: bool, i: nat)
    requires i < |s.slots| && S.Inv(s, now)
    ensures var y := HidConnected(s, a, bonded, now, synced).slots[i];
            y.connected <==> Holds(y, a) || s.slots[i].connected
  {
    hide Seen;
    SeenConnected(s, a, bonded, now, synced, i);
    S.SeenKeeps(s, a, bonded, now, synced);
    var t := Seen(s, a, bonded, now, synced);
    if Holds(t.slots[i], a) { assert IndexOf(t.slots, a) == i; }
  }

  lemma TickConnected(s: State, st: Step, i: nat)
    requires Enabled(s, st.action) && st.action.Ticks? && i < |s.slots|
    ensures Next(s, st).slots[i].connected == s.slots[i].connected
    ensures s.slots[i].used ==>
              Next(s, st).slots[i].lastProbe == s.slots[i].lastProbe || Next(s, st).slots[i].lastProbe == st.now
  {
    var pairing, replies := st.action.pairing, st.action.replies;
    S.TickFrame(s, |s.slots|, i, st.now, st.synced, pairing, replies);
    S.TickFrame(s, i, i, st.now, st.synced, pairing, replies);
    TickSlotConnected(TickUpTo(s, i, st.now, st.synced, pairing, replies), i, st.now, st.synced, pairing, replies[i]);
  }

  lemma TickSlotConnected(s: State, i: nat, now: int, synced: bool, pairing: bool, reply: ProbeReply)
    requires i < |s.slots|
    ensures var x, y := s.slots[i], TickSlot(s, i, now, synced, pairing, reply).slots[i];
            y.connected == x.connected && (y.lastProbe == x.lastProbe || y.lastProbe == now)
  {
    var c := CatchUp(RefreshLinked(s, i, now), i, now, synced);
    S.ProbeStartFrame(c, i, now, pairing, reply);
  }

  /** A probe of slot `i` ends: the connect fails, or its link goes down. */
  predicate ProbeEnds(s: State, act: Action, i: nat)
    requires i < |s.slots|
  {
    act == ProbeFail(i) || (act.ProbeLinkDown? && act.slot == i && act.handle == s.slots[i].handle)
  }

  lemma ProbeTimes(s: State, st: Step, i: nat)
    requires S.Inv(s, st.now) && Enabled(s, st.action) && i < |s.slots| && s.slots[i].used
    requires st.action != RevokeBond(s.slots[i].addr)
    ensures var x, y := s.slots[i], Next(s, st).slots[i];
            && y.used && y.addr == x.addr && (y.lastProbe == x.lastProbe || y.lastProbe == st.now)
            && (ProbeEnds(s, st.action, i) ==> y.lastProbe == st.now)
  {
    hide Seen, HidConnected, TickUpTo, Preallocate;
    S.StepHome(s, st, i);
    match st.action
    case Sighting(a, bonded) => SightingProbeTime(s, a, bonded, st.now, st.synced, i);
    case HidUp(a, bonded) => SightingProbeTime(s, a, bonded, st.now, st.synced, i);
    case ProbeOk(k, h, bonded) =>
      var t := Put(s.(radio := Idle), k, s.slots[k].(handle := h, connected := true, probing := false));
      SightingProbeTime(t, s.slots[k].addr, bonded, st.now, st.synced, i);
    case Ticks(_, _) => TickConnected(s, st, i);
    case AllocateBonds(peers, log) => PreallocateFills(s, BondsOf(peers, log), st.now, i);
    case _ =>
  }

  lemma SightingProbeTime(s: State, a: Addr, bonded: bool, now: int, synced: bool, i: nat)
    requires i < |s.slots| && s.slots[i].used
    ensures Seen(s, a, bonded, now, synced).slots[i].lastProbe == s.slots[i].lastProbe
    ensures HidConnected(s, a, bonded, now, synced).slots[i].lastProbe == s.slots[i].lastProbe
  {
  }

  lemma {:induction false} ProbedSince(u: Run, w: Run, i: nat, timeoutMs: int)
    requires u.Legal() && w.Legal() && w.Then? && i < |w.before.End().slots|
    requires ProbeEnds(w.before.End(), w.step.action, i) && w.before.End().slots[i].used
    requires Goes(u, w, w.before.End().slots[i].addr, timeoutMs)
    ensures i < |u.End().slots| && Holds(u.End().slots[i], w.before.End().slots[i].addr)
    ensures w.step.now <= u.End().slots[i].lastProbe
  {
    S.RunKeeps(u.before);
    S.Later(u.before.End(), u.before.Clock(), u.Clock());
    if u != w { ProbedSince(u.before, w, i, timeoutMs); }
    ProbeTimes(u.before.End(), u.step, i);
  }

  /** After a probe of a peer has ended, no tick starts another one before 10 s have passed, whatever happens
      between, and none before 30 s if the peer is away by then. */
  lemma ProbesSpaced(u: Run, w: Run, i: nat, timeoutMs: int)
    requires u.Legal() && w.Legal() && w.Then? && i < |w.before.End().slots|
    requires ProbeEnds(w.before.End(), w.step.action, i) && w.before.End().slots[i].used
    requires u != w && Goes(u, w, w.before.End().slots[i].addr, timeoutMs) && u.step.action.Ticks?
    requires i < |u.before.End().slots| && !u.before.End().slots[i].probing && u.End().slots[i].probing
    ensures w.step.now + 10_000_000 <= u.step.now
    ensures !u.before.End().slots[i].present ==> w.step.now + 30_000_000 <= u.step.now
  {
    S.RunKeeps(u.before);
    S.Later(u.before.End(), u.before.Clock(), u.Clock());
    ProbedSince(u.before, w, i, timeoutMs);
    T.ProbesExactlyWhenDue(u.before.End(), u.step, i);
    S.RunKeeps(w);
  }
}
