/** How long a peer that went silent can stay present. */
module PresenceTiming {
  import opened Common
  import opened Presence
  import S = PresenceSafety

  const PROBE_TIMEOUT_US := 10_000_000

  /** The action is no evidence of presence of the peer in slot `i`, and does not free its slot. */
  predicate Silent(s: State, a: Action, i: nat)
    requires i < |s.slots|
  {
    var peer := s.slots[i].addr;
    match a
    case Sighting(p, _) => p != peer
    case ProbeOk(k, _, _) => k < |s.slots| && k != i && s.slots[k].addr != peer
    case ProbeLinkDown(k, h) => k != i || h != s.slots[i].handle
    case HidUp(p, _) => p != peer
    case HidDown(p) => p != peer
    case RevokeBond(p) => p != peer
    case _ => true
  }

  /** A stretch of a run during which slot `i` is watched. It starts at the slot's latest proof of
      presence; `tickedAt` and `probedAt` are the times of the latest tick and of the start of the
      slot's latest probe. */
  datatype Watch =
    | From(state: State, at: int, tickedAt: int, probedAt: int)
    | Then(before: Watch, step: Step)
  {
    function Clock(): int {
      if From? then at else step.now
    }

    /** Ticks come at least every `period` microseconds, every probe of slot `i` has failed 10 s after its
        start, the timeout never exceeds `timeoutMs`, and nothing else is heard of the peer. */
    ghost predicate Obeys(i: nat, period: int, timeoutMs: int)
      decreases this, 0
    {
      match this
      case From(s, at, tickedAt, probedAt) =>
        && i < |s.slots| && S.Inv(s, at) && s.timeoutMs <= timeoutMs
        && tickedAt <= at && probedAt <= at
        && s.slots[i].present && !s.slots[i].connected && s.slots[i].lastSeen == at
      case Then(before, step) =>
        && before.Obeys(i, period, timeoutMs)
        && before.Clock() <= step.now <= before.TickedAt(i, period, timeoutMs) + period
        && var s := before.End(i, period, timeoutMs);
           && i < |s.slots|
           && Enabled(s, step.action) && Silent(s, step.action, i)
           && (step.action.ChangeTimeout? ==> ClampTimeoutS(step.action.seconds) * 1000 <= timeoutMs)
           && (s.slots[i].probing ==> step.now <= before.ProbedAt(i, period, timeoutMs) + PROBE_TIMEOUT_US)
    }

    ghost function End(i: nat, period: int, timeoutMs: int): State
      requires Obeys(i, period, timeoutMs)
      decreases this, 1
    {
      match this
      case From(s, _, _, _) => s
      case Then(before, step) => Next(before.End(i, period, timeoutMs), step)
    }

    ghost function TickedAt(i: nat, period: int, timeoutMs: int): int
      requires Obeys(i, period, timeoutMs)
      decreases this, 1
    {
      match this
      case From(_, _, tickedAt, _) => tickedAt
      case Then(before, step) => if step.action.Ticks? then step.now else before.TickedAt(i, period, timeoutMs)
    }

    ghost function ProbedAt(i: nat, period: int, timeoutMs: int): int
      requires Obeys(i, period, timeoutMs)
      decreases this, 1
    {
      match this
      case From(_, _, _, probedAt) => probedAt
      case Then(before, step) =>
        var s := before.End(i, period, timeoutMs);
        if i < |s.slots| && i < |Next(s, step).slots| && !s.slots[i].probing && Next(s, step).slots[i].probing
        then step.now
        else before.ProbedAt(i, period, timeoutMs)
    }

    function Start(): int {
      if From? then at else before.Start()
    }
  }

  /** The part of a slot that decides whether its peer is given up. */
  predicate SameWatch(x: Slot, y: Slot) {
    x.used == y.used && x.addr == y.addr && x.present == y.present && x.connected == y.connected
    && x.lastSeen == y.lastSeen && (y.probing ==> x.probing)
  }

  lemma SeenOther(s: State, a: Addr, bonded: bool, now: int, synced: bool, i: nat)
    requires i < |s.slots| && s.slots[i].used && s.slots[i].addr != a
    ensures Seen(s, a, bonded, now, synced).slots[i] == s.slots[i]
  {
  }

  lemma HidOther(s: State, a: Addr, bonded: bool, now: int, synced: bool, i: nat)
    requires i < |s.slots| && s.slots[i].used && s.slots[i].addr != a
    ensures HidConnected(s, a, bonded, now, synced).slots[i] == s.slots[i]
    ensures HidDisconnected(s, a, now).slots[i] == s.slots[i]
  {
    SeenOther(s, a, bonded, now, synced, i);
  }

  lemma ProbeOther(s: State, k: nat, h: int, bonded: bool, now: int, synced: bool, i: nat)
    requires i < |s.slots| && s.slots[i].used && k < |s.slots| && k != i && s.slots[k].addr != s.slots[i].addr
    ensures ProbeConnected(s, k, h, bonded, now, synced).slots[i] == s.slots[i]
  {
    var t := Put(s.(radio := Idle), k, s.slots[k].(handle := h, connected := true, probing := false));
    SeenOther(t, s.slots[k].addr, bonded, now, synced, i);
  }

  lemma AdminFrame(s: State, st: Step, i: nat)
    requires i < |s.slots| && s.slots[i].used && Enabled(s, st.action) && Silent(s, st.action, i)
    requires st.action.ProbeFail? || st.action.ProbeLinkDown? || st.action.WipeEvents? || st.action.ChangeTimeout?
             || st.action.RevokeBond? || st.action.RestartScan?
    ensures SameWatch(s.slots[i], Next(s, st).slots[i])
  {
  }

  lemma QuietFrame(s: State, st: Step, i: nat)
    requires i < |s.slots| && s.slots[i].used && Enabled(s, st.action) && Silent(s, st.action, i)
    requires !st.action.Ticks?
    ensures SameWatch(s.slots[i], Next(s, st).slots[i])
  {
    match st.action
    case Sighting(a, bonded) => SeenOther(s, a, bonded, st.now, st.synced, i);
    case HidUp(a, bonded) => HidOther(s, a, bonded, st.now, st.synced, i);
    case HidDown(a) => HidOther(s, a, false, st.now, st.synced, i);
    case ProbeOk(k, h, bonded) => ProbeOther(s, k, h, bonded, st.now, st.synced, i);
    case AllocateBonds(peers, log) => S.PreallocateFrame(s, BondsOf(peers, log), st.now, i);
    case _ => AdminFrame(s, st, i);
  }

  lemma TimeoutStays(s: State, st: Step)
    requires Enabled(s, st.action) && |s.slots| > 0 && !st.action.ChangeTimeout?
    ensures Next(s, st).timeoutMs == s.timeoutMs
  {
    hide TickUpTo, Preallocate, BondsOf;
    match st.action
    case AllocateBonds(peers, log) => PreallocateTimeout(s, BondsOf(peers, log), st.now);
    case Ticks(pairing, replies) => S.TickFrame(s, |s.slots|, 0, st.now, st.synced, pairing, replies);
    case _ =>
  }

  lemma {:induction false} PreallocateTimeout(s: State, bonds: seq<Bond>, now: int)
    ensures Preallocate(s, bonds, now).timeoutMs == s.timeoutMs
    decreases |bonds|
  {
    if bonds != [] {
      var f := FirstFree(s.slots);
      if IndexOf(s.slots, bonds[0].peer) < |s.slots| {
        PreallocateTimeout(s, bonds[1..], now);
      } else if f < |s.slots| {
        PreallocateTimeout(AllocateAt(s, f, bonds[0], now), bonds[1..], now);
      }
    }
  }

  /** What a tick does to a used slot without a link. */
  ghost predicate Ticked(x: Slot, y: Slot, now: int, timeoutMs: int) {
    && y.used && y.addr == x.addr && !y.connected
    && (y.present ==> x.present && y.lastSeen == x.lastSeen)
    && (x.present && y.probing && !x.probing ==> ElapsedMs(now, x.lastSeen) <= timeoutMs)
    && (!x.probing && ElapsedMs(now, x.lastSeen) > timeoutMs ==> !y.present)
  }

  lemma TickSlotWatch(s: State, i: nat, now: int, synced: bool, pairing: bool, reply: ProbeReply)
    requires i < |s.slots| && s.slots[i].used && !s.slots[i].connected
    ensures Ticked(s.slots[i], TickSlot(s, i, now, synced, pairing, reply).slots[i], now, s.timeoutMs)
  {
    var c := CatchUp(s, i, now, synced);
    S.ProbeStartFrame(c, i, now, pairing, reply);
  }

  lemma TickWatch(s: State, i: nat, st: Step)
    requires i < |s.slots| && s.slots[i].used && !s.slots[i].connected
    requires st.action.Ticks? && Enabled(s, st.action)
    ensures Ticked(s.slots[i], Next(s, st).slots[i], st.now, s.timeoutMs)
  {
    var pairing, replies := st.action.pairing, st.action.replies;
    S.TickFrame(s, |s.slots|, i, st.now, st.synced, pairing, replies);
    S.TickFrame(s, i, i, st.now, st.synced, pairing, replies);
    TickSlotWatch(TickUpTo(s, i, st.now, st.synced, pairing, replies), i, st.now, st.synced, pairing, replies[i]);
  }

  /** A present slot can be probing only because of a probe started within the timeout, and no tick has
      come after the last such probe must have failed. */
  ghost predicate Watched(w: Watch, i: nat, period: int, timeoutMs: int)
    requires w.Obeys(i, period, timeoutMs)
  {
    var s := w.End(i, period, timeoutMs);
    var limit := w.Start() + (timeoutMs + 1) * 1000;
    && S.Inv(s, w.Clock()) && s.timeoutMs <= timeoutMs && i < |s.slots|
    && s.slots[i].used && !s.slots[i].connected
    && (s.slots[i].present ==>
          && s.slots[i].lastSeen == w.Start()
          && (s.slots[i].probing ==> w.ProbedAt(i, period, timeoutMs) < limit)
          && w.TickedAt(i, period, timeoutMs) < limit + PROBE_TIMEOUT_US)
  }

  lemma {:induction false} Watching(w: Watch, i: nat, period: int, timeoutMs: int)
    requires w.Obeys(i, period, timeoutMs)
    ensures Watched(w, i, period, timeoutMs)
  {
    match w
    case From(s, at, _, _) =>
      assert S.SlotOk(s.slots[i], s.notes, at);
    case Then(before, step) =>
      Watching(before, i, period, timeoutMs);
      var s := before.End(i, period, timeoutMs);
      S.Later(s, before.Clock(), step.now);
      S.NextKeeps(s, step);
      assert S.SlotOk(s.slots[i], s.notes, step.now);
      if !step.action.ChangeTimeout? { TimeoutStays(s, step); }
      if step.action.Ticks? { TickWatch(s, i, step); } else { QuietFrame(s, step, i); }
  }

  /** A peer that is not heard of any more is given up in time: while its slot is still present, less than
      the timeout, one probe and one tick period have passed since its last proof of presence. */
  lemma SilentPeerLeaves(w: Watch, i: nat, period: int, timeoutMs: int)
    requires w.Obeys(i, period, timeoutMs) && w.Then?
    requires w.Clock() >= w.Start() + (timeoutMs + 1) * 1000 + PROBE_TIMEOUT_US + period
    ensures w.before.Obeys(i, period, timeoutMs) && !w.before.End(i, period, timeoutMs).slots[i].present
    ensures !w.End(i, period, timeoutMs).slots[i].present
  {
    Watching(w.before, i, period, timeoutMs);
    Watching(w, i, period, timeoutMs);
    var s := w.before.End(i, period, timeoutMs);
    if w.step.action.Ticks? { TickWatch(s, i, w.step); } else { QuietFrame(s, w.step, i); }
  }

  // ---------- when a tick probes ----------

  /** A present peer is due 15 s after its last proof of presence until the timeout, at most every 10 s; an
      absent one every 30 s. */
  predicate Due(x: Slot, now: int, timeoutMs: int) {
    var free, since := x.lastProbe == 0, ElapsedMs(now, x.lastProbe);
    x.used && !x.connected && !x.probing
    && if x.present then
         15_000 < ElapsedMs(now, x.lastSeen) <= timeoutMs && (free || since >= 10_000)
       else free || since >= 30_000
  }

  /** A probe was started, or tried and counted against the cooldown. */
  predicate Attempted(x: Slot, y: Slot) {
    y.probing != x.probing || y.lastProbe != x.lastProbe
  }

  lemma SlotProbesWhenDue(s: State, t: State, i: nat, now: int, synced: bool, pairing: bool, reply: ProbeReply)
    requires i < |s.slots| && now > 0 && s.slots[i].lastProbe <= now
    requires t == TickSlot(s, i, now, synced, pairing, reply)
    ensures Attempted(s.slots[i], t.slots[i]) <==> Due(s.slots[i], now, s.timeoutMs) && !pairing
    ensures Attempted(s.slots[i], t.slots[i]) ==> t.slots[i].probing || t.slots[i].lastProbe == now
  {
    var c := CatchUp(s, i, now, synced);
    S.ProbeStartFrame(c, i, now, pairing, reply);
  }

  /** A tick tries to probe exactly the peers that are due, unless a pairing is under way. */
  lemma ProbesExactlyWhenDue(s: State, st: Step, i: nat)
    requires S.Inv(s, st.now) && Enabled(s, st.action) && st.action.Ticks? && i < |s.slots|
    ensures var x, y := s.slots[i], Next(s, st).slots[i];
            (Attempted(x, y) <==> Due(x, st.now, s.timeoutMs) && !st.action.pairing)
            && (Attempted(x, y) ==> y.probing || y.lastProbe == st.now)
  {
    var pairing, replies := st.action.pairing, st.action.replies;
    S.TickFrame(s, |s.slots|, i, st.now, st.synced, pairing, replies);
    S.TickFrame(s, i, i, st.now, st.synced, pairing, replies);
    assert S.SlotOk(s.slots[i], s.notes, st.now);
    var before := TickUpTo(s, i, st.now, st.synced, pairing, replies);
    SlotProbesWhenDue(before, TickSlot(before, i, st.now, st.synced, pairing, replies[i]), i, st.now, st.synced,
                      pairing, replies[i]);
  }
}
