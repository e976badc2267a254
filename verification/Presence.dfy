/** The presence state machine of components/ble/dd_ble.c as a function from state to state.

    One step is one callback run to completion; `now` is the reading of the microsecond timer that
    the step uses, and `synced` says whether the wall clock is known (`dd_time_now_unix() > 0`).
    Everything the device did so far is kept in `notes`. */
module Presence {
  import opened Common
  import opened EventLines
  import L = LatestEvents

  const SLOTS := 8
  const TIMEOUT_DEFAULT_S := 60
  const TIMEOUT_MIN_S := 30
  const TIMEOUT_MAX_S := 600
  const PROBE_AFTER_MS := 15000
  const PROBE_COOLDOWN_MS := 10000
  const REPROBE_OUT_MS := 30000
  const NO_HANDLE := 0xFFFF

  /** `presence_slot_t`. */
  datatype Slot = Slot(
    used: bool,
    addr: Addr,
    lastSeen: int,
    lastProbe: int,
    present: bool,
    ack: bool,
    probing: bool,
    connected: bool,
    handle: int)

  /** A slot after `memset(.., 0, ..)`; also its value in static storage. */
  const EMPTY_SLOT := Slot(false, ZERO_ADDR, 0, 0, false, false, false, false, 0)

  /** The controller's one scanning resource, shared by the scanner and a pending connect. */
  datatype Radio = Scanning | Connecting(slot: nat) | Idle

  /** What the controller answers when a step stops the scanner and asks for a connection. */
  datatype ProbeReply = ProbeReply(cancelFails: bool, accepts: bool)

  /** What happened, oldest first. `Recorded` is a call of `dd_event_record`, `Resumed` restores a
      peer as present from the stored log, `Refreshed` is a proof of presence (a sighting, a tick on a
      live link, a link going down) and `Left` a slot losing its `present` flag. */
  datatype Note =
    | Recorded(peer: Addr, kind: Kind, at: int)
    | Resumed(peer: Addr, at: int)
    | Refreshed(peer: Addr, at: int)
    | Left(peer: Addr, at: int, timeoutMs: int)
    | Wiped(at: int)

  datatype State = State(slots: seq<Slot>, timeoutMs: int, radio: Radio, armed: bool, notes: seq<Note>)

  /** Milliseconds from `since` to `now`, as the C code computes them. */
  function ElapsedMs(now: int, since: int): int {
    TruncDiv(now - since, 1000)
  }

  // ---------- slots ----------

  predicate Holds(x: Slot, a: Addr) {
    x.used && x.addr == a
  }

  /** The first slot from `i` on that holds `a`, or `|slots|`. */
  function IndexOf(slots: seq<Slot>, a: Addr, i: nat := 0): (k: nat)
    requires i <= |slots|
    ensures i <= k <= |slots|
    ensures k < |slots| ==> Holds(slots[k], a)
    ensures forall j :: i <= j < k ==> !Holds(slots[j], a)
    decreases |slots| - i
  {
    if i == |slots| || Holds(slots[i], a) then i else IndexOf(slots, a, i + 1)
  }

  /** The first unused slot from `i` on, or `|slots|`. */
  function FirstFree(slots: seq<Slot>, i: nat := 0): (k: nat)
    requires i <= |slots|
    ensures i <= k <= |slots|
    ensures k < |slots| ==> !slots[k].used
    ensures forall j :: i <= j < k ==> slots[j].used
    decreases |slots| - i
  {
    if i == |slots| || !slots[i].used then i else FirstFree(slots, i + 1)
  }

  function Put(s: State, i: nat, x: Slot): (t: State)
    requires i < |s.slots|
    ensures |t.slots| == |s.slots|
  {
    s.(slots := s.slots[i := x])
  }

  function Log(s: State, n: Note): State {
    s.(notes := s.notes + [n])
  }

  // ---------- sightings ----------

  /** Record IN for slot `i` and acknowledge it. */
  function RecordIn(s: State, i: nat, now: int): (t: State)
    requires i < |s.slots|
    ensures |t.slots| == |s.slots|
  {
    Put(Log(s, Recorded(s.slots[i].addr, In, now)), i, s.slots[i].(ack := true))
  }

  /** The tail of `presence_seen_addr`, for a sighting that belongs to slot `i`. */
  function SeenSlot(s: State, i: nat, now: int, synced: bool): (t: State)
    requires i < |s.slots|
    ensures |t.slots| == |s.slots|
  {
    var t := Put(s, i, s.slots[i].(lastSeen := now, present := true));
    if !t.slots[i].ack && synced then RecordIn(t, i, now) else t
  }

  /** A slot being claimed for a bonded peer on its first sighting; `connected` is left as it was. */
  function Claimed(x: Slot, a: Addr): Slot {
    x.(used := true, addr := a, present := false, ack := false, probing := false,
       handle := NO_HANDLE, lastProbe := 0)
  }

  /** `presence_seen_addr`; `bonded` is the answer of the bond store. */
  function Seen(s: State, a: Addr, bonded: bool, now: int, synced: bool): (t: State)
    ensures |t.slots| == |s.slots|
  {
    var r := Log(s, Refreshed(a, now));
    var k := IndexOf(r.slots, a);
    if k < |r.slots| then
      SeenSlot(r, k, now, synced)
    else
      var f := FirstFree(r.slots);
      if f == |r.slots| || !bonded then r
      else SeenSlot(Put(r, f, Claimed(r.slots[f], a)), f, now, synced)
  }

  // ---------- probing ----------

  function ScheduleRestart(s: State): State {
    s.(armed := true)
  }

  /** `ble_gap_disc_cancel` succeeded, or there was no scan to stop. */
  function StopScan(r: Radio): Radio {
    if r.Scanning? then Idle else r
  }

  /** `ble_gap_connect` can only start when neither a scan nor a connect is pending. */
  predicate ConnectStarts(r: Radio, reply: ProbeReply) {
    r.Idle? && reply.accepts
  }

  /** `presence_probe_start`. */
  function ProbeStart(s: State, i: nat, now: int, pairing: bool, reply: ProbeReply): (t: State)
    requires i < |s.slots|
    ensures |t.slots| == |s.slots|
  {
    var x := s.slots[i];
    if x.probing || pairing then s
    else if reply.cancelFails then ScheduleRestart(Put(s, i, x.(lastProbe := now)))
    else
      var r := StopScan(s.radio);
      if ConnectStarts(r, reply) then
        Put(s.(radio := Connecting(i)), i, x.(probing := true, handle := NO_HANDLE))
      else
        ScheduleRestart(Put(s.(radio := r), i, x.(handle := NO_HANDLE, lastProbe := now)))
  }

  /** `probe_event_cb`, CONNECT with status 0: the link is held and counts as a sighting. */
  function ProbeConnected(s: State, i: nat, handle: int, bonded: bool, now: int, synced: bool): (t: State)
    requires i < |s.slots|
    ensures |t.slots| == |s.slots|
  {
    var x := s.slots[i];
    var t := Put(s.(radio := Idle), i, x.(handle := handle, connected := true, probing := false));
    ScheduleRestart(Seen(t, x.addr, bonded, now, synced))
  }

  /** `probe_event_cb`, CONNECT with an error status. */
  function ProbeFailed(s: State, i: nat, now: int): (t: State)
    requires i < |s.slots|
    ensures |t.slots| == |s.slots|
  {
    ScheduleRestart(Put(s.(radio := Idle), i, s.slots[i].(probing := false, lastProbe := now)))
  }

  /** `probe_event_cb`, DISCONNECT. The slot may have been freed since the probe was started. */
  function LinkDown(s: State, i: nat, handle: int, now: int): (t: State)
    requires i < |s.slots|
    ensures |t.slots| == |s.slots|
  {
    var x := s.slots[i];
    if x.handle != handle then s
    else
      ScheduleRestart(Put(if x.used then Log(s, Refreshed(x.addr, now)) else s, i,
                          x.(handle := NO_HANDLE, probing := false, connected := false,
                             lastSeen := now, lastProbe := now)))
  }

  // ---------- the one-second tick ----------

  /** A live link is proof of presence. */
  function RefreshLinked(s: State, i: nat, now: int): (t: State)
    requires i < |s.slots|
    ensures |t.slots| == |s.slots|
  {
    var x := s.slots[i];
    if !x.connected then s
    else
      Put(Log(s, Refreshed(x.addr, now)), i,
          x.(lastSeen := now, present := true, ack := if x.present then x.ack else false))
  }

  /** Record an IN that could not be recorded earlier. */
  function CatchUp(s: State, i: nat, now: int, synced: bool): (t: State)
    requires i < |s.slots|
    ensures |t.slots| == |s.slots|
  {
    if s.slots[i].present && !s.slots[i].ack && synced then RecordIn(s, i, now) else s
  }

  /** A peer that is away is probed from time to time. */
  function ReprobeAway(s: State, i: nat, now: int, pairing: bool, reply: ProbeReply): (t: State)
    requires i < |s.slots|
    ensures |t.slots| == |s.slots|
  {
    var x := s.slots[i];
    if x.probing || pairing then s
    else if x.lastProbe != 0 && ElapsedMs(now, x.lastProbe) < REPROBE_OUT_MS then s
    else ProbeStart(s, i, now, pairing, reply)
  }

  /** A present peer that went silent is probed before it is given up. */
  function ProbeStale(s: State, i: nat, now: int, pairing: bool, reply: ProbeReply): (t: State)
    requires i < |s.slots|
    ensures |t.slots| == |s.slots|
  {
    var x := s.slots[i];
    var since := ElapsedMs(now, x.lastSeen);
    if since > PROBE_AFTER_MS && since <= s.timeoutMs && !x.probing
       && (x.lastProbe == 0 || ElapsedMs(now, x.lastProbe) >= PROBE_COOLDOWN_MS)
    then ProbeStart(s, i, now, pairing, reply)
    else s
  }

  /** A present peer silent for longer than the timeout, with no probe in flight, is gone. */
  function GiveUp(s: State, i: nat, now: int, synced: bool): (t: State)
    requires i < |s.slots|
    ensures |t.slots| == |s.slots|
  {
    var x := s.slots[i];
    if ElapsedMs(now, x.lastSeen) > s.timeoutMs && !x.probing then
      var left := Log(s, Left(x.addr, now, s.timeoutMs));
      var out := if x.ack && synced then Log(left, Recorded(x.addr, Out, now)) else left;
      Put(out, i, x.(present := false, ack := false))
    else s
  }

  /** The body of the loop of `presence_tick_cb`. */
  function TickSlot(s: State, i: nat, now: int, synced: bool, pairing: bool, reply: ProbeReply): (t: State)
    requires i < |s.slots|
    ensures |t.slots| == |s.slots|
  {
    if !s.slots[i].used then s
    else
      var c := CatchUp(RefreshLinked(s, i, now), i, now, synced);
      if c.slots[i].connected then c
      else if !c.slots[i].present then ReprobeAway(c, i, now, pairing, reply)
      else GiveUp(ProbeStale(c, i, now, pairing, reply), i, now, synced)
  }

  /** `presence_tick_cb` after its first `n` slots; `replies[i]` is what a probe of slot `i` would meet. */
  function TickUpTo(s: State, n: nat, now: int, synced: bool, pairing: bool, replies: seq<ProbeReply>): (t: State)
    requires n <= |s.slots| == |replies|
    ensures |t.slots| == |s.slots|
  {
    if n == 0 then s
    else TickSlot(TickUpTo(s, n - 1, now, synced, pairing, replies), n - 1, now, synced, pairing, replies[n - 1])
  }

  function Tick(s: State, now: int, synced: bool, pairing: bool, replies: seq<ProbeReply>): (t: State)
    requires |s.slots| == |replies|
    ensures |t.slots| == |s.slots|
  {
    TickUpTo(s, |s.slots|, now, synced, pairing, replies)
  }

  // ---------- HID side ----------

  /** `gap_event_cb`, CONNECT: a sighting, then the slot holding the peer is marked connected. */
  function HidConnected(s: State, a: Addr, bonded: bool, now: int, synced: bool): (t: State)
    ensures |t.slots| == |s.slots|
  {
    var t := Seen(s, a, bonded, now, synced);
    var k := IndexOf(t.slots, a);
    if k < |t.slots| then Put(t, k, t.slots[k].(connected := true)) else t
  }

  /** `gap_event_cb`, DISCONNECT. */
  function HidDisconnected(s: State, a: Addr, now: int): (t: State)
    ensures |t.slots| == |s.slots|
  {
    var k := IndexOf(s.slots, a);
    if k < |s.slots| then Put(Log(s, Refreshed(a, now)), k, s.slots[k].(connected := false, lastSeen := now))
    else s
  }

  // ---------- administration ----------

  /** The event log is wiped and `dd_ble_presence_reset_events` follows. */
  function Wipe(s: State, now: int): (t: State)
    ensures |t.slots| == |s.slots|
  {
    var t := Log(s, Wiped(now));
    t.(slots := seq(|s.slots|, i requires 0 <= i < |s.slots| =>
                                 if s.slots[i].used && s.slots[i].present then s.slots[i].(ack := false)
                                 else s.slots[i]))
  }

  function ClampTimeoutS(seconds: int): int {
    if seconds < TIMEOUT_MIN_S then TIMEOUT_MIN_S
    else if seconds > TIMEOUT_MAX_S then TIMEOUT_MAX_S
    else seconds
  }

  /** `dd_ble_set_presence_timeout_s`. */
  function SetTimeout(s: State, seconds: int): State {
    s.(timeoutMs := ClampTimeoutS(seconds) * 1000)
  }

  /** `load_presence_settings`: a stored value outside the range is ignored. */
  function LoadTimeout(s: State, stored: Option<int>): State {
    if stored.Some? && TIMEOUT_MIN_S <= stored.value <= TIMEOUT_MAX_S
    then s.(timeoutMs := stored.value * 1000)
    else s
  }

  /** `start_scanning`: refused while a scan or a connect is already pending. */
  function StartScanning(s: State): State {
    if s.radio.Idle? then s.(radio := Scanning) else s
  }

  /** A bonded peer and what the stored log says about it (`has_event && type == DD_EV_IN`). */
  datatype Bond = Bond(peer: Addr, wasIn: bool)

  function BondOf(a: Addr, log: seq<Line>): Bond {
    Bond(a, L.LatestOf(log, a) == L.Latest(true, In))
  }

  /** The bonded peers, each with what the lookup in the stored log says about it. */
  function BondsOf(peers: seq<Addr>, log: seq<Line>): seq<Bond> {
    seq(|peers|, i requires 0 <= i < |peers| => BondOf(peers[i], log))
  }

  function Allocated(b: Bond, now: int): Slot {
    Slot(true, b.peer, if b.wasIn then now else 0, 0, b.wasIn, b.wasIn, false, false, NO_HANDLE)
  }

  /** The loop of `presence_preallocate_bonded`; it stops at the first bond that finds no free slot. */
  function Preallocate(s: State, bonds: seq<Bond>, now: int): (t: State)
    ensures |t.slots| == |s.slots|
    decreases |bonds|
  {
    if bonds == [] then s
    else if IndexOf(s.slots, bonds[0].peer) < |s.slots| then Preallocate(s, bonds[1..], now)
    else
      var f := FirstFree(s.slots);
      if f == |s.slots| then s
      else Preallocate(AllocateAt(s, f, bonds[0], now), bonds[1..], now)
  }

  function AllocateAt(s: State, f: nat, b: Bond, now: int): (t: State)
    requires f < |s.slots|
    ensures |t.slots| == |s.slots|
  {
    var t := Put(s, f, Allocated(b, now));
    if b.wasIn then Log(t, Resumed(b.peer, now)) else t
  }

  /** The slot freed by a successful `dd_ble_bond_revoke`. */
  function Revoke(s: State, a: Addr): (t: State)
    ensures |t.slots| == |s.slots|
  {
    var k := IndexOf(s.slots, a);
    if k < |s.slots| then Put(s, k, EMPTY_SLOT) else s
  }

  // ---------- runs ----------

  datatype Action =
    | Sighting(peer: Addr, bonded: bool)
    | Ticks(pairing: bool, replies: seq<ProbeReply>)
    | ProbeOk(slot: nat, handle: int, bonded: bool)
    | ProbeFail(slot: nat)
    | ProbeLinkDown(slot: nat, handle: int)
    | HidUp(peer: Addr, bonded: bool)
    | HidDown(peer: Addr)
    | WipeEvents
    | ChangeTimeout(seconds: int)
    | AllocateBonds(peers: seq<Addr>, log: seq<Line>)
    | RevokeBond(peer: Addr)
    | RestartScan

  datatype Step = Step(now: int, synced: bool, action: Action)

  /** When the environment can produce an action: a connect ends only if it is pending, connection
      handles are never the reserved value, the restart timer fires only if armed, and the bond store lists at
      most as many peers as there are slots. */
  predicate Enabled(s: State, a: Action) {
    match a
    case Ticks(_, replies) => |replies| == |s.slots|
    case ProbeOk(i, h, _) => s.radio == Connecting(i) && i < |s.slots| && h != NO_HANDLE
    case ProbeFail(i) => s.radio == Connecting(i) && i < |s.slots|
    case ProbeLinkDown(i, h) => i < |s.slots| && h != NO_HANDLE
    case RestartScan => s.armed
    case AllocateBonds(peers, _) => |peers| <= SLOTS
    case _ => true
  }

  function Next(s: State, st: Step): State
    requires Enabled(s, st.action)
  {
    match st.action
    case Sighting(a, bonded) => Seen(s, a, bonded, st.now, st.synced)
    case Ticks(pairing, replies) => Tick(s, st.now, st.synced, pairing, replies)
    case ProbeOk(i, h, bonded) => ProbeConnected(s, i, h, bonded, st.now, st.synced)
    case ProbeFail(i) => ProbeFailed(s, i, st.now)
    case ProbeLinkDown(i, h) => LinkDown(s, i, h, st.now)
    case HidUp(a, bonded) => HidConnected(s, a, bonded, st.now, st.synced)
    case HidDown(a) => HidDisconnected(s, a, st.now)
    case WipeEvents => Wipe(s, st.now)
    case ChangeTimeout(seconds) => SetTimeout(s, seconds)
    case AllocateBonds(peers, log) => Preallocate(s, BondsOf(peers, log), st.now)
    case RevokeBond(a) => Revoke(s, a)
    case RestartScan => StartScanning(s.(armed := false))
  }

  /** Static storage, the stored timeout, and `on_sync`. */
  function Boot(now: int, stored: Option<int>, bonds: seq<Bond>): State {
    var blank := State(seq(SLOTS, i => EMPTY_SLOT), TIMEOUT_DEFAULT_S * 1000, Idle, false, []);
    StartScanning(Preallocate(LoadTimeout(blank, stored), bonds, now))
  }

  /** A run since boot: any sequence of callbacks, in any order. */
  datatype Run =
    | Booted(now: int, stored: Option<int>, peers: seq<Addr>, log: seq<Line>)
    | Then(before: Run, step: Step)
  {
    function Clock(): int {
      match this
      case Booted(now, _, _, _) => now
      case Then(_, step) => step.now
    }

    /** The timer is positive and never goes back, and every action was possible when it happened. */
    ghost predicate Legal()
      decreases this, 0
    {
      match this
      case Booted(now, _, peers, _) => now > 0 && |peers| <= SLOTS
      case Then(before, step) =>
        && before.Legal()
        && before.Clock() <= step.now
        && Enabled(before.End(), step.action)
    }

    ghost function End(): State
      requires Legal()
      decreases this, 1
    {
      match this
      case Booted(now, stored, peers, log) => Boot(now, stored, BondsOf(peers, log))
      case Then(before, step) => Next(before.End(), step)
    }
  }
}
