/** The presence machine as the firmware runs it: one table of slots updated in place by callbacks. */
module PresenceTracker {
  import opened Common
  import opened EventLines
  import L = LatestEvents
  import opened Presence
  import S = PresenceSafety

  /** The bonds agree where a peer is listed first, or its slot exists. */
  ghost predicate AgreeAtFirst(s: State, x: seq<Bond>, y: seq<Bond>) {
    |x| == |y|
    && forall i :: 0 <= i < |x| ==>
         x[i].peer == y[i].peer
         && (x[i] == y[i] || IndexOf(s.slots, x[i].peer) < |s.slots| || exists j :: 0 <= j < i && x[j].peer == x[i].peer)
  }

  /** What is said of a peer listed again does not matter. */
  lemma {:induction false} RepeatsIgnored(s: State, x: seq<Bond>, y: seq<Bond>, now: int)
    requires AgreeAtFirst(s, x, y)
    ensures Preallocate(s, x, now) == Preallocate(s, y, now)
    decreases |x|
  {
    if x != [] {
      var f := FirstFree(s.slots);
      if IndexOf(s.slots, x[0].peer) < |s.slots| {
        TailsAgree(s, s, x, y);
        RepeatsIgnored(s, x[1..], y[1..], now);
      } else if f < |s.slots| {
        var t := AllocateAt(s, f, x[0], now);
        assert Holds(t.slots[f], x[0].peer);
        forall a | IndexOf(s.slots, a) < |s.slots|
          ensures IndexOf(t.slots, a) < |t.slots|
        {
          assert Holds(t.slots[IndexOf(s.slots, a)], a);
        }
        TailsAgree(s, t, x, y);
        RepeatsIgnored(t, x[1..], y[1..], now);
      }
    }
  }

  lemma TailsAgree(s: State, t: State, x: seq<Bond>, y: seq<Bond>)
    requires AgreeAtFirst(s, x, y) && x != [] && |s.slots| == |t.slots|
    requires IndexOf(t.slots, x[0].peer) < |t.slots|
    requires forall a :: IndexOf(s.slots, a) < |s.slots| ==> IndexOf(t.slots, a) < |t.slots|
    ensures AgreeAtFirst(t, x[1..], y[1..])
  {
    var u, v := x[1..], y[1..];
    forall i | 0 <= i < |u|
      ensures u[i].peer == v[i].peer
      ensures u[i] == v[i] || IndexOf(t.slots, u[i].peer) < |t.slots| || exists j :: 0 <= j < i && u[j].peer == u[i].peer
    {
      assert x[i + 1] == u[i] && y[i + 1] == v[i];
      if u[i] != v[i] && IndexOf(s.slots, u[i].peer) == |s.slots| {
        var j :| 0 <= j < i + 1 && x[j].peer == x[i + 1].peer;
        if j > 0 { assert u[j - 1].peer == u[i].peer; }
      }
    }
  }

  class Tracker {
    const slots: array<Slot>
    var timeoutMs: int
    var radio: Radio
    var armed: bool
    ghost var notes: seq<Note>

    ghost predicate Valid() {
      slots.Length == SLOTS
    }

    ghost function Model(): State
      reads this, slots
    {
      State(slots[..], timeoutMs, radio, armed, notes)
    }

    /** Boot: static storage, the stored timeout, then `on_sync`. */
    constructor (now: int, stored: Option<int>, peers: seq<Addr>, log: seq<Line>)
      requires |peers| <= SLOTS
      ensures Valid() && fresh(slots)
      ensures Model() == Boot(now, stored, BondsOf(peers, log))
    {
      slots := new Slot[SLOTS](_ => EMPTY_SLOT);
      timeoutMs := TIMEOUT_DEFAULT_S * 1000;
      radio := Idle;
      armed := false;
      notes := [];
      new;
      assert slots[..] == seq(SLOTS, i => EMPTY_SLOT);
      if stored.Some? && TIMEOUT_MIN_S <= stored.value <= TIMEOUT_MAX_S {
        timeoutMs := stored.value * 1000;
      }
      PreallocateBonded(peers, log, now);
      StartScan();
    }

    method FindSlot(a: Addr) returns (k: nat)
      requires Valid()
      ensures k == IndexOf(slots[..], a)
    {
      k := 0;
      while k < slots.Length && !(slots[k].used && slots[k].addr == a)
        invariant k <= slots.Length
        invariant forall j :: 0 <= j < k ==> !Holds(slots[j], a)
      {
        k := k + 1;
      }
    }

    method FindFree() returns (k: nat)
      requires Valid()
      ensures k == FirstFree(slots[..])
    {
      k := 0;
      while k < slots.Length && slots[k].used
        invariant k <= slots.Length
        invariant forall j :: 0 <= j < k ==> slots[j].used
      {
        k := k + 1;
      }
    }

    method RecordInOf(i: nat, now: int)
      requires Valid() && i < SLOTS
      modifies this, slots
      ensures Model() == RecordIn(old(Model()), i, now)
    {
      notes := notes + [Recorded(slots[i].addr, In, now)];
      slots[i] := slots[i].(ack := true);
    }

    /** The loop over the slots: the peer's slot, and the first free one before it; 8 where there is none. */
    method Locate(a: Addr) returns (free: nat, slot: nat)
      requires Valid()
      ensures slot == IndexOf(slots[..], a)
      ensures slot == SLOTS ==> free == FirstFree(slots[..])
    {
      free, slot := SLOTS, SLOTS;
      for i := 0 to SLOTS
        invariant slot == SLOTS
        invariant forall j :: 0 <= j < i ==> !Holds(slots[j], a)
        invariant if free == SLOTS then forall j :: 0 <= j < i ==> slots[j].used
                  else 0 <= free < i && free == FirstFree(slots[..])
      {
        if !slots[i].used {
          if free == SLOTS { free := i; }
        } else if slots[i].addr == a {
          slot := i;
          break;
        }
      }
    }

    /** `presence_seen_addr`. */
    method SeenAddr(a: Addr, bonded: bool, now: int, synced: bool)
      requires Valid()
      modifies this, slots
      ensures Model() == Seen(old(Model()), a, bonded, now, synced)
    {
      notes := notes + [Refreshed(a, now)];
      var free, slot := Locate(a);
      if slot == SLOTS {
        if free == SLOTS || !bonded { return; }
        slot := free;
        slots[slot] := slots[slot].(used := true, addr := a);
        slots[slot] := slots[slot].(present := false, ack := false, probing := false,
                                    handle := NO_HANDLE, lastProbe := 0);
      }
      MarkSeen(slot, now, synced);
    }

    /** The peer in a slot is seen. */
    method MarkSeen(i: nat, now: int, synced: bool)
      requires Valid() && i < SLOTS
      modifies this, slots
      ensures Model() == SeenSlot(old(Model()), i, now, synced)
    {
      slots[i] := slots[i].(lastSeen := now);
      slots[i] := slots[i].(present := true);
      if !slots[i].ack && synced {
        RecordInOf(i, now);
      }
    }

    method Restart()
      modifies this`armed
      ensures armed
    {
      armed := true;
    }

    /** `presence_probe_start`. */
    method StartProbe(i: nat, now: int, pairing: bool, reply: ProbeReply)
      requires Valid() && i < SLOTS
      modifies this, slots
      ensures Model() == ProbeStart(old(Model()), i, now, pairing, reply)
    {
      if slots[i].probing || pairing { return; }
      if reply.cancelFails {
        slots[i] := slots[i].(lastProbe := now);
        Restart();
        return;
      }
      if radio.Scanning? { radio := Idle; }
      slots[i] := slots[i].(probing := true, handle := NO_HANDLE);
      if radio.Idle? && reply.accepts {
        radio := Connecting(i);
      } else {
        slots[i] := slots[i].(probing := false);
        slots[i] := slots[i].(lastProbe := now);
        Restart();
      }
    }

    /** A live link refreshes the slot; an IN that is still owed is recorded. */
    method RefreshAndCatchUp(i: nat, now: int, synced: bool)
      requires Valid() && i < SLOTS
      modifies this, slots
      ensures Model() == CatchUp(RefreshLinked(old(Model()), i, now), i, now, synced)
    {
      if slots[i].connected {
        notes := notes + [Refreshed(slots[i].addr, now)];
        slots[i] := slots[i].(lastSeen := now);
        if !slots[i].present {
          slots[i] := slots[i].(present := true, ack := false);
        }
      }
      assert Model() == RefreshLinked(old(Model()), i, now);
      if slots[i].present && !slots[i].ack && synced {
        RecordInOf(i, now);
      }
    }

    method ProbeIfAway(i: nat, now: int, pairing: bool, reply: ProbeReply)
      requires Valid() && i < SLOTS
      modifies this, slots
      ensures Model() == ReprobeAway(old(Model()), i, now, pairing, reply)
    {
      if slots[i].probing || pairing { return; }
      if slots[i].lastProbe != 0 && ElapsedMs(now, slots[i].lastProbe) < REPROBE_OUT_MS { return; }
      StartProbe(i, now, pairing, reply);
    }

    method ProbeIfStale(i: nat, since: int, now: int, pairing: bool, reply: ProbeReply)
      requires Valid() && i < SLOTS && since == ElapsedMs(now, slots[i].lastSeen)
      modifies this, slots
      ensures Model() == ProbeStale(old(Model()), i, now, pairing, reply)
    {
      if since > PROBE_AFTER_MS && since <= timeoutMs && !slots[i].probing {
        if slots[i].lastProbe == 0 || ElapsedMs(now, slots[i].lastProbe) >= PROBE_COOLDOWN_MS {
          StartProbe(i, now, pairing, reply);
        }
      }
    }

    method GiveUpIfSilent(i: nat, since: int, now: int, synced: bool)
      requires Valid() && i < SLOTS && since == ElapsedMs(now, slots[i].lastSeen)
      modifies this, slots
      ensures Model() == GiveUp(old(Model()), i, now, synced)
    {
      if since > timeoutMs && !slots[i].probing {
        notes := notes + [Left(slots[i].addr, now, timeoutMs)];
        slots[i] := slots[i].(present := false);
        if slots[i].ack && synced {
          notes := notes + [Recorded(slots[i].addr, Out, now)];
        }
        slots[i] := slots[i].(ack := false);
        assert slots[..] == GiveUp(old(Model()), i, now, synced).slots;
      }
    }

    /** One turn of the loop of `presence_tick_cb`. */
    method TickOne(i: nat, now: int, synced: bool, pairing: bool, reply: ProbeReply)
      requires Valid() && i < SLOTS
      modifies this, slots
      ensures Model() == TickSlot(old(Model()), i, now, synced, pairing, reply)
    {
      if !slots[i].used { return; }
      RefreshAndCatchUp(i, now, synced);
      if slots[i].connected { return; }
      if !slots[i].present {
        ProbeIfAway(i, now, pairing, reply);
        return;
      }
      var since := ElapsedMs(now, slots[i].lastSeen);
      ghost var before := Model();
      ProbeIfStale(i, since, now, pairing, reply);
      S.ProbeStartFrame(before, i, now, pairing, reply);
      assert slots[i] == Model().slots[i];
      GiveUpIfSilent(i, since, now, synced);
    }

    /** `presence_tick_cb`. */
    method TickAll(now: int, synced: bool, pairing: bool, replies: seq<ProbeReply>)
      requires Valid() && |replies| == SLOTS
      modifies this, slots
      ensures Model() == Tick(old(Model()), now, synced, pairing, replies)
    {
      for i := 0 to SLOTS
        invariant Model() == TickUpTo(old(Model()), i, now, synced, pairing, replies)
      {
        TickOne(i, now, synced, pairing, replies[i]);
      }
    }

    /** `probe_event_cb`, CONNECT. */
    method ProbeDone(i: nat, ok: bool, handle: int, bonded: bool, now: int, synced: bool)
      requires Valid() && i < SLOTS
      modifies this, slots
      ensures Model() == if ok then ProbeConnected(old(Model()), i, handle, bonded, now, synced)
                         else ProbeFailed(old(Model()), i, now)
    {
      radio := Idle;
      if ok {
        slots[i] := slots[i].(handle := handle);
        slots[i] := slots[i].(connected := true);
        slots[i] := slots[i].(probing := false);
        ghost var x := old(slots[i]).(handle := handle, connected := true, probing := false);
        assert Model() == Put(old(Model()).(radio := Idle), i, x);
        SeenAddr(slots[i].addr, bonded, now, synced);
      } else {
        slots[i] := slots[i].(probing := false);
        slots[i] := slots[i].(lastProbe := now);
        assert Model() == Put(old(Model()).(radio := Idle), i, old(slots[i]).(probing := false, lastProbe := now));
      }
      Restart();
    }

    /** `probe_event_cb`, DISCONNECT. */
    method ProbeDisconnected(i: nat, handle: int, now: int)
      requires Valid() && i < SLOTS
      modifies this, slots
      ensures Model() == LinkDown(old(Model()), i, handle, now)
    {
      if slots[i].handle == handle {
        if slots[i].used { notes := notes + [Refreshed(slots[i].addr, now)]; }
        slots[i] := slots[i].(handle := NO_HANDLE, probing := false, connected := false);
        slots[i] := slots[i].(lastSeen := now);
        slots[i] := slots[i].(lastProbe := slots[i].lastSeen);
        Restart();
      }
    }

    /** `gap_event_cb`, CONNECT. */
    method HidConnect(a: Addr, bonded: bool, now: int, synced: bool)
      requires Valid()
      modifies this, slots
      ensures Model() == HidConnected(old(Model()), a, bonded, now, synced)
    {
      SeenAddr(a, bonded, now, synced);
      var k := FindSlot(a);
      if k < SLOTS { slots[k] := slots[k].(connected := true); }
    }

    /** `gap_event_cb`, DISCONNECT. */
    method HidDisconnect(a: Addr, now: int)
      requires Valid()
      modifies this, slots
      ensures Model() == HidDisconnected(old(Model()), a, now)
    {
      var k := FindSlot(a);
      if k < SLOTS {
        notes := notes + [Refreshed(a, now)];
        slots[k] := slots[k].(connected := false);
        slots[k] := slots[k].(lastSeen := now);
      }
    }

    /** `dd_ble_presence_reset_events`, right after the log was wiped. */
    method ResetEvents(now: int)
      requires Valid()
      modifies this, slots
      ensures Model() == Wipe(old(Model()), now)
    {
      notes := notes + [Wiped(now)];
      for i := 0 to SLOTS
        invariant forall j :: 0 <= j < SLOTS ==>
                    slots[j] == if j < i then Wipe(old(Model()), now).slots[j] else old(slots[j])
        invariant timeoutMs == old(timeoutMs) && radio == old(radio) && armed == old(armed)
        invariant notes == old(notes) + [Wiped(now)]
      {
        if slots[i].used && slots[i].present {
          slots[i] := slots[i].(ack := false);
        }
      }
      assert slots[..] == Wipe(old(Model()), now).slots;
    }

    /** `dd_ble_set_presence_timeout_s`. */
    method ChangePresenceTimeout(seconds: int)
      requires Valid()
      modifies this`timeoutMs
      ensures Model() == SetTimeout(old(Model()), seconds)
      ensures TIMEOUT_MIN_S * 1000 <= timeoutMs <= TIMEOUT_MAX_S * 1000
    {
      var s := seconds;
      if s < TIMEOUT_MIN_S { s := TIMEOUT_MIN_S; }
      if s > TIMEOUT_MAX_S { s := TIMEOUT_MAX_S; }
      timeoutMs := s * 1000;
    }

    /** `start_scanning`. */
    method StartScan()
      requires Valid()
      modifies this`radio
      ensures Model() == StartScanning(old(Model()))
    {
      if radio.Idle? { radio := Scanning; }
    }

    /** `scan_restart_cb`. */
    method ScanTimerFired()
      requires Valid()
      modifies this`radio, this`armed
      ensures Model() == StartScanning(old(Model()).(armed := false))
    {
      armed := false;
      StartScan();
    }

    /** The lookup that precedes the loop: what the log says, at each peer's first position. */
    static method LookUpBonds(peers: seq<Addr>, log: seq<Line>) returns (bonds: seq<Bond>)
      requires |peers| <= SLOTS
      ensures |bonds| == |peers|
      ensures forall i :: 0 <= i < |peers| ==> bonds[i].peer == peers[i]
      ensures forall i :: 0 <= i < |peers| && L.FirstListed(peers, i) ==> bonds[i] == BondsOf(peers, log)[i]
    {
      var latest := new L.Latest[|peers|](_ => L.Latest(false, In));
      var _ := L.LatestForPeers(log, peers, latest);
      bonds := [];
      for i := 0 to |peers|
        invariant |bonds| == i
        invariant forall j :: 0 <= j < i ==> bonds[j] == Bond(peers[j], latest[j].hasEvent && latest[j].kind.In?)
      {
        bonds := bonds + [Bond(peers[i], latest[i].hasEvent && latest[i].kind.In?)];
      }
    }

    /** `presence_preallocate_bonded`. */
    method PreallocateBonded(peers: seq<Addr>, log: seq<Line>, now: int)
      requires Valid() && |peers| <= SLOTS
      modifies this, slots
      ensures Model() == Preallocate(old(Model()), BondsOf(peers, log), now)
    {
      var found := LookUpBonds(peers, log);
      assert AgreeAtFirst(Model(), found, BondsOf(peers, log));
      RepeatsIgnored(Model(), found, BondsOf(peers, log), now);
      AllocateAll(found, now);
    }

    method AllocateAll(bonds: seq<Bond>, now: int)
      requires Valid()
      modifies this, slots
      ensures Model() == Preallocate(old(Model()), bonds, now)
    {
      var i := 0;
      while i < |bonds|
        invariant 0 <= i <= |bonds|
        invariant Preallocate(Model(), bonds[i..], now) == Preallocate(old(Model()), bonds, now)
      {
        assert bonds[i..][0] == bonds[i] && bonds[i..][1..] == bonds[i + 1..];
        var taken := FindSlot(bonds[i].peer);
        if taken == SLOTS {
          var f := FindFree();
          if f == SLOTS { return; }
          Allocate(f, bonds[i], now);
        }
        i := i + 1;
      }
    }

    /** A peer gets a free slot. */
    method Allocate(f: nat, b: Bond, now: int)
      requires Valid() && f < SLOTS && !slots[f].used
      modifies this, slots
      ensures Model() == AllocateAt(old(Model()), f, b, now)
    {
      ghost var before := slots[..];
      slots[f] := Slot(true, b.peer, 0, 0, false, false, false, false, NO_HANDLE);
      if b.wasIn {
        slots[f] := slots[f].(present := true, ack := true, lastSeen := now);
        notes := notes + [Resumed(b.peer, now)];
      }
      assert slots[..] == before[f := Allocated(b, now)];
    }

    /** The slot freed by `dd_ble_bond_revoke` once the bond store entry is gone. */
    method FreeRevoked(a: Addr)
      requires Valid()
      modifies slots
      ensures Model() == Revoke(old(Model()), a)
    {
      var k := FindSlot(a);
      if k < SLOTS { slots[k] := EMPTY_SLOT; }
    }
  }
}
