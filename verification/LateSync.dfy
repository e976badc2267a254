/** What happens when the wall clock becomes known too late after a boot: a departure that is never recorded, and an
    IN that the debounce swallows. */
module LateSync {
  import opened Common
  import opened EventLines
  import opened Presence
  import opened SampleRuns
  import opened Session
  import L = LatestEvents
  import S = PresenceSafety
  import D = Debounce

  /** A boot with a stored timeout, and one bonded peer of which the log says nothing. */
  function Start(a: Addr, seconds: int): Run {
    Booted(1, Some(seconds), [a], [])
  }

  /** Just before the peer's next IN: the first millisecond after its timeout, or the tick at `t` if that is
      later. */
  function BackAt(seconds: int, t: int): int {
    var gone := 1 + (seconds * 1000 + 1) * 1000;
    if t < gone then gone else t
  }

  /** The peer is seen at once, the wall clock becomes known before the tick at `t`, the peer is given up in the
      next tick that can, and seen again. */
  function Late(a: Addr, seconds: int, t: int): Run {
    var seen := Then(Start(a, seconds), Step(1, false, Sighting(a, true)));
    var u := BackAt(seconds, t);
    Then(Then(Then(seen, QuietTick(t)), QuietTick(u)), Step(u, true, Sighting(a, true)))
  }

  function With(x: Slot, seconds: int, notes: seq<Note>): State {
    Single(x, notes).(timeoutMs := seconds * 1000)
  }

  lemma PutWith(x: Slot, y: Slot, seconds: int, notes: seq<Note>)
    ensures Put(With(x, seconds, notes), 0, y) == With(y, seconds, notes)
  {
    assert With(x, seconds, notes).slots[0 := y] == With(y, seconds, notes).slots;
  }

  lemma SeenWith(x: Slot, seconds: int, notes: seq<Note>, now: int, synced: bool)
    requires x.used
    ensures var y := x.(lastSeen := now, present := true);
            var h := notes + [Refreshed(x.addr, now)];
            Seen(With(x, seconds, notes), x.addr, true, now, synced)
            == if !x.ack && synced then With(y.(ack := true), seconds, h + [Recorded(x.addr, In, now)])
               else With(y, seconds, h)
  {
    var s := With(x, seconds, notes);
    assert Holds(s.slots[0], x.addr) && IndexOf(s.slots, x.addr) == 0;
    var y, h := x.(lastSeen := now, present := true), notes + [Refreshed(x.addr, now)];
    PutWith(x, y, seconds, h);
    PutWith(y, y.(ack := true), seconds, h + [Recorded(x.addr, In, now)]);
  }

  lemma StartEnds(a: Addr, seconds: int)
    requires TIMEOUT_MIN_S <= seconds <= TIMEOUT_MAX_S
    ensures Start(a, seconds).Legal()
    ensures Start(a, seconds).End() == With(Allocated(Bond(a, false), 1), seconds, [])
  {
    var blank := State(seq(SLOTS, i => EMPTY_SLOT), TIMEOUT_DEFAULT_S * 1000, Idle, false, []);
    var s, x := LoadTimeout(blank, Some(seconds)), Allocated(Bond(a, false), 1);
    assert BondOf(a, []) == Bond(a, false) && BondsOf([a], []) == [Bond(a, false)];
    assert FirstFree(s.slots) == 0 && IndexOf(s.slots, a) == SLOTS;
    assert s.slots[0 := x] == With(x, seconds, []).slots;
    assert [Bond(a, false)][1..] == [];
    var t := AllocateAt(s, 0, Bond(a, false), 1);
    assert Preallocate(t, [], 1) == t;
    assert Preallocate(s, [Bond(a, false)], 1) == t;
  }

  /** A quiet tick with the wall clock known, on an unconnected peer. */
  lemma TickWith(x: Slot, seconds: int, notes: seq<Note>, now: int)
    requires x.used && x.present && !x.connected && !x.probing && x.lastSeen <= now
    ensures var h := if x.ack then notes else notes + [Recorded(x.addr, In, now)];
            Next(With(x, seconds, notes), QuietTick(now))
            == if ElapsedMs(now, x.lastSeen) > seconds * 1000 then
                 With(x.(present := false, ack := false), seconds,
                      h + [Left(x.addr, now, seconds * 1000), Recorded(x.addr, Out, now)])
               else With(x.(ack := true), seconds, h)
  {
    var s, replies := With(x, seconds, notes), seq(SLOTS, i => ProbeReply(false, false));
    var h := if x.ack then notes else notes + [Recorded(x.addr, In, now)];
    TickOfSingle(s, SLOTS, now, true, true, replies);
    PutWith(x, x.(ack := true), seconds, h);
    var c := CatchUp(s, 0, now, true);
    assert c == With(x.(ack := true), seconds, h);
    assert ProbeStale(c, 0, now, true, replies[0]) == c;
    var left := h + [Left(x.addr, now, seconds * 1000)];
    PutWith(x.(ack := true), x.(present := false, ack := false), seconds, left + [Recorded(x.addr, Out, now)]);
    assert left + [Recorded(x.addr, Out, now)]
        == h + [Left(x.addr, now, seconds * 1000), Recorded(x.addr, Out, now)];
  }

  lemma AwayWith(x: Slot, seconds: int, notes: seq<Note>, now: int)
    requires x.used && !x.present && !x.connected && !x.probing
    ensures Next(With(x, seconds, notes), QuietTick(now)) == With(x, seconds, notes)
  {
    TickOfSingle(With(x, seconds, notes), SLOTS, now, true, true, seq(SLOTS, i => ProbeReply(false, false)));
  }

  /** What the two ticks and the last sighting note. */
  function Story(a: Addr, seconds: int, t: int): seq<Note> {
    var u := BackAt(seconds, t);
    [Refreshed(a, 1)] + [Recorded(a, In, t)] + [Left(a, u, seconds * 1000), Recorded(a, Out, u)]
    + [Refreshed(a, u)] + [Recorded(a, In, u)]
  }

  lemma TicksEnd(a: Addr, seconds: int, t: int)
    requires TIMEOUT_MIN_S <= seconds <= TIMEOUT_MAX_S && 1 <= t
    ensures var u, x := BackAt(seconds, t), Allocated(Bond(a, false), 1).(lastSeen := 1, present := true);
            Next(Next(With(x, seconds, [Refreshed(a, 1)]), QuietTick(t)), QuietTick(u))
            == With(x.(present := false), seconds,
                    [Refreshed(a, 1)] + [Recorded(a, In, t)] + [Left(a, u, seconds * 1000), Recorded(a, Out, u)])
  {
    var u, x := BackAt(seconds, t), Allocated(Bond(a, false), 1).(lastSeen := 1, present := true);
    TickWith(x, seconds, [Refreshed(a, 1)], t);
    if t < u {
      TickWith(x.(ack := true), seconds, [Refreshed(a, 1)] + [Recorded(a, In, t)], u);
    } else {
      AwayWith(x.(present := false), seconds,
               [Refreshed(a, 1)] + [Recorded(a, In, t)] + [Left(a, u, seconds * 1000), Recorded(a, Out, u)], u);
    }
  }

  lemma LateEnds(a: Addr, seconds: int, t: int)
    requires TIMEOUT_MIN_S <= seconds <= TIMEOUT_MAX_S && 1 <= t
    ensures Late(a, seconds, t).Legal() && Late(a, seconds, t).End().notes == Story(a, seconds, t)
    ensures Undisturbed(Late(a, seconds, t), seconds * 1000) <==> t <= Terms(1, seconds * 1000).Deadline()
  {
    var r, x, u := Late(a, seconds, t), Allocated(Bond(a, false), 1), BackAt(seconds, t);
    StartEnds(a, seconds);
    SeenWith(x, seconds, [], 1, false);
    assert [] + [Refreshed(a, 1)] == [Refreshed(a, 1)];
    var seen := r.before.before.before;
    assert seen.Legal() && seen.End() == With(x.(lastSeen := 1, present := true), seconds, [Refreshed(a, 1)]);
    TicksEnd(a, seconds, t);
    var h := [Refreshed(a, 1)] + [Recorded(a, In, t)] + [Left(a, u, seconds * 1000), Recorded(a, Out, u)];
    SeenWith(x.(lastSeen := 1), seconds, h, u, true);
    assert r.before.before.Legal() && r.before.Legal();
    TimeoutAfter(x.(lastSeen := 1, present := true), seconds, t);
    UndisturbedSteps(r, seconds * 1000);
  }

  lemma UndisturbedSteps(r: Run, timeoutMs: int)
    requires r.Legal() && TIMEOUT_MIN_S * 1000 <= timeoutMs && r.Then? && r.before.Then? && r.before.before.Then?
    requires var s := r.before.before.before;
             s.Then? && s.before.Booted? && s.step.now == s.before.now && s.step.action.Sighting? && !s.step.synced
             && s.before.Legal() && s.Legal() && s.before.End().timeoutMs == s.End().timeoutMs == timeoutMs
    requires r.before.before.step.synced && r.before.before.step.action.Ticks?
    requires r.before.step.synced && r.before.step.action.Ticks? && r.step.synced && r.step.action.Sighting?
    requires r.before.before.Legal() && r.before.Legal()
    requires r.before.before.End().timeoutMs == r.before.End().timeoutMs == r.End().timeoutMs == timeoutMs
    ensures Undisturbed(r, timeoutMs) <==>
            r.before.before.step.now <= Terms(r.before.before.before.before.now, timeoutMs).Deadline()
  {
    var seen := r.before.before.before;
    assert BootedAt(seen) == seen.before.now;
    assert BootedAt(r.before.before) == seen.before.now;
    assert BootedAt(r.before) == seen.before.now;
    assert BootedAt(r) == seen.before.now;
    assert Undisturbed(seen.before, timeoutMs) && Undisturbed(seen, timeoutMs) && !Settled(seen);
    assert Settled(r.before.before) && Settled(r.before);
    var first := r.before.before;
    assert Undisturbed(first, timeoutMs) <==> first.step.now <= Terms(seen.before.now, timeoutMs).Deadline();
    assert Undisturbed(r.before, timeoutMs) <==> Undisturbed(first, timeoutMs);
  }

  lemma TimeoutAfter(x: Slot, seconds: int, t: int)
    requires x.used && x.present && !x.connected && !x.probing && x.lastSeen <= t
    ensures Next(With(x, seconds, [Refreshed(x.addr, 1)]), QuietTick(t)).timeoutMs == seconds * 1000
  {
    TickWith(x, seconds, [Refreshed(x.addr, 1)], t);
  }

  lemma ThreeCalls(a: Addr, t: int, u: int)
    requires 1 <= t <= u
    ensures D.Accepted([D.Call(a, In, t), D.Call(a, Out, u), D.Call(a, In, u)], 2) <==> u - t >= D.WINDOW_US
  {
    var calls := [D.Call(a, In, t), D.Call(a, Out, u), D.Call(a, In, u)];
    if u - t >= D.WINDOW_US {
      D.NeverDroppedAfterWindow(calls, 2);
    } else {
      D.NeverDroppedAfterWindow(calls, 0);
      D.DroppedExactly(calls, 2);
      D.StampSet(calls, 0);
      D.NeverDroppedAfterWindow(calls, 1);
      D.StampSet(calls, 1);
      assert D.AcceptedOf(calls, 0, a) && D.Stays(calls, 0, 2, a);
    }
  }

  /** The bound is exact. In this run, for every timeout, the peer's second IN is accepted if and only if the first
      tick with the wall clock known comes at most a timeout less 10 s after the boot, which is also exactly when
      the run is undisturbed. */
  lemma SecondInAcceptedIff(a: Addr, seconds: int, t: int)
    requires TIMEOUT_MIN_S <= seconds <= TIMEOUT_MAX_S && 1 <= t
    ensures var r, u := Late(a, seconds, t), BackAt(seconds, t);
            r.Legal() && Calls(r.End().notes) == [D.Call(a, In, t), D.Call(a, Out, u), D.Call(a, In, u)]
            && (D.Accepted(Calls(r.End().notes), 2) <==> t <= 1 + (seconds * 1000 + 1) * 1000 - 10_000_000)
            && (Undisturbed(r, seconds * 1000) <==> t <= 1 + (seconds * 1000 + 1) * 1000 - 10_000_000)
  {
    LateEnds(a, seconds, t);
    CallsOfStory(a, seconds, t);
    ThreeCalls(a, t, BackAt(seconds, t));
  }

  lemma CallsOfStory(a: Addr, seconds: int, t: int)
    ensures var u := BackAt(seconds, t);
            Calls(Story(a, seconds, t)) == [D.Call(a, In, t), D.Call(a, Out, u), D.Call(a, In, u)]
  {
    var h, u := Story(a, seconds, t), BackAt(seconds, t);
    assert h == [Refreshed(a, 1), Recorded(a, In, t), Left(a, u, seconds * 1000), Recorded(a, Out, u),
                 Refreshed(a, u), Recorded(a, In, u)];
    assert h[..1] == [Refreshed(a, 1)] && h[..1][..0] == [];
    assert Calls(h[..1]) == [];
    assert h[..2][..1] == h[..1] && Calls(h[..2]) == [D.Call(a, In, t)];
    assert h[..3][..2] == h[..2] && Calls(h[..3]) == Calls(h[..2]);
    assert h[..4][..3] == h[..3] && Calls(h[..4]) == [D.Call(a, In, t), D.Call(a, Out, u)];
    assert h[..5][..4] == h[..4] && Calls(h[..5]) == Calls(h[..4]);
    assert Calls(h) == Calls(h[..5]) + [D.Call(a, In, u)];
  }

  // ---------- a departure that is not recorded ----------

  /** A peer is resumed from the log, given up while the wall clock is unknown, and seen when it is known. */
  function Forgotten(a: Addr, log: seq<Line>): Run {
    var tick := Ticks(true, seq(SLOTS, i => ProbeReply(false, false)));
    var gone := Then(Booted(1, None, [a], log), Step(61_000_000, false, tick));
    Then(gone, Step(62_000_000, true, Sighting(a, true)))
  }

  /** The second IN follows the first with no OUT between them. */
  lemma DepartureForgotten(a: Addr, log: seq<Line>)
    requires L.LatestOf(log, a) == L.Latest(true, In)
    ensures var r := Forgotten(a, log);
            r.Legal() && !Undisturbed(r, TIMEOUT_DEFAULT_S * 1000)
            && r.End().notes == [Resumed(a, 1), Left(a, 61_000_000, TIMEOUT_DEFAULT_S * 1000),
                                 Refreshed(a, 62_000_000), Recorded(a, In, 62_000_000)]
            && S.Latest(r.End().notes[..3], a) == Some(In)
  {
    hide TickUpTo, L.LatestOf;
    var r, x, ms := Forgotten(a, log), SeenAt(a, 1), TIMEOUT_DEFAULT_S * 1000;
    BootsOnOne(a, log, 1);
    assert BondOf(a, log) == Bond(a, true);
    var s := With(x, TIMEOUT_DEFAULT_S, [Resumed(a, 1)]);
    assert r.before.before.Legal() && r.before.before.End() == s;
    TickOfSingle(s, SLOTS, 61_000_000, false, true, seq(SLOTS, i => ProbeReply(false, false)));
    var h := [Resumed(a, 1)] + [Left(a, 61_000_000, ms)];
    var y := x.(present := false, ack := false);
    PutWith(x, y, TIMEOUT_DEFAULT_S, h);
    assert r.before.Legal() && r.before.End() == With(y, TIMEOUT_DEFAULT_S, h);
    SeenWith(y, TIMEOUT_DEFAULT_S, h, 62_000_000, true);
    var all := r.End().notes;
    assert all == h + [Refreshed(a, 62_000_000)] + [Recorded(a, In, 62_000_000)];
    assert all[..3] == h + [Refreshed(a, 62_000_000)];
    S.LatestGrows(h, Refreshed(a, 62_000_000), a);
    S.LatestGrows([Resumed(a, 1)], Left(a, 61_000_000, ms), a);
    S.LatestGrows([], Resumed(a, 1), a);
    assert [] + [Resumed(a, 1)] == [Resumed(a, 1)];
    assert BootedAt(r.before.before) == 1 && BootedAt(r.before) == 1;
    assert !Undisturbed(r.before, ms);
  }
}
