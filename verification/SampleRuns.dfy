/** Small runs with one bonded peer, by which other modules show that what they speak of happens. */
module SampleRuns {
  import opened Common
  import opened EventLines
  import opened Presence
  import L = LatestEvents

  /** A state in which only the first slot is used. */
  function Single(x: Slot, notes: seq<Note>): (s: State)
    ensures |s.slots| == SLOTS
  {
    State([x] + seq(SLOTS - 1, i => EMPTY_SLOT), TIMEOUT_DEFAULT_S * 1000, Scanning, false, notes)
  }

  /** The slot of a peer seen last at `at`; no probe of it was ever tried. */
  function SeenAt(a: Addr, at: int): Slot {
    Slot(true, a, at, 0, true, true, false, false, NO_HANDLE)
  }

  /** A tick during a pairing, which keeps it from probing. */
  function QuietTick(at: int): Step {
    Step(at, true, Ticks(true, seq(SLOTS, i => ProbeReply(false, false))))
  }

  /** After a boot on an empty log the peer is seen. */
  function Arrival(a: Addr, at: int): Run {
    Then(Booted(1, None, [a], []), Step(at, true, Sighting(a, true)))
  }

  lemma BootsOnOne(a: Addr, log: seq<Line>, now: int)
    ensures var b := BondOf(a, log);
            Boot(now, None, BondsOf([a], log))
            == Single(Allocated(b, now), if b.wasIn then [Resumed(a, now)] else [])
  {
    var b, tail := BondOf(a, log), seq(SLOTS - 1, i => EMPTY_SLOT);
    var blank := State(seq(SLOTS, i => EMPTY_SLOT), TIMEOUT_DEFAULT_S * 1000, Idle, false, []);
    assert BondsOf([a], log) == [b];
    assert FirstFree(blank.slots) == 0 && IndexOf(blank.slots, a) == SLOTS;
    assert blank.slots[0 := Allocated(b, now)] == [Allocated(b, now)] + tail;
    assert [b][1..] == [];
    var t := AllocateAt(blank, 0, b, now);
    assert Preallocate(t, [], now) == t;
    assert Preallocate(LoadTimeout(blank, None), [b], now) == t;
    assert [] + [Resumed(a, now)] == [Resumed(a, now)];
  }

  lemma ArrivalEnds(a: Addr, at: int)
    requires at >= 1
    ensures Arrival(a, at).Legal()
    ensures Arrival(a, at).End() == Single(SeenAt(a, at), [Refreshed(a, at), Recorded(a, In, at)])
  {
    BootsOnOne(a, [], 1);
    assert BondOf(a, []) == Bond(a, false);
    var s := Single(Allocated(Bond(a, false), 1), []);
    assert Holds(s.slots[0], a) && IndexOf(s.slots, a) == 0;
    var tail := seq(SLOTS - 1, i => EMPTY_SLOT);
    assert forall x, y: Slot :: ([x] + tail)[0 := y] == [y] + tail;
    assert Seen(s, a, true, at, true) == Single(SeenAt(a, at), [Refreshed(a, at), Recorded(a, In, at)]);
  }

  /** A tick passes over unused slots. */
  lemma {:induction false} TickOfSingle(s: State, n: nat, now: int, synced: bool, pairing: bool,
                                        replies: seq<ProbeReply>)
    requires 1 <= n <= |s.slots| == |replies|
    requires forall i :: 1 <= i < |s.slots| ==> !s.slots[i].used
    ensures TickUpTo(s, n, now, synced, pairing, replies) == TickSlot(s, 0, now, synced, pairing, replies[0])
  {
    if n > 1 {
      TickOfSingle(s, n - 1, now, synced, pairing, replies);
      OthersStay(s, n - 1, now, synced, pairing, replies[0]);
    } else {
      assert TickUpTo(s, 0, now, synced, pairing, replies) == s;
    }
  }

  lemma OthersStay(s: State, j: nat, now: int, synced: bool, pairing: bool, reply: ProbeReply)
    requires 1 <= j < |s.slots|
    ensures TickSlot(s, 0, now, synced, pairing, reply).slots[j] == s.slots[j]
  {
  }

  /** A quiet tick on a peer that is neither connected nor to be caught up. */
  lemma QuietTickOf(a: Addr, seen: int, notes: seq<Note>, now: int)
    ensures var s := Single(SeenAt(a, seen), notes);
            Next(s, QuietTick(now))
            == if ElapsedMs(now, seen) > TIMEOUT_DEFAULT_S * 1000 then
                 Single(SeenAt(a, seen).(present := false, ack := false),
                        notes + [Left(a, now, TIMEOUT_DEFAULT_S * 1000), Recorded(a, Out, now)])
               else s
  {
    var s := Single(SeenAt(a, seen), notes);
    var replies := seq(SLOTS, i => ProbeReply(false, false));
    TickOfSingle(s, SLOTS, now, true, true, replies);
    var tail := seq(SLOTS - 1, i => EMPTY_SLOT);
    assert forall x, y: Slot :: ([x] + tail)[0 := y] == [y] + tail;
    assert notes + [Left(a, now, TIMEOUT_DEFAULT_S * 1000)] + [Recorded(a, Out, now)]
        == notes + [Left(a, now, TIMEOUT_DEFAULT_S * 1000), Recorded(a, Out, now)];
  }

  lemma WipeOfSingle(x: Slot, notes: seq<Note>, now: int)
    requires x.used && x.present
    ensures Wipe(Single(x, notes), now) == Single(x.(ack := false), notes + [Wiped(now)])
  {
    assert Wipe(Single(x, notes), now).slots == Single(x.(ack := false), notes).slots;
  }

  /** A quiet tick that makes up for an IN. */
  lemma CatchUpTick(a: Addr, seen: int, notes: seq<Note>, now: int)
    requires 0 <= now - seen <= 15_000_000
    ensures Next(Single(SeenAt(a, seen).(ack := false), notes), QuietTick(now))
            == Single(SeenAt(a, seen), notes + [Recorded(a, In, now)])
  {
    var s := Single(SeenAt(a, seen).(ack := false), notes);
    TickOfSingle(s, SLOTS, now, true, true, seq(SLOTS, i => ProbeReply(false, false)));
    var tail := seq(SLOTS - 1, i => EMPTY_SLOT);
    assert forall x, y: Slot :: ([x] + tail)[0 := y] == [y] + tail;
  }

  /** Sixteen seconds of silence do not check a phone out; a minute and a millisecond does. */
  lemma SilentButPresent(a: Addr)
    ensures var r := Then(Arrival(a, 1_000_000), QuietTick(17_000_000));
            r.Legal() && Holds(r.End().slots[0], a) && r.End().slots[0].present
            && r.End().slots[0].lastSeen == 1_000_000
    ensures var r := Then(Arrival(a, 1_000_000), QuietTick(61_001_000));
            r.Legal() && !r.End().slots[0].present && Recorded(a, Out, 61_001_000) in r.End().notes
  {
    ArrivalEnds(a, 1_000_000);
    var notes := [Refreshed(a, 1_000_000), Recorded(a, In, 1_000_000)];
    QuietTickOf(a, 1_000_000, notes, 17_000_000);
    QuietTickOf(a, 1_000_000, notes, 61_001_000);
    var after := notes + [Left(a, 61_001_000, TIMEOUT_DEFAULT_S * 1000), Recorded(a, Out, 61_001_000)];
    assert after[3] == Recorded(a, Out, 61_001_000);
  }
}
