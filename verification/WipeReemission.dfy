/** Wiping the log: the next synced tick records IN again for everyone present, and which of these INs reach the
    log. */
module WipeReemission {
  import opened Common
  import opened Presence
  import opened PresenceNotes
  import opened SampleRuns
  import opened Session
  import S = PresenceSafety
  import D = Debounce

  /** `n` was noted between `s` and `t`. */
  ghost predicate NotedSince(s: State, t: State, n: Note) {
    s.notes <= t.notes && n in t.notes[|s.notes|..]
  }

  lemma TickSlotNotes(s: State, t: State, i: nat, now: int, synced: bool, pairing: bool, reply: ProbeReply)
    requires i < |s.slots| && t == TickSlot(s, i, now, synced, pairing, reply)
    ensures && s.notes <= t.notes
            && (s.slots[i].used && s.slots[i].present && !s.slots[i].ack && synced
                ==> NotedSince(s, t, Recorded(s.slots[i].addr, In, now)))
  {
    var x := s.slots[i];
    var r := RefreshLinked(s, i, now);
    var c := CatchUp(r, i, now, synced);
    assert s.notes <= r.notes <= c.notes;
    if x.used && x.present && !x.ack && synced {
      assert c.notes[|r.notes|] == Recorded(x.addr, In, now);
    }
    if x.used {
      S.ProbeStartFrame(c, i, now, pairing, reply);
      assert c.notes <= t.notes;
      if x.present && !x.ack && synced {
        assert t.notes[|s.notes|..][|r.notes| - |s.notes|] == Recorded(x.addr, In, now);
      }
    }
  }

  lemma TickNotesOn(s: State, t: State, u: State, n: nat, i: nat, now: int, pairing: bool, replies: seq<ProbeReply>)
    requires 0 < n <= |s.slots| == |replies| && i < |s.slots| && s.slots[i].present && !s.slots[i].ack
    requires s.slots[i].used && t == TickUpTo(s, n - 1, now, true, pairing, replies)
    requires u == TickSlot(t, n - 1, now, true, pairing, replies[n - 1])
    requires s.notes <= t.notes && (i < n - 1 ==> NotedSince(s, t, Recorded(s.slots[i].addr, In, now)))
    ensures s.notes <= u.notes && (i < n ==> NotedSince(s, u, Recorded(s.slots[i].addr, In, now)))
  {
    S.TickFrame(s, n - 1, i, now, true, pairing, replies);
    TickSlotNotes(t, u, n - 1, now, true, pairing, replies[n - 1]);
    NotesStep(s, t, u, Recorded(s.slots[i].addr, In, now), i, n);
  }

  lemma {:induction false} TickNotes(s: State, n: nat, i: nat, now: int, pairing: bool, replies: seq<ProbeReply>)
    requires n <= |s.slots| == |replies| && i < |s.slots|
    requires s.slots[i].used && s.slots[i].present && !s.slots[i].ack
    ensures var t := TickUpTo(s, n, now, true, pairing, replies);
            && s.notes <= t.notes
            && (i < n ==> NotedSince(s, t, Recorded(s.slots[i].addr, In, now)))
  {
    if n > 0 {
      TickNotes(s, n - 1, i, now, pairing, replies);
      TickNotesOn(s, TickUpTo(s, n - 1, now, true, pairing, replies), TickUpTo(s, n, now, true, pairing, replies), n, i,
                  now, pairing, replies);
    }
  }

  lemma NotesStep(s: State, t: State, u: State, note: Note, i: nat, n: nat)
    requires s.notes <= t.notes <= u.notes && n > 0
    requires i < n - 1 ==> NotedSince(s, t, note)
    requires i == n - 1 ==> NotedSince(t, u, note)
    ensures i < n ==> NotedSince(s, u, note)
  {
    if i < n - 1 {
      LaterNoted(s, s, t, note, u);
    } else if i == n - 1 {
      LaterNoted(s, t, u, note, u);
    }
  }

  /** A note made between `s` and some later state was made between any two states around them. */
  lemma LaterNoted(first: State, s: State, t: State, n: Note, u: State)
    requires first.notes <= s.notes <= t.notes && n in t.notes[|s.notes|..]
    ensures NotedSince(first, t, n)
    ensures t.notes <= u.notes ==> NotedSince(first, u, n)
  {
    var k :| 0 <= k < |t.notes| - |s.notes| && t.notes[|s.notes|..][k] == n;
    assert t.notes[|first.notes|..][|s.notes| - |first.notes| + k] == n;
    if t.notes <= u.notes {
      assert u.notes[|first.notes|..][|s.notes| - |first.notes| + k] == n;
    }
  }

  /** After a wipe the next synced tick records IN again for every peer that is present. */
  lemma WipeReemits(s: State, wipedAt: int, now: int, pairing: bool, replies: seq<ProbeReply>, i: nat)
    requires S.Inv(s, wipedAt) && |replies| == SLOTS && i < SLOTS && s.slots[i].present
    ensures var w := Next(s, Step(wipedAt, true, WipeEvents));
            NotedSince(w, Next(w, Step(now, true, Ticks(pairing, replies))), Recorded(s.slots[i].addr, In, now))
  {
    assert S.SlotOk(s.slots[i], s.notes, wipedAt);
    TickNotes(Wipe(s, wipedAt), SLOTS, i, now, pairing, replies);
  }

  // ---------- the calls of a run ----------

  /** A recorded event is a call. */
  lemma {:induction false} CallOfNote(h: seq<Note>, k: nat) returns (c: nat)
    requires k < |h| && h[k].Recorded?
    ensures c < |Calls(h)| && Calls(h)[c] == D.Call(h[k].peer, h[k].kind, h[k].at)
    ensures forall n :: 0 <= n <= k ==> |Calls(h[..n])| <= c
  {
    var g := h[..|h| - 1];
    if k == |h| - 1 {
      c := |Calls(g)|;
      forall n | 0 <= n <= k
        ensures |Calls(h[..n])| <= c
      {
        CallsGrow(g, n);
        assert g[..n] == h[..n];
      }
    } else {
      c := CallOfNote(g, k);
      forall n | 0 <= n <= k
        ensures |Calls(h[..n])| <= c
      {
        assert g[..n] == h[..n];
      }
    }
  }

  lemma {:induction false} CallsGrow(h: seq<Note>, n: nat)
    requires n <= |h|
    ensures |Calls(h[..n])| <= |Calls(h)|
  {
    if n < |h| {
      CallsGrow(h[..|h| - 1], n);
      assert h[..|h| - 1][..n] == h[..n];
    } else {
      assert h[..n] == h;
    }
  }

  /** Calls come in the order of the notes' times. */
  lemma {:induction false} CallsSteady(h: seq<Note>)
    requires forall i :: 0 <= i < |h| ==> h[i].at > 0
    requires forall i, j :: 0 <= i < j < |h| ==> h[i].at <= h[j].at
    ensures D.Steady(Calls(h)) && forall c :: c in Calls(h) ==> c.at <= h[|h| - 1].at
  {
    if h != [] {
      var g := h[..|h| - 1];
      CallsSteady(g);
      forall c | c in Calls(g)
        ensures c.at <= h[|h| - 1].at
      {
        assert c.at <= g[|g| - 1].at;
      }
      forall j | 0 <= j < |Calls(g)|
        ensures Calls(g)[j].at <= h[|h| - 1].at
      {
        assert Calls(g)[j] in Calls(g);
      }
    }
  }

  // ---------- from the wipe to the next tick ----------

  /** The run `u` continues `w` without another wipe, and at every point slot `i` holds `a`, which is present. */
  ghost predicate StaysPresent(u: Run, w: Run, i: nat, a: Addr)
    requires u.Legal()
  {
    && (u == w || (u.Then? && StaysPresent(u.before, w, i, a) && !u.step.action.WipeEvents?))
    && i < |u.End().slots| && Holds(u.End().slots[i], a) && u.End().slots[i].present
  }

  /** IN is noted for `a` between `s` and `t`. */
  ghost predicate InSince(s: State, t: State, a: Addr) {
    s.notes <= t.notes && exists m :: |s.notes| <= m < |t.notes| && t.notes[m] == Recorded(a, In, t.notes[m].at)
  }

  lemma SeenSince(s: State, a: Addr, bonded: bool, now: int, synced: bool, i: nat)
    requires i < |s.slots| && s.slots[i].used && !s.slots[i].ack
    ensures var t := Seen(s, a, bonded, now, synced);
            t.slots[i].ack ==> InSince(s, t, s.slots[i].addr)
    ensures var t := HidConnected(s, a, bonded, now, synced);
            t.slots[i].ack ==> InSince(s, t, s.slots[i].addr)
  {
    var t := Seen(s, a, bonded, now, synced);
    if t.slots[i].ack {
      assert i == IndexOf(s.slots, a) && s.slots[i].addr == a;
      assert t.notes[|s.notes| + 1] == Recorded(a, In, now);
    }
  }

  /** Without the wall clock a tick acknowledges nobody. */
  lemma TickSlotUnsynced(s: State, i: nat, now: int, pairing: bool, reply: ProbeReply)
    requires i < |s.slots| && !s.slots[i].ack
    ensures !TickSlot(s, i, now, false, pairing, reply).slots[i].ack
  {
    var c := CatchUp(RefreshLinked(s, i, now), i, now, false);
    S.ProbeStartFrame(c, i, now, pairing, reply);
  }

  lemma TickSince(s: State, st: Step, i: nat)
    requires Enabled(s, st.action) && st.action.Ticks? && i < |s.slots|
    requires s.slots[i].used && s.slots[i].present && !s.slots[i].ack
    ensures Next(s, st).slots[i].ack ==> InSince(s, Next(s, st), s.slots[i].addr)
  {
    var pairing, replies := st.action.pairing, st.action.replies;
    if st.synced {
      TickNotes(s, |s.slots|, i, st.now, pairing, replies);
      NotedIn(s, Next(s, st), s.slots[i].addr, st.now);
    } else {
      S.TickFrame(s, |s.slots|, i, st.now, false, pairing, replies);
      S.TickFrame(s, i, i, st.now, false, pairing, replies);
      TickSlotUnsynced(TickUpTo(s, i, st.now, false, pairing, replies), i, st.now, pairing, replies[i]);
    }
  }

  lemma NotedIn(s: State, t: State, a: Addr, at: int)
    requires NotedSince(s, t, Recorded(a, In, at))
    ensures InSince(s, t, a)
  {
    var n :| 0 <= n < |t.notes| - |s.notes| && t.notes[|s.notes|..][n] == Recorded(a, In, at);
    assert t.notes[|s.notes| + n] == Recorded(a, In, at);
  }

  /** A present peer that becomes acknowledged has IN recorded in that step. */
  lemma AckedSince(s: State, st: Step, i: nat)
    requires Enabled(s, st.action) && !st.action.WipeEvents? && i < |s.slots|
    requires s.slots[i].used && s.slots[i].present && !s.slots[i].ack
    requires Next(s, st).slots[i].ack
    ensures InSince(s, Next(s, st), s.slots[i].addr)
  {
    match st.action
    case Sighting(p, bonded) => SeenSince(s, p, bonded, st.now, st.synced, i);
    case HidUp(p, bonded) => SeenSince(s, p, bonded, st.now, st.synced, i);
    case Ticks(_, _) => TickSince(s, st, i);
    case ProbeOk(k, h, bonded) =>
      var t := Put(s.(radio := Idle), k, s.slots[k].(handle := h, connected := true, probing := false));
      SeenSince(t, s.slots[k].addr, bonded, st.now, st.synced, i);
      assert t.notes == s.notes && t.slots[i].addr == s.slots[i].addr;
    case AllocateBonds(peers, log) => S.PreallocateFrame(s, BondsOf(peers, log), st.now, i);
    case _ =>
  }

  lemma NotesExtend(s: State, st: Step)
    requires Enabled(s, st.action)
    ensures s.notes <= Next(s, st).notes
  {
    if st.action.AllocateBonds? {
      AllocationNotes(s, st.action.peers, st.action.log, st.now);
    } else {
      NextAdds(s, st);
    }
  }

  lemma InStays(s: State, t: State, u: State, a: Addr)
    requires t.notes <= u.notes && s.notes <= t.notes && (InSince(s, t, a) || InSince(t, u, a))
    ensures InSince(s, u, a)
  {
    if InSince(s, t, a) {
      var m :| |s.notes| <= m < |t.notes| && t.notes[m] == Recorded(a, In, t.notes[m].at);
      assert u.notes[m] == t.notes[m];
    }
  }

  /** As long as a peer that was present at a wipe stays present, it is acknowledged only if IN was recorded for it
      since. */
  lemma {:induction false} AckedMeansIn(u: Run, w: Run, i: nat, a: Addr)
    requires u.Legal() && w.Legal() && StaysPresent(u, w, i, a) && i < |w.End().slots| && !w.End().slots[i].ack
    ensures w.End().notes <= u.End().notes
    ensures u.End().slots[i].ack ==> InSince(w.End(), u.End(), a)
  {
    if u != w {
      var s, t := u.before.End(), u.End();
      AckedMeansIn(u.before, w, i, a);
      NotesExtend(s, u.step);
      if t.slots[i].ack {
        if !s.slots[i].ack { AckedSince(s, u.step, i); }
        InStays(w.End(), s, t, a);
      }
    }
  }

  // ---------- what reaches the log ----------

  /** The peer's accepted IN of call `j` still holds its slot of the debounce table at call `k`, less than 10 s
      later. */
  ghost predicate Blocks(calls: seq<D.Call>, j: nat, k: nat) {
    j < k < |calls| && D.AcceptedOf(calls, j, calls[k].peer) && calls[j].kind.In?
    && calls[k].at - calls[j].at < 10_000_000 && D.Stays(calls, j, k, calls[k].peer)
  }

  lemma AcceptedUnlessBlocked(calls: seq<D.Call>, k: nat)
    requires D.Steady(calls) && k < |calls| && calls[k].kind.In?
    ensures D.Accepted(calls, k) <==> !exists j: nat :: Blocks(calls, j, k)
  {
    D.DroppedExactly(calls, k);
    if !D.Accepted(calls, k) {
      var j: nat :| j < k && D.AcceptedOf(calls, j, calls[k].peer) && calls[j].kind == calls[k].kind
                    && calls[k].at - calls[j].at < D.WINDOW_US && D.Stays(calls, j, k, calls[k].peer);
      assert Blocks(calls, j, k);
    } else {
      forall j: nat
        ensures !Blocks(calls, j, k)
      {
      }
    }
  }

  /** In any run: a peer that is present when the log is wiped and stays present has IN recorded again, by a sighting
      or a tick, no later than the next tick with the wall clock known; and that IN reaches the wiped log if and only
      if no accepted IN of the peer less than 10 s old still holds its debounce slot. */
  lemma ReemissionAccepted(u: Run, w: Run, i: nat, a: Addr) returns (k: nat)
    requires u.Legal() && w.Legal() && StaysPresent(u, w, i, a)
    requires w.Then? && w.step.action.WipeEvents? && u != w && u.step.synced && u.step.action.Ticks?
    ensures var calls := Calls(u.End().notes);
            |Calls(w.End().notes)| <= k < |calls| && calls[k] == D.Call(a, In, calls[k].at)
            && (D.Accepted(calls, k) <==> !exists j: nat :: Blocks(calls, j, k))
  {
    var h := u.End().notes;
    WipedUnacked(w, u, i, a);
    AckedMeansIn(u, w, i, a);
    NextSettles(u.before, u.step);
    var m :| |w.End().notes| <= m < |h| && h[m] == Recorded(a, In, h[m].at);
    k := CallOfNote(h, m);
    assert h[..|w.End().notes|] == w.End().notes;
    NotesInOrder(u);
    CallsSteady(h);
    AcceptedUnlessBlocked(Calls(h), k);
  }

  lemma {:induction false} StartsPresent(u: Run, w: Run, i: nat, a: Addr)
    requires u.Legal() && StaysPresent(u, w, i, a)
    ensures w.Legal() && i < |w.End().slots| && Holds(w.End().slots[i], a) && w.End().slots[i].present
  {
    if u != w { StartsPresent(u.before, w, i, a); }
  }

  lemma WipedUnacked(w: Run, u: Run, i: nat, a: Addr)
    requires u.Legal() && w.Legal() && StaysPresent(u, w, i, a) && w.Then? && w.step.action.WipeEvents?
    ensures i < |w.End().slots| && !w.End().slots[i].ack
  {
    StartsPresent(u, w, i, a);
  }

  /** A wipe of the log followed by a synced tick. */
  function WipedAndTicked(r: Run, wipedAt: int, synced: bool, now: int, pairing: bool, replies: seq<ProbeReply>): Run {
    Then(Then(r, Step(wipedAt, synced, WipeEvents)), Step(now, true, Ticks(pairing, replies)))
  }

  /** Seen at 60 s, wiped at 61 s, a tick at 62 s. */
  function SwallowingRun(a: Addr): Run {
    WipedAndTicked(Arrival(a, 60_000_000), 61_000_000, true, 62_000_000, true,
                   seq(SLOTS, i => ProbeReply(false, false)))
  }

  lemma SwallowingWiped(a: Addr)
    ensures var w := SwallowingRun(a).before;
            w.Legal()
            && w.End() == Single(SeenAt(a, 60_000_000).(ack := false),
                                 [Refreshed(a, 60_000_000), Recorded(a, In, 60_000_000), Wiped(61_000_000)])
  {
    ArrivalEnds(a, 60_000_000);
    var before := [Refreshed(a, 60_000_000), Recorded(a, In, 60_000_000)];
    WipeOfSingle(SeenAt(a, 60_000_000), before, 61_000_000);
    assert before + [Wiped(61_000_000)]
        == [Refreshed(a, 60_000_000), Recorded(a, In, 60_000_000), Wiped(61_000_000)];
  }

  lemma SwallowingEnds(a: Addr)
    ensures var u := SwallowingRun(a);
            u.Legal()
            && u.End() == Single(SeenAt(a, 60_000_000),
                                 [Refreshed(a, 60_000_000), Recorded(a, In, 60_000_000), Wiped(61_000_000),
                                  Recorded(a, In, 62_000_000)])
  {
    SwallowingWiped(a);
    var h := [Refreshed(a, 60_000_000), Recorded(a, In, 60_000_000), Wiped(61_000_000)];
    CatchUpTick(a, 60_000_000, h, 62_000_000);
    assert h + [Recorded(a, In, 62_000_000)]
        == [Refreshed(a, 60_000_000), Recorded(a, In, 60_000_000), Wiped(61_000_000), Recorded(a, In, 62_000_000)];
  }

  lemma SecondDropped(a: Addr)
    ensures var calls := [D.Call(a, In, 60_000_000), D.Call(a, In, 62_000_000)];
            D.Accepted(calls, 0) && !D.Accepted(calls, 1)
  {
  }

  /** The promise broken: seen at 60 s, wiped at 61 s, the peer is present, but its IN of the tick at 62 s never
      reaches the log. */
  lemma ReemissionSwallowed(a: Addr)
    ensures var u := SwallowingRun(a);
            u.Legal() && u.End().slots[0] == SeenAt(a, 60_000_000)
            && Calls(u.End().notes) == [D.Call(a, In, 60_000_000), D.Call(a, In, 62_000_000)]
            && D.Accepted(Calls(u.End().notes), 0) && !D.Accepted(Calls(u.End().notes), 1)
  {
    SwallowingEnds(a);
    CallsOf4(SwallowingRun(a).End().notes);
    SecondDropped(a);
  }

  lemma CallsOf4(h: seq<Note>)
    requires |h| == 4 && !h[0].Recorded? && h[1].Recorded? && !h[2].Recorded? && h[3].Recorded?
    ensures Calls(h) == [D.Call(h[1].peer, h[1].kind, h[1].at), D.Call(h[3].peer, h[3].kind, h[3].at)]
  {
    CallsStep(h[..1]);
    CallsStep(h[..2]);
    CallsStep(h[..3]);
    CallsStep(h);
    assert h[..1][..0] == [] && h[..2][..1] == h[..1] && h[..3][..2] == h[..2];
  }

  lemma CallsStep(h: seq<Note>)
    requires h != []
    ensures var n := h[|h| - 1];
            Calls(h) == Calls(h[..|h| - 1]) + if n.Recorded? then [D.Call(n.peer, n.kind, n.at)] else []
  {
    assert Calls(h[..|h| - 1]) + [] == Calls(h[..|h| - 1]);
  }
}
