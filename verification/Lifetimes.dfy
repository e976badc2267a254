/** The log over the whole life of a device: any number of boots, each resuming its peers from what the earlier
    ones left of it, and rotations that drop its oldest lines at any time. */
module Lifetimes {
  import opened Common
  import opened EventLines
  import opened Presence
  import opened PresenceNotes
  import opened Session
  import L = LatestEvents
  import S = PresenceSafety
  import D = Debounce
  import W = Workers

  /** What survives a restart: the event log and the workers. `written` is everything that was ever appended to
      the log; the rotations have dropped its first `gone` lines. */
  datatype Disk = Disk(written: seq<Line>, gone: nat, workers: W.Registry)

  /** The lines of the file. */
  function Kept(d: Disk): seq<Line> {
    From(d.written, d.gone)
  }

  function From(log: seq<Line>, k: nat): seq<Line> {
    if k <= |log| then log[k..] else []
  }

  /** The line of a BLE event; a worker id of 0 is not written. */
  function LineOf(c: D.Call, ts: int, worker: nat): Line {
    Line(Some(c.kind), Some(ts), Some(c.at), if worker == 0 then None else Some(worker), Some(c.peer),
         Some("ble_auto"))
  }

  /** `dd_event_record` behind the debounce: the peer's worker is looked up or created, and the line appended. */
  function Record(d: Disk, c: D.Call, ts: int): Disk {
    d.(written := d.written + [LineOf(c, ts, W.LookupResult(d.workers, c.peer))],
       workers := W.LookupOrCreate(d.workers, c.peer, ts))
  }

  /** The first `n` calls since a boot, those left out that the debounce drops; `wall` is the wall clock at a
      reading of the timer. */
  function Logged(d: Disk, calls: seq<D.Call>, n: nat, wall: int -> int): Disk
    requires n <= |calls|
  {
    if n == 0 then d
    else
      var e := Logged(d, calls, n - 1, wall);
      if D.Accepted(calls, n - 1) then Record(e, calls[n - 1], wall(calls[n - 1].at)) else e
  }

  /** What a run since a boot writes. */
  ghost function After(d: Disk, r: Run, wall: int -> int): Disk
    requires r.Legal()
  {
    var calls := Calls(r.End().notes);
    Logged(d, calls, |calls|, wall)
  }

  /** The surroundings of a run: the wall clock, how many of all the lines ever written are rotated away after so
      many of its steps, and a timeout that its presence timeout is never below. */
  datatype Setting = Setting(wall: int -> int, rotated: nat -> nat, timeoutMs: int)

  function Steps(r: Run): nat {
    if r.Booted? then 0 else Steps(r.before) + 1
  }

  /** What a run leaves. */
  ghost function Leaves(d: Disk, r: Run, g: Setting): Disk
    requires r.Legal()
  {
    After(d, r, g.wall).(gone := g.rotated(Steps(r)))
  }

  /** A new device, possibly with workers seeded, and then boot after boot. */
  datatype Life =
    | Factory(workers: W.Registry)
    | Reboot(before: Life, setting: Setting, run: Run)

  /** Rotations may drop any of the oldest lines at any step. At every boot and reallocation the bonds are resumed
      from the file as it is then, and at the boot no peer with a line in the file has lost its bond. */
  ghost predicate Informed(r: Run, d: Disk, g: Setting)
    requires r.Legal()
  {
    match r
    case Booted(_, _, peers, log) =>
      g.rotated(0) == d.gone && log == Kept(d)
      && forall i :: 0 <= i < |log| && log[i].peer.Some? ==> log[i].peer.value in peers
    case Then(before, step) =>
      && Informed(before, d, g)
      && g.rotated(Steps(before)) <= g.rotated(Steps(r)) <= |After(d, r, g.wall).written|
      && (step.action.AllocateBonds? ==>
            g.rotated(Steps(r)) <= |After(d, before, g.wall).written|
            && step.action.log == From(After(d, before, g.wall).written, g.rotated(Steps(r))))
  }

  predicate DistinctAddrs(ram: seq<W.Worker>) {
    forall i, j :: 0 <= i < j < |ram| ==> ram[i].addr != ram[j].addr
  }

  /** Every run is undisturbed. */
  ghost predicate Lived(l: Life)
    decreases l, 0
  {
    match l
    case Factory(workers) => W.Inv(workers) && DistinctAddrs(workers.ram)
    case Reboot(before, g, run) =>
      Lived(before) && run.Legal() && Undisturbed(run, g.timeoutMs) && (forall t :: g.wall(t) > 0)
      && Informed(run, AtBoot(before), g)
  }

  ghost function DiskOf(l: Life): Disk
    requires Lived(l)
    decreases l, 1
  {
    match l
    case Factory(workers) => Disk([], 0, workers)
    case Reboot(before, g, run) => Leaves(AtBoot(before), run, g)
  }

  /** The disk as the next boot finds it. */
  ghost function AtBoot(l: Life): Disk
    requires Lived(l)
    decreases l, 2
  {
    var d := DiskOf(l);
    d.(workers := W.Reboot(d.workers))
  }

  // ---------- alternation of a log ----------

  predicate Of(l: Line, a: Addr) {
    l.peer == Some(a)
  }

  /** The kind of the peer's last line. */
  function LastKind(log: seq<Line>, a: Addr): Option<Kind> {
    if log == [] then None
    else if Of(log[|log| - 1], a) then log[|log| - 1].kind
    else LastKind(log[..|log| - 1], a)
  }

  /** Line `k` is of another kind than its peer's line before it, if there is one. */
  predicate Differs(log: seq<Line>, k: nat)
    requires k < |log|
  {
    log[k].peer.Some? && log[k].kind.Some? && log[k].kind != LastKind(log[..k], log[k].peer.value)
  }

  /** For each peer no IN follows an IN and no OUT an OUT. */
  ghost predicate Alternates(log: seq<Line>) {
    forall k :: 0 <= k < |log| ==> Differs(log, k)
  }

  /** If line `k` is an OUT, its peer's line before it is an IN. */
  predicate Answers(log: seq<Line>, k: nat)
    requires k < |log|
  {
    log[k].peer.Some? && (log[k].kind == Some(Out) ==> LastKind(log[..k], log[k].peer.value) == Some(In))
  }

  /** No OUT without an IN directly before it. */
  ghost predicate Answered(log: seq<Line>) {
    forall k :: 0 <= k < |log| ==> Answers(log, k)
  }

  /** Lines with an event, a peer and a known time. */
  predicate Complete(log: seq<Line>) {
    forall i :: 0 <= i < |log| ==>
      log[i].kind.Some? && log[i].peer.Some? && log[i].ts.Some? && log[i].ts.value > 0
  }

  /** Each peer's lines carry increasing pairs of wall clock and timer. */
  ghost predicate Ordered(log: seq<Line>) {
    forall i, j :: 0 <= i < j < |log| && log[i].peer == log[j].peer ==> L.Later(log[j], log[i])
  }

  lemma AlternatesPush(log: seq<Line>, l: Line)
    requires Alternates(log) && l.peer.Some? && l.kind.Some? && l.kind != LastKind(log, l.peer.value)
    ensures Alternates(log + [l])
  {
    var more := log + [l];
    forall k | 0 <= k < |more|
      ensures Differs(more, k)
    {
      if k < |log| {
        assert Differs(log, k) && more[..k] == log[..k];
      } else {
        assert more[..k] == log;
      }
    }
  }

  lemma AnsweredPush(log: seq<Line>, l: Line)
    requires Answered(log) && l.peer.Some? && (l.kind == Some(Out) ==> LastKind(log, l.peer.value) == Some(In))
    ensures Answered(log + [l])
  {
    var more := log + [l];
    forall k | 0 <= k < |more|
      ensures Answers(more, k)
    {
      if k < |log| {
        assert Answers(log, k) && more[..k] == log[..k];
      } else {
        assert more[..k] == log;
      }
    }
  }

  lemma LastKindPush(log: seq<Line>, l: Line, a: Addr)
    ensures LastKind(log + [l], a) == if Of(l, a) then l.kind else LastKind(log, a)
  {
    assert (log + [l])[..|log|] == log;
  }

  /** Dropping old lines may make a peer's last line disappear, but does not change it. */
  lemma {:induction false} LastKindDrop(log: seq<Line>, k: nat, a: Addr)
    requires k <= |log|
    ensures LastKind(log[k..], a) == None || LastKind(log[k..], a) == LastKind(log, a)
  {
    if k < |log| && !Of(log[|log| - 1], a) {
      LastKindDrop(log[..|log| - 1], k, a);
      assert log[k..][..|log| - k - 1] == log[..|log| - 1][k..];
    }
  }

  lemma AlternatesDrop(log: seq<Line>, k: nat)
    requires Alternates(log) && k <= |log|
    ensures Alternates(log[k..])
  {
    forall j | 0 <= j < |log| - k
      ensures Differs(log[k..], j)
    {
      assert Differs(log, k + j);
      assert log[k..][..j] == log[..k + j][k..];
      LastKindDrop(log[..k + j], k, log[k + j].peer.value);
    }
  }

  lemma {:induction false} LastLine(log: seq<Line>, a: Addr) returns (w: nat)
    requires Complete(log) && LastKind(log, a).Some?
    ensures w < |log| && Of(log[w], a) && log[w].kind == LastKind(log, a)
    ensures forall m :: w < m < |log| ==> !Of(log[m], a)
  {
    w := |log| - 1;
    if !Of(log[w], a) { w := LastLine(log[..w], a); }
  }

  lemma {:induction false} NoLine(log: seq<Line>, a: Addr)
    requires Complete(log) && LastKind(log, a).None?
    ensures forall m :: 0 <= m < |log| ==> !Of(log[m], a)
  {
    if log != [] { NoLine(log[..|log| - 1], a); }
  }

  /** With ordered times the lookup at a boot answers with the peer's last line. */
  lemma LookupIsLast(log: seq<Line>, a: Addr)
    requires Complete(log) && Ordered(log)
    ensures L.LatestOf(log, a) == L.Latest(true, In) <==> LastKind(log, a) == Some(In)
  {
    if LastKind(log, a).Some? {
      var w := LastLine(log, a);
      forall m | 0 <= m < |log| && L.Matches(log[m], a)
        ensures Ts(log[m]) > 0 && !L.Later(log[m], log[w]) && (m < w ==> L.Later(log[w], log[m]))
      {
        assert Of(log[m], a);
        if m < w { assert L.Later(log[w], log[m]); }
      }
      L.SyncedLookup(log, a, w);
    } else {
      NoLine(log, a);
      assert forall m :: 0 <= m < |log| ==> (L.Matches(log[m], a) <==> Of(log[m], a));
      L.ScanFindsWinner(log, |log|, a);
    }
  }

  // ---------- what an undisturbed run writes ----------

  /** All calls, written without a debounce. */
  function WriteAll(d: Disk, calls: seq<D.Call>, wall: int -> int): Disk {
    if calls == [] then d
    else
      var c := calls[|calls| - 1];
      Record(WriteAll(d, calls[..|calls| - 1], wall), c, wall(c.at))
  }

  lemma {:induction false} DebouncePasses(d: Disk, calls: seq<D.Call>, n: nat, wall: int -> int)
    requires n <= |calls| && forall k :: 0 <= k < |calls| ==> D.Accepted(calls, k)
    ensures Logged(d, calls, n, wall) == WriteAll(d, calls[..n], wall)
  {
    hide D.Accepted, Record;
    if n > 0 {
      DebouncePasses(d, calls, n - 1, wall);
      assert calls[..n][..n - 1] == calls[..n - 1];
    }
  }

  /** Everything written until a history of notes has happened. */
  function Written(d: Disk, h: seq<Note>, wall: int -> int): seq<Line> {
    WriteAll(d, Calls(h), wall).written
  }

  lemma AfterUndisturbed(d: Disk, r: Run, g: Setting)
    requires r.Legal() && Undisturbed(r, g.timeoutMs)
    ensures After(d, r, g.wall) == WriteAll(d, Calls(r.End().notes), g.wall)
  {
    var calls := Calls(r.End().notes);
    forall k | 0 <= k < |calls|
      ensures D.Accepted(calls, k)
    {
      NothingSwallowed(r, g.timeoutMs, k);
    }
    DebouncePasses(d, calls, |calls|, g.wall);
    assert calls[..|calls|] == calls;
  }

  /** One more note. */
  lemma WrittenPush(d: Disk, g: seq<Note>, n: Note, wall: int -> int)
    ensures n.Recorded? ==>
              var w := W.LookupResult(WriteAll(d, Calls(g), wall).workers, n.peer);
              Written(d, g + [n], wall) == Written(d, g, wall) + [LineOf(D.Call(n.peer, n.kind, n.at), wall(n.at), w)]
    ensures !n.Recorded? ==> Calls(g + [n]) == Calls(g)
  {
    var h := g + [n];
    assert h[..|h| - 1] == g;
    if n.Recorded? {
      var calls, c := Calls(g), D.Call(n.peer, n.kind, n.at);
      assert Calls(h) == calls + [c] && (calls + [c])[..|calls|] == calls;
    }
  }

  lemma {:induction false} WrittenGrows(d: Disk, h: seq<Note>, n: nat, wall: int -> int)
    requires n <= |h|
    ensures Written(d, h[..n], wall) <= Written(d, h, wall)
  {
    if n < |h| {
      var g := h[..|h| - 1];
      WrittenGrows(d, g, n, wall);
      assert g[..n] == h[..n] && g + [h[|h| - 1]] == h;
      WrittenPush(d, g, h[|h| - 1], wall);
    } else {
      assert h[..n] == h;
    }
  }

  lemma WritesOn(d: Disk, h: seq<Note>, wall: int -> int)
    ensures d.written <= Written(d, h, wall)
  {
    WrittenGrows(d, h, 0, wall);
    assert h[..0] == [];
  }

  lemma OrderedPiece(log: seq<Line>, more: seq<Line>, k: nat)
    requires log <= more && Ordered(more) && k <= |log|
    ensures Ordered(log) && Ordered(log[k..])
  {
    forall i, j | 0 <= i < j < |log| && log[i].peer == log[j].peer
      ensures L.Later(log[j], log[i])
    {
      assert more[i] == log[i] && more[j] == log[j];
    }
  }

  // ---------- the file agrees with what the run has said ----------

  /** Everyone whose last word is IN has an IN as the last line written, and everyone whose last line in the file
      is an IN has IN as the last word. */
  ghost predicate Tracks(h: seq<Note>, written: seq<Line>, gone: nat) {
    gone <= |written| && Complete(written) && Answered(written) && Alternates(written[gone..])
    && forall a :: (S.Latest(h, a) == Some(In) ==> LastKind(written, a) == Some(In))
                && (LastKind(written[gone..], a) == Some(In) ==> S.Latest(h, a) == Some(In))
  }

  /** A rotation. */
  lemma TrackDrop(h: seq<Note>, written: seq<Line>, gone: nat, more: nat)
    requires Tracks(h, written, gone) && gone <= more <= |written|
    ensures Tracks(h, written, more)
  {
    assert written[gone..][more - gone..] == written[more..];
    AlternatesDrop(written[gone..], more - gone);
    forall a | LastKind(written[more..], a) == Some(In)
      ensures S.Latest(h, a) == Some(In)
    {
      LastKindDrop(written[gone..], more - gone, a);
    }
  }

  /** A line is appended for a recorded event. */
  lemma TrackLine(g: seq<Note>, n: Note, written: seq<Line>, gone: nat, l: Line)
    requires Tracks(g, written, gone) && n.Recorded? && l.kind == Some(n.kind) && l.peer == Some(n.peer)
    requires l.ts.Some? && l.ts.value > 0 && (n.kind.Out? <==> S.Latest(g, n.peer) == Some(In))
    ensures Tracks(g + [n], written + [l], gone)
  {
    var file := written[gone..];
    assert (written + [l])[gone..] == file + [l];
    LastKindDrop(written, gone, n.peer);
    AlternatesPush(file, l);
    AnsweredPush(written, l);
    forall a
      ensures S.Latest(g + [n], a) == Some(In) ==> LastKind(written + [l], a) == Some(In)
      ensures LastKind(file + [l], a) == Some(In) ==> S.Latest(g + [n], a) == Some(In)
    {
      LastKindPush(written, l, a);
      LastKindPush(file, l, a);
      S.LatestGrows(g, n, a);
    }
  }

  /** Any other note, if a resumed peer's last line in the file is an IN. */
  lemma TrackOther(g: seq<Note>, n: Note, written: seq<Line>, gone: nat)
    requires Tracks(g, written, gone) && !n.Recorded? && !n.Wiped?
    requires n.Resumed? ==> LastKind(written[gone..], n.peer) == Some(In)
    ensures Tracks(g + [n], written, gone)
  {
    forall a
      ensures S.Latest(g + [n], a) == Some(In) ==> LastKind(written, a) == Some(In)
      ensures LastKind(written[gone..], a) == Some(In) ==> S.Latest(g + [n], a) == Some(In)
    {
      S.LatestGrows(g, n, a);
      LastKindDrop(written, gone, a);
    }
  }

  /** The notes from `from` on, of which none resumes a peer. */
  lemma {:induction false} TrackStep(d: Disk, h: seq<Note>, from: nat, m: nat, wall: int -> int, gone: nat)
    requires from <= m <= |h| && AllSpaced(h) && (forall t :: wall(t) > 0)
    requires forall i :: from <= i < |h| ==> !h[i].Resumed? && !h[i].Wiped?
    requires Tracks(h[..from], Written(d, h[..from], wall), gone)
    ensures Tracks(h[..m], Written(d, h[..m], wall), gone)
  {
    if m > from {
      TrackStep(d, h, from, m - 1, wall, gone);
      var g, n := h[..m - 1], h[m - 1];
      assert g + [n] == h[..m];
      WrittenPush(d, g, n, wall);
      if n.Recorded? {
        assert Spaced(h, m - 1);
        var w := W.LookupResult(WriteAll(d, Calls(g), wall).workers, n.peer);
        TrackLine(g, n, Written(d, g, wall), gone, LineOf(D.Call(n.peer, n.kind, n.at), wall(n.at), w));
      } else {
        TrackOther(g, n, Written(d, g, wall), gone);
      }
    }
  }

  /** The notes from `from` on, all of which resume peers whose last line in the file is an IN. */
  lemma {:induction false} TrackResumes(d: Disk, h: seq<Note>, from: nat, m: nat, wall: int -> int, gone: nat)
    requires from <= m <= |h| && Tracks(h[..from], Written(d, h[..from], wall), gone)
    requires forall i :: from <= i < |h| ==>
               h[i].Resumed? && LastKind(Written(d, h[..from], wall)[gone..], h[i].peer) == Some(In)
    ensures Tracks(h[..m], Written(d, h[..from], wall), gone) && Calls(h[..m]) == Calls(h[..from])
  {
    if m > from {
      TrackResumes(d, h, from, m - 1, wall, gone);
      var g, n := h[..m - 1], h[m - 1];
      assert g + [n] == h[..m];
      WrittenPush(d, g, n, wall);
      TrackOther(g, n, Written(d, h[..from], wall), gone);
    }
  }

  // ---------- resuming at a boot ----------

  function Free(slots: seq<Slot>): nat {
    if slots == [] then 0 else (if slots[0].used then 0 else 1) + Free(slots[1..])
  }

  lemma {:induction false} FreePut(slots: seq<Slot>, i: nat, x: Slot)
    requires i < |slots| && !slots[i].used && x.used
    ensures Free(slots[i := x]) == Free(slots) - 1
  {
    if i == 0 {
      assert slots[0 := x][1..] == slots[1..];
    } else {
      FreePut(slots[1..], i - 1, x);
      assert slots[i := x][1..] == slots[1..][i - 1 := x];
    }
  }

  lemma {:induction false} FreeFound(slots: seq<Slot>)
    ensures Free(slots) == 0 <==> FirstFree(slots) == |slots|
    ensures (forall i :: 0 <= i < |slots| ==> !slots[i].used) ==> Free(slots) == |slots|
  {
    if slots != [] {
      FreeFound(slots[1..]);
      assert forall i :: 0 <= i < |slots[1..]| ==> slots[1..][i] == slots[i + 1];
      if slots[0].used && FirstFree(slots[1..]) < |slots| - 1 {
        assert !slots[FirstFree(slots[1..]) + 1].used;
      }
      if slots[0].used && FirstFree(slots) < |slots| { assert !slots[1..][FirstFree(slots) - 1].used; }
    }
  }

  /** A bond that was in has a slot already, or is resumed. */
  predicate BondResumed(s: State, t: State, b: Bond, now: int) {
    b.wasIn ==> IndexOf(s.slots, b.peer) < |s.slots| || Presence.Resumed(b.peer, now) in t.notes
  }

  /** With enough free slots every bond gets one, and every bond that was in is resumed. */
  lemma {:induction false} EveryBondResumed(s: State, bonds: seq<Bond>, now: int)
    requires |bonds| <= Free(s.slots)
    requires forall b, c :: b in bonds && c in bonds && b.peer == c.peer ==> b == c
    ensures var t := Preallocate(s, bonds, now);
            (forall b :: b in bonds ==> IndexOf(t.slots, b.peer) < |t.slots| && BondResumed(s, t, b, now))
            && forall a :: IndexOf(s.slots, a) < |s.slots| ==> IndexOf(t.slots, a) < |t.slots|
    decreases |bonds|
  {
    if bonds != [] {
      var f, b, rest := FirstFree(s.slots), bonds[0], bonds[1..];
      var t := Preallocate(s, bonds, now);
      assert forall c :: c in bonds <==> c == b || c in rest;
      FreeFound(s.slots);
      if IndexOf(s.slots, b.peer) < |s.slots| {
        EveryBondResumed(s, rest, now);
      } else {
        var u := AllocateAt(s, f, b, now);
        FreePut(s.slots, f, Allocated(b, now));
        EveryBondResumed(u, rest, now);
        Occupies(s, u, f, b.peer);
        forall c | c in bonds
          ensures IndexOf(t.slots, c.peer) < |t.slots| && BondResumed(s, t, c, now)
        {
          if c != b {
            ResumedAnyway(s, u, t, b, c, now);
          } else {
            FirstResumed(s, f, b, rest, now);
          }
        }
      }
    }
  }

  /** A bond resumed after the first one got its slot. */
  lemma ResumedAnyway(s: State, u: State, t: State, b: Bond, c: Bond, now: int)
    requires IndexOf(s.slots, b.peer) == |s.slots| && FirstFree(s.slots) < |s.slots|
    requires u == AllocateAt(s, FirstFree(s.slots), b, now) && BondResumed(u, t, c, now) && c.peer != b.peer
    ensures BondResumed(s, t, c, now)
  {
    if IndexOf(u.slots, c.peer) < |u.slots| { assert Holds(s.slots[IndexOf(u.slots, c.peer)], c.peer); }
  }

  lemma FirstResumed(s: State, f: nat, b: Bond, rest: seq<Bond>, now: int)
    requires f < |s.slots|
    ensures BondResumed(s, Preallocate(AllocateAt(s, f, b, now), rest, now), b, now)
  {
    var u := AllocateAt(s, f, b, now);
    PreallocateNotes(u, rest, now);
    var t := Preallocate(u, rest, now);
    if b.wasIn { assert t.notes[|s.notes|] == u.notes[|s.notes|] == Presence.Resumed(b.peer, now); }
  }

  lemma Occupies(s: State, u: State, f: nat, a: Addr)
    requires f < |s.slots| == |u.slots| && u.slots == s.slots[f := u.slots[f]] && !s.slots[f].used && Holds(u.slots[f], a)
    ensures IndexOf(u.slots, a) < |u.slots|
    ensures forall b :: IndexOf(s.slots, b) < |s.slots| ==> IndexOf(u.slots, b) < |u.slots|
  {
    forall b | IndexOf(s.slots, b) < |s.slots|
      ensures IndexOf(u.slots, b) < |u.slots|
    {
      assert Holds(u.slots[IndexOf(s.slots, b)], b);
    }
  }

  lemma BondsOfPeers(peers: seq<Addr>, log: seq<Line>)
    ensures var bonds := BondsOf(peers, log);
            (forall a :: a in peers ==> BondOf(a, log) in bonds)
            && forall b :: b in bonds ==> b == BondOf(b.peer, log)
  {
    var bonds := BondsOf(peers, log);
    forall a | a in peers
      ensures BondOf(a, log) in bonds
    {
      var i: nat :| i < |peers| && peers[i] == a;
      assert bonds[i] == BondOf(a, log);
    }
    forall b | b in bonds
      ensures b == BondOf(b.peer, log)
    {
      var i: nat :| i < |bonds| && bonds[i] == b;
      assert b == BondOf(peers[i], log);
    }
  }

  /** At a boot every bonded peer gets a slot, and is resumed if its bond was in. */
  lemma BootAllocates(r: Run)
    requires r.Booted? && r.Legal()
    ensures forall a :: a in r.peers ==>
              IndexOf(r.End().slots, a) < SLOTS
              && (BondOf(a, r.log).wasIn ==> Presence.Resumed(a, r.now) in r.End().notes)
  {
    var blank := State(seq(SLOTS, i => EMPTY_SLOT), TIMEOUT_DEFAULT_S * 1000, Idle, false, []);
    var s, bonds := LoadTimeout(blank, r.stored), BondsOf(r.peers, r.log);
    FreeFound(s.slots);
    BondsOfPeers(r.peers, r.log);
    EveryBondResumed(s, bonds, r.now);
    var t := Preallocate(s, bonds, r.now);
    assert r.End() == StartScanning(t);
    forall a | a in r.peers
      ensures IndexOf(t.slots, a) < SLOTS && (BondOf(a, r.log).wasIn ==> Presence.Resumed(a, r.now) in t.notes)
    {
      assert BondResumed(s, t, BondOf(a, r.log), r.now);
    }
  }

  /** What is resumed at a boot: exactly the peers whose last line in the file is an IN. */
  lemma BootResumes(r: Run, d: Disk, g: Setting)
    requires r.Booted? && r.Legal() && Informed(r, d, g) && Complete(Kept(d)) && Ordered(Kept(d))
    ensures forall a :: Presence.Resumed(a, r.now) in r.End().notes <==> LastKind(Kept(d), a) == Some(In)
    ensures forall n :: n in r.End().notes ==> n.Resumed? && n.at == r.now
  {
    var h, log := r.End().notes, Kept(d);
    var blank := State(seq(SLOTS, i => EMPTY_SLOT), TIMEOUT_DEFAULT_S * 1000, Idle, false, []);
    AllocationNotes(LoadTimeout(blank, r.stored), r.peers, log, r.now);
    BootAllocates(r);
    forall a
      ensures Presence.Resumed(a, r.now) in h <==> LastKind(log, a) == Some(In)
    {
      LookupIsLast(log, a);
      if LastKind(log, a) == Some(In) {
        var w := LastLine(log, a);
        assert a in r.peers && BondOf(a, log).wasIn;
      }
    }
  }

  lemma {:induction false} ResumedLatest(h: seq<Note>, at: int, a: Addr)
    requires forall n :: n in h ==> n.Resumed? && n.at == at
    ensures S.Latest(h, a) == Some(In) <==> Presence.Resumed(a, at) in h
  {
    if h != [] {
      var g, n := h[..|h| - 1], h[|h| - 1];
      assert h == g + [n] && n in h;
      ResumedLatest(g, at, a);
    }
  }

  // ---------- the whole life ----------

  /** What a life so far guarantees the next boot. */
  ghost predicate Sound(d: Disk) {
    d.gone <= |d.written| && Complete(d.written) && Answered(d.written) && Alternates(Kept(d))
  }

  lemma BootTracks(r: Run, d: Disk, g: Setting)
    requires r.Booted? && r.Legal() && Informed(r, d, g) && Sound(d)
    requires Ordered(Written(d, r.End().notes, g.wall))
    ensures var h := r.End().notes; Tracks(h, Written(d, h, g.wall), d.gone)
  {
    hide Run.End, Run.Legal, Informed, Alternates;
    var h := r.End().notes;
    WritesOn(d, h, g.wall);
    OrderedPiece(d.written, Written(d, h, g.wall), 0);
    OrderedPiece(d.written, d.written, d.gone);
    assert forall i :: 0 <= i < |Kept(d)| ==> Kept(d)[i] == d.written[d.gone + i];
    BootResumes(r, d, g);
    NoCallsYet(h);
    forall a
      ensures S.Latest(h, a) == Some(In) <==> LastKind(Kept(d), a) == Some(In)
      ensures LastKind(Kept(d), a) == Some(In) ==> LastKind(d.written, a) == Some(In)
    {
      ResumedLatest(h, r.now, a);
      LastKindDrop(d.written, d.gone, a);
    }
  }

  lemma {:induction false} NoCallsYet(h: seq<Note>)
    requires forall n :: n in h ==> !n.Recorded?
    ensures Calls(h) == []
  {
    if h != [] {
      assert h[|h| - 1] in h;
      NoCallsYet(h[..|h| - 1]);
    }
  }

  /** A step that allocates no bonds, and the rotations during it. */
  lemma StepTracks(before: Run, step: Step, d: Disk, g: Setting)
    requires Run.Then(before, step).Legal() && before.Legal() && !step.action.AllocateBonds?
    requires Undisturbed(Run.Then(before, step), g.timeoutMs) && (forall t :: g.wall(t) > 0)
    requires var h := before.End().notes; Tracks(h, Written(d, h, g.wall), g.rotated(Steps(before)))
    requires g.rotated(Steps(before)) <= g.rotated(Steps(before) + 1)
             <= |Written(d, Next(before.End(), step).notes, g.wall)|
    ensures var h := Next(before.End(), step).notes; Tracks(h, Written(d, h, g.wall), g.rotated(Steps(before) + 1))
  {
    hide Ordered, WriteAll, Tracks, Enabled, Next, Undisturbed;
    var r := Run.Then(before, step);
    var n, h := |before.End().notes|, r.End().notes;
    NextAdds(before.End(), step);
    RunCalm(r, g.timeoutMs);
    assert h[..n] == before.End().notes && h[..|h|] == h;
    forall i | n <= i < |h|
      ensures !h[i].Resumed? && !h[i].Wiped?
    {
      assert h[i] in h;
    }
    TrackStep(d, h, n, |h|, g.wall, g.rotated(Steps(before)));
    TrackDrop(h, Written(d, h, g.wall), g.rotated(Steps(before)), g.rotated(Steps(before) + 1));
  }

  /** A reallocation resumes peers whose last line in the file is an IN. */
  lemma AllocationResumes(s: State, st: Step, written: seq<Line>, gone: nat)
    requires Enabled(s, st.action) && st.action.AllocateBonds?
    requires gone <= |written| && Complete(written) && Ordered(written) && st.action.log == written[gone..]
    ensures s.notes <= Next(s, st).notes
    ensures forall i :: |s.notes| <= i < |Next(s, st).notes| ==>
              Next(s, st).notes[i].Resumed? && LastKind(st.action.log, Next(s, st).notes[i].peer) == Some(In)
  {
    var h, log := Next(s, st).notes, st.action.log;
    OrderedPiece(written, written, gone);
    AllocationNotes(s, st.action.peers, log, st.now);
    assert forall i :: 0 <= i < |log| ==> log[i] == written[gone + i];
    forall i | |s.notes| <= i < |h|
      ensures h[i].Resumed? && LastKind(log, h[i].peer) == Some(In)
    {
      LookupIsLast(log, h[i].peer);
    }
  }

  /** A reallocation of the bonds, from the file as the rotations have left it. */
  lemma AllocationTracks(before: Run, step: Step, d: Disk, g: Setting)
    requires before.Legal() && Enabled(before.End(), step.action) && step.action.AllocateBonds?
    requires var w := Written(d, before.End().notes, g.wall);
             Tracks(before.End().notes, w, g.rotated(Steps(before))) && Ordered(w)
             && g.rotated(Steps(before)) <= g.rotated(Steps(before) + 1) <= |w|
             && step.action.log == w[g.rotated(Steps(before) + 1)..]
    ensures var h := Next(before.End(), step).notes;
            Tracks(h, Written(d, h, g.wall), g.rotated(Steps(before) + 1))
            && Calls(h) == Calls(before.End().notes)
  {
    hide Ordered, WriteAll, Enabled, Next, LastKind;
    var n, h := |before.End().notes|, Next(before.End(), step).notes;
    var w, gone, log := Written(d, before.End().notes, g.wall), g.rotated(Steps(before) + 1), step.action.log;
    TrackDrop(before.End().notes, w, g.rotated(Steps(before)), gone);
    AllocationResumes(before.End(), step, w, gone);
    assert h[..n] == before.End().notes && h[..|h|] == h;
    TrackResumes(d, h, n, |h|, g.wall, gone);
  }

  lemma {:induction false} RunTracks(r: Run, d: Disk, g: Setting)
    requires r.Legal() && Undisturbed(r, g.timeoutMs) && Informed(r, d, g) && (forall t :: g.wall(t) > 0)
    requires Sound(d) && Ordered(After(d, r, g.wall).written)
    ensures var h := r.End().notes; Tracks(h, Written(d, h, g.wall), g.rotated(Steps(r)))
  {
    hide Tracks, Logged, WriteAll, Next, Enabled, Ordered;
    AfterUndisturbed(d, r, g);
    match r
    case Booted(_, _, _, _) =>
      BootTracks(r, d, g);
    case Then(before, step) =>
      StepExtends(before.End(), step);
      var n, h := |before.End().notes|, r.End().notes;
      assert h[..n] == before.End().notes;
      WrittenGrows(d, h, n, g.wall);
      AfterUndisturbed(d, before, g);
      OrderedPiece(Written(d, h[..n], g.wall), Written(d, h, g.wall), 0);
      RunTracks(before, d, g);
      if step.action.AllocateBonds? {
        AllocationTracks(before, step, d, g);
      } else {
        StepTracks(before, step, d, g);
      }
  }

  lemma StepExtends(s: State, st: Step)
    requires Enabled(s, st.action)
    ensures s.notes <= Next(s, st).notes
  {
    if st.action.AllocateBonds? {
      AllocationNotes(s, st.action.peers, st.action.log, st.now);
    } else {
      NextAdds(s, st);
    }
  }

  /** Over any number of boots, and whatever the rotations dropped, each peer's lines in the file alternate: no IN
      follows an IN and no OUT an OUT. Of everything that was ever written each OUT directly follows an IN of its
      peer, so that a peer's lines in the file begin with an OUT only where that IN was rotated away. */
  lemma {:induction false} LogAlternates(l: Life)
    requires Lived(l) && Ordered(DiskOf(l).written)
    ensures var d := DiskOf(l);
            d.gone <= |d.written| && Complete(d.written) && Answered(d.written) && Alternates(Kept(d))
  {
    match l
    case Factory(_) =>
    case Reboot(before, g, run) =>
      var d, h := AtBoot(before), run.End().notes;
      AfterUndisturbed(d, run, g);
      WritesOn(d, h, g.wall);
      OrderedPiece(d.written, Written(d, h, g.wall), 0);
      LogAlternates(before);
      RunTracks(run, d, g);
  }
}
