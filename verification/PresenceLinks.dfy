/** A slot's `connected` flag against the links that are really up. */
module PresenceLinks {
  import opened Common
  import opened EventLines
  import opened Presence
  import opened SampleRuns
  import S = PresenceSafety
  import R = PresenceRadio

  /** A link held after a probe, known by its slot's callback and its handle, or one the peer opened itself. */
  datatype Link = ProbeLink(slot: nat, handle: int) | HidLink(peer: Addr)

  /** The links that are up after a run. */
  function Links(r: Run): set<Link> {
    match r
    case Booted(_, _, _, _) => {}
    case Then(before, step) =>
      match step.action
      case ProbeOk(i, h, _) => Links(before) + {ProbeLink(i, h)}
      case ProbeLinkDown(i, h) => Links(before) - {ProbeLink(i, h)}
      case HidUp(a, _) => Links(before) + {HidLink(a)}
      case HidDown(a) => Links(before) - {HidLink(a)}
      case _ => Links(before)
  }

  /** A connected slot is used, and a link to its peer is up. */
  predicate Backed(x: Slot, i: nat, links: set<Link>) {
    x.connected ==> x.used && (HidLink(x.addr) in links || ProbeLink(i, x.handle) in links)
  }

  ghost predicate AllBacked(s: State, links: set<Link>) {
    forall i :: 0 <= i < |s.slots| ==> Backed(s.slots[i], i, links)
  }

  /** A slot of which `connected` is not set, or whose link stays the same. */
  predicate SameLink(x: Slot, y: Slot) {
    y.connected ==> x.connected && x.used && y.used && y.addr == x.addr && y.handle == x.handle
  }

  lemma SeenLinks(s: State, a: Addr, bonded: bool, now: int, synced: bool, links: set<Link>)
    requires AllBacked(s, links)
    ensures AllBacked(Seen(s, a, bonded, now, synced), links)
  {
    var t := Seen(s, a, bonded, now, synced);
    forall i | 0 <= i < |s.slots|
      ensures Backed(t.slots[i], i, links)
    {
      assert Backed(s.slots[i], i, links);
      assert SameLink(s.slots[i], t.slots[i]);
    }
  }

  lemma TickSlotLinks(s: State, i: nat, now: int, synced: bool, pairing: bool, reply: ProbeReply)
    requires i < |s.slots|
    ensures SameLink(s.slots[i], TickSlot(s, i, now, synced, pairing, reply).slots[i]) || !s.slots[i].used
    ensures !s.slots[i].used ==> TickSlot(s, i, now, synced, pairing, reply).slots[i] == s.slots[i]
  {
    var c := CatchUp(RefreshLinked(s, i, now), i, now, synced);
    S.ProbeStartFrame(c, i, now, pairing, reply);
  }

  lemma TickLinks(s: State, st: Step, links: set<Link>)
    requires AllBacked(s, links) && st.action.Ticks? && Enabled(s, st.action)
    ensures AllBacked(Next(s, st), links)
  {
    var pairing, replies, t := st.action.pairing, st.action.replies, Next(s, st);
    forall i | 0 <= i < |s.slots|
      ensures Backed(t.slots[i], i, links)
    {
      S.TickFrame(s, |s.slots|, i, st.now, st.synced, pairing, replies);
      S.TickFrame(s, i, i, st.now, st.synced, pairing, replies);
      TickSlotLinks(TickUpTo(s, i, st.now, st.synced, pairing, replies), i, st.now, st.synced, pairing, replies[i]);
      assert Backed(s.slots[i], i, links);
    }
  }

  lemma {:induction false} PreallocateLinks(s: State, bonds: seq<Bond>, now: int, links: set<Link>)
    requires AllBacked(s, links)
    ensures AllBacked(Preallocate(s, bonds, now), links)
    decreases |bonds|
  {
    if bonds != [] {
      var f := FirstFree(s.slots);
      if IndexOf(s.slots, bonds[0].peer) < |s.slots| {
        PreallocateLinks(s, bonds[1..], now, links);
      } else if f < |s.slots| {
        PreallocateLinks(AllocateAt(s, f, bonds[0], now), bonds[1..], now, links);
      }
    }
  }

  lemma HidLinks(s: State, a: Addr, bonded: bool, now: int, synced: bool, links: set<Link>)
    requires AllBacked(s, links) && S.Distinct(s.slots)
    ensures AllBacked(HidConnected(s, a, bonded, now, synced), links + {HidLink(a)})
    ensures AllBacked(HidDisconnected(s, a, now), links - {HidLink(a)})
  {
    SeenLinks(s, a, bonded, now, synced, links);
    var t, u, d := Seen(s, a, bonded, now, synced), HidConnected(s, a, bonded, now, synced), HidDisconnected(s, a, now);
    forall i | 0 <= i < |s.slots|
      ensures Backed(u.slots[i], i, links + {HidLink(a)}) && Backed(d.slots[i], i, links - {HidLink(a)})
    {
      assert Backed(t.slots[i], i, links) && Backed(s.slots[i], i, links);
      if s.slots[i].used && s.slots[i].addr == a { assert Holds(s.slots[i], a); }
    }
  }

  lemma ProbeLinks(s: State, st: Step, links: set<Link>)
    requires AllBacked(s, links) && R.ProbesOwn(s) && R.ConnectOwned(s) && Enabled(s, st.action)
    ensures st.action.ProbeOk? ==>
              AllBacked(Next(s, st), links + {ProbeLink(st.action.slot, st.action.handle)})
    ensures st.action.ProbeLinkDown? ==>
              AllBacked(Next(s, st), links - {ProbeLink(st.action.slot, st.action.handle)})
  {
    match st.action
    case ProbeOk(i, h, bonded) =>
      var more := links + {ProbeLink(i, h)};
      var t := Put(s.(radio := Idle), i, s.slots[i].(handle := h, connected := true, probing := false));
      assert R.Owns(s.slots[i], i, s.radio);
      forall j | 0 <= j < |t.slots|
        ensures Backed(t.slots[j], j, more)
      {
        assert Backed(s.slots[j], j, links);
      }
      SeenLinks(t, s.slots[i].addr, bonded, st.now, st.synced, more);
      assert Next(s, st).slots == Seen(t, s.slots[i].addr, bonded, st.now, st.synced).slots;
    case ProbeLinkDown(i, h) =>
      forall j | 0 <= j < |s.slots|
        ensures Backed(Next(s, st).slots[j], j, links - {ProbeLink(i, h)})
      {
        assert Backed(s.slots[j], j, links);
      }
    case _ =>
  }

  lemma OtherLinks(s: State, st: Step, links: set<Link>)
    requires AllBacked(s, links) && Enabled(s, st.action)
    requires st.action.ProbeFail? || st.action.WipeEvents? || st.action.ChangeTimeout? || st.action.RevokeBond?
             || st.action.RestartScan?
    ensures AllBacked(Next(s, st), links)
  {
    forall j | 0 <= j < |s.slots|
      ensures Backed(Next(s, st).slots[j], j, links)
    {
      assert Backed(s.slots[j], j, links);
    }
  }

  lemma {:induction false} RunLinks(r: Run)
    requires r.Legal() && R.RevokesClear(r)
    ensures AllBacked(r.End(), Links(r))
  {
    match r
    case Booted(now, stored, peers, log) =>
      var blank := State(seq(SLOTS, i => EMPTY_SLOT), TIMEOUT_DEFAULT_S * 1000, Idle, false, []);
      PreallocateLinks(LoadTimeout(blank, stored), BondsOf(peers, log), now, {});
    case Then(before, step) =>
      RunLinks(before);
      R.RunKeeps(before);
      S.RunKeeps(before);
      var s, links := before.End(), Links(before);
      match step.action
      case Sighting(a, bonded) => SeenLinks(s, a, bonded, step.now, step.synced, links);
      case Ticks(_, _) => TickLinks(s, step, links);
      case ProbeOk(_, _, _) => ProbeLinks(s, step, links);
      case ProbeLinkDown(_, _) => ProbeLinks(s, step, links);
      case HidUp(a, bonded) => HidLinks(s, a, bonded, step.now, step.synced, links);
      case HidDown(a) => HidLinks(s, a, false, step.now, step.synced, links);
      case AllocateBonds(peers, log) => PreallocateLinks(s, BondsOf(peers, log), step.now, links);
      case _ => OtherLinks(s, step, links);
  }

  /** As long as no bond is revoked while it is being probed, a slot marked connected has a link to its peer. */
  lemma ConnectedHasLink(r: Run, i: nat)
    requires r.Legal() && R.RevokesClear(r) && i < |r.End().slots| && r.End().slots[i].connected
    ensures var x := r.End().slots[i];
            x.used && (HidLink(x.addr) in Links(r) || ProbeLink(i, x.handle) in Links(r))
  {
    RunLinks(r);
    assert Backed(r.End().slots[i], i, Links(r));
  }

  // ---------- a revoke in the middle of a probe ----------

  /** A slot marked connected that no callback of a probe can reach. */
  predicate Linkless(x: Slot, i: nat, r: Radio) {
    x.used && x.connected && x.present && x.handle == NO_HANDLE && r != Connecting(i)
  }

  /** Whatever the links are, a used slot marked connected is kept present by every tick, and not probed. */
  lemma ConnectedStaysPresent(s: State, st: Step, i: nat)
    requires Enabled(s, st.action) && st.action.Ticks? && i < |s.slots| && s.slots[i].used && s.slots[i].connected
    ensures var y := Next(s, st).slots[i];
            y.used && y.addr == s.slots[i].addr && y.connected && y.present && y.lastSeen == st.now
            && y.handle == s.slots[i].handle
    ensures s.radio != Connecting(i) ==> Next(s, st).radio != Connecting(i)
  {
    var pairing, replies := st.action.pairing, st.action.replies;
    S.TickFrame(s, |s.slots|, i, st.now, st.synced, pairing, replies);
    S.TickFrame(s, i, i, st.now, st.synced, pairing, replies);
    if s.radio != Connecting(i) { TickRadio(s, |s.slots|, i, st.now, st.synced, pairing, replies); }
  }

  lemma TickSlotRadio(s: State, n: nat, i: nat, now: int, synced: bool, pairing: bool, reply: ProbeReply)
    requires n < |s.slots| && i < |s.slots| && s.slots[i].used && s.slots[i].connected && s.radio != Connecting(i)
    ensures var t := TickSlot(s, n, now, synced, pairing, reply);
            |t.slots| == |s.slots| && t.radio != Connecting(i) && t.slots[i].used && t.slots[i].connected
  {
    var c := CatchUp(RefreshLinked(s, n, now), n, now, synced);
    S.ProbeStartFrame(c, n, now, pairing, reply);
  }

  lemma {:induction false} TickRadio(s: State, n: nat, i: nat, now: int, synced: bool, pairing: bool,
                                     replies: seq<ProbeReply>)
    requires n <= |s.slots| == |replies| && i < |s.slots| && s.slots[i].used && s.slots[i].connected
    requires s.radio != Connecting(i)
    ensures var t := TickUpTo(s, n, now, synced, pairing, replies);
            |t.slots| == |s.slots| && t.radio != Connecting(i) && t.slots[i].used && t.slots[i].connected
  {
    hide TickSlot;
    if n > 0 {
      TickRadio(s, n - 1, i, now, synced, pairing, replies);
      TickSlotRadio(TickUpTo(s, n - 1, now, synced, pairing, replies), n - 1, i, now, synced, pairing, replies[n - 1]);
    }
  }

  lemma SeenLinkless(s: State, a: Addr, bonded: bool, now: int, synced: bool, i: nat)
    requires i < |s.slots| && Linkless(s.slots[i], i, s.radio)
    ensures var t := Seen(s, a, bonded, now, synced);
            Linkless(t.slots[i], i, t.radio) && t.slots[i].addr == s.slots[i].addr
    ensures var t := HidConnected(s, a, bonded, now, synced);
            Linkless(t.slots[i], i, t.radio) && t.slots[i].addr == s.slots[i].addr
  {
  }

  /** Only the peer's own HID link going down, or the end of its bond, changes such a slot. */
  lemma StaysLinkless(s: State, st: Step, i: nat)
    requires Enabled(s, st.action) && i < |s.slots| && Linkless(s.slots[i], i, s.radio)
    requires st.action != HidDown(s.slots[i].addr) && st.action != RevokeBond(s.slots[i].addr)
    ensures var t := Next(s, st);
            |t.slots| == |s.slots| && Linkless(t.slots[i], i, t.radio) && t.slots[i].addr == s.slots[i].addr
  {
    match st.action
    case Sighting(a, bonded) => SeenLinkless(s, a, bonded, st.now, st.synced, i);
    case HidUp(a, bonded) => SeenLinkless(s, a, bonded, st.now, st.synced, i);
    case Ticks(_, _) => ConnectedStaysPresent(s, st, i);
    case ProbeOk(k, h, bonded) =>
      var t := Put(s.(radio := Idle), k, s.slots[k].(handle := h, connected := true, probing := false));
      SeenLinkless(t, s.slots[k].addr, bonded, st.now, st.synced, i);
    case AllocateBonds(peers, log) =>
      S.PreallocateFrame(s, BondsOf(peers, log), st.now, i);
      R.PreallocateKeeps(s, BondsOf(peers, log), st.now);
    case _ =>
  }

  /** The run `u` continues `w`, with no HID link of `a` going down and without the end of its bond. */
  ghost predicate Continues(u: Run, w: Run, a: Addr) {
    u == w
    || (u.Then? && Continues(u.before, w, a) && u.step.action != HidDown(a) && u.step.action != RevokeBond(a))
  }

  /** So its peer is never given up, however long the run goes on. */
  lemma {:induction false} NeverGivenUp(u: Run, w: Run, i: nat)
    requires u.Legal() && w.Legal() && i < |w.End().slots| && Linkless(w.End().slots[i], i, w.End().radio)
    requires Continues(u, w, w.End().slots[i].addr)
    ensures i < |u.End().slots| && Linkless(u.End().slots[i], i, u.End().radio)
    ensures u.End().slots[i].addr == w.End().slots[i].addr
  {
    if u != w {
      NeverGivenUp(u.before, w, i);
      StaysLinkless(u.before.End(), u.step, i);
    }
  }

  // ---------- every revoke in the middle of a probe can lead there ----------

  ghost predicate Follows(u: Run, w: Run) {
    u == w || (u.Then? && Follows(u.before, w))
  }

  function Candidates(n: nat): (c: set<Addr>)
    requires n <= 256
    ensures |c| == n && forall a :: a in c ==> a.b0 as int < n
  {
    if n == 0 then {} else Candidates(n - 1) + {Addr((n - 1) as Byte, 0, 0, 0, 0, 0)}
  }

  lemma {:induction false} Fresh(slots: seq<Slot>, c: set<Addr>) returns (a: Addr)
    requires |slots| < |c|
    ensures a in c && forall i :: 0 <= i < |slots| ==> slots[i].addr != a
  {
    if slots == [] {
      assert c != {};
      a :| a in c;
    } else {
      a := Fresh(slots[1..], c - {slots[0].addr});
      assert forall i :: 1 <= i < |slots| ==> slots[i] == slots[1..][i - 1];
    }
  }

  /** A peer that no slot holds and that has no link of its own. */
  lemma Newcomer(r: Run) returns (u: Run, b: Addr)
    requires r.Legal()
    ensures u.Legal() && Follows(u, r) && u.End() == r.End() && HidLink(b) !in Links(u)
    ensures IndexOf(u.End().slots, b) == |u.End().slots|
  {
    S.RunKeeps(r);
    b := Fresh(r.End().slots, Candidates(SLOTS + 1));
    u := Then(r, Step(r.Clock(), true, HidDown(b)));
    assert Follows(r, r);
  }

  lemma {:induction false} HandlesProper(r: Run, i: nat)
    requires r.Legal()
    ensures ProbeLink(i, NO_HANDLE) !in Links(r)
  {
    if r.Then? { HandlesProper(r.before, i); }
  }

  lemma {:induction false} FollowsOn(u: Run, v: Run, w: Run)
    requires Follows(u, v) && Follows(v, w)
    ensures Follows(u, w)
  {
    if u != v { FollowsOn(u.before, v, w); }
  }

  lemma Claims(s: State, b: Addr, now: int, synced: bool)
    requires IndexOf(s.slots, b) == |s.slots| && FirstFree(s.slots) < |s.slots|
    ensures var f, t := FirstFree(s.slots), Seen(s, b, true, now, synced);
            t.slots == s.slots[f := t.slots[f]] && t.radio == s.radio && Holds(t.slots[f], b) && t.slots[f].present
            && t.slots[f].connected == s.slots[f].connected && t.slots[f].handle == NO_HANDLE
  {
  }

  /** Newcomers move in until the freed slot that was marked connected is taken. */
  lemma {:induction false} MoveIn(r: Run, k: nat) returns (u: Run)
    requires r.Legal() && k < |r.End().slots| && !r.End().slots[k].used && r.End().slots[k].connected
    requires r.End().radio != Connecting(k)
    ensures u.Legal() && Follows(u, r) && k < |u.End().slots| && Linkless(u.End().slots[k], k, u.End().radio)
    ensures HidLink(u.End().slots[k].addr) !in Links(u)
    decreases k - FirstFree(r.End().slots)
  {
    var v, b := Newcomer(r);
    var s, f := v.End(), FirstFree(v.End().slots);
    u := Then(v, Step(v.Clock(), true, Sighting(b, true)));
    Claims(s, b, v.Clock(), true);
    FollowsOn(v, v, r);
    if f < k {
      assert forall j :: 0 <= j <= f ==> u.End().slots[j].used;
      var on := MoveIn(u, k);
      FollowsOn(on, u, r);
      u := on;
    }
  }

  /** A pending connect is that of a slot. */
  predicate InRange(s: State) {
    s.radio.Connecting? ==> s.radio.slot < |s.slots|
  }

  lemma TickSlotInRange(s: State, n: nat, now: int, synced: bool, pairing: bool, reply: ProbeReply)
    requires n < |s.slots| && InRange(s)
    ensures InRange(TickSlot(s, n, now, synced, pairing, reply))
  {
    var c := CatchUp(RefreshLinked(s, n, now), n, now, synced);
    S.ProbeStartFrame(c, n, now, pairing, reply);
  }

  lemma {:induction false} TickInRange(s: State, n: nat, now: int, synced: bool, pairing: bool, replies: seq<ProbeReply>)
    requires n <= |s.slots| == |replies| && InRange(s)
    ensures InRange(TickUpTo(s, n, now, synced, pairing, replies))
  {
    hide TickSlot;
    if n > 0 {
      TickInRange(s, n - 1, now, synced, pairing, replies);
      TickSlotInRange(TickUpTo(s, n - 1, now, synced, pairing, replies), n - 1, now, synced, pairing, replies[n - 1]);
    }
  }

  lemma StepInRange(s: State, st: Step)
    requires Enabled(s, st.action) && InRange(s)
    ensures InRange(Next(s, st))
  {
    hide TickUpTo, Preallocate, BondsOf, IndexOf;
    match st.action
    case Ticks(pairing, replies) => TickInRange(s, |s.slots|, st.now, st.synced, pairing, replies);
    case AllocateBonds(peers, log) => R.PreallocateKeeps(s, BondsOf(peers, log), st.now);
    case _ =>
  }

  lemma {:induction false} ConnectInRange(r: Run)
    requires r.Legal()
    ensures InRange(r.End())
  {
    match r
    case Booted(now, stored, peers, log) =>
      var blank := State(seq(SLOTS, i => EMPTY_SLOT), TIMEOUT_DEFAULT_S * 1000, Idle, false, []);
      R.PreallocateKeeps(LoadTimeout(blank, stored), BondsOf(peers, log), now);
    case Then(before, step) =>
      ConnectInRange(before);
      StepInRange(before.End(), step);
  }

  /** Every bond revoked while its probe waits for the connect can leave another peer's slot connected with no link
      to that peer, which then is never given up. */
  lemma DisturbedStrands(r: Run, a: Addr, h: int) returns (u: Run, k: nat)
    requires r.Legal() && R.Disturbs(r.End(), RevokeBond(a)) && h != NO_HANDLE
    ensures u.Legal() && Follows(u, Then(r, Step(r.Clock(), true, RevokeBond(a))))
    ensures k < |u.End().slots| && Linkless(u.End().slots[k], k, u.End().radio)
    ensures !Backed(u.End().slots[k], k, Links(u))
  {
    var s := r.End();
    ConnectInRange(r);
    k := IndexOf(s.slots, a);
    var revoked := Then(r, Step(r.Clock(), true, RevokeBond(a)));
    assert revoked.Legal() && revoked.End().slots[k] == EMPTY_SLOT && revoked.End().radio == Connecting(k);
    var linked := Then(revoked, Step(r.Clock(), true, ProbeOk(k, h, false)));
    Mismarked(revoked.End(), k, h, r.Clock());
    u := MoveIn(linked, k);
    assert Follows(revoked, revoked) && Follows(linked, revoked);
    FollowsOn(u, linked, revoked);
    HandlesProper(u, k);
  }

  /** The connect marks the freed slot. */
  lemma Mismarked(s: State, k: nat, h: int, now: int)
    requires k < |s.slots| && s.slots[k] == EMPTY_SLOT
    ensures var t := ProbeConnected(s, k, h, false, now, true);
            !t.slots[k].used && t.slots[k].connected && t.radio == Idle
  {
  }

  /** The bond of `a` is revoked while it is being probed, the connect succeeds, `b` moves into the freed slot,
      and the link goes down. */
  function Mixup(a: Addr, b: Addr): Run {
    var tick := Ticks(false, seq(SLOTS, i => ProbeReply(false, true)));
    var probed := Then(Booted(1, None, [a], []), Step(2, true, tick));
    var revoked := Then(probed, Step(3, true, RevokeBond(a)));
    var linked := Then(revoked, Step(4, true, ProbeOk(0, 7, false)));
    Then(Then(linked, Step(5, true, Sighting(b, true))), Step(6, true, ProbeLinkDown(0, 7)))
  }

  /** The state while `a` is being probed. */
  lemma Probed(a: Addr)
    ensures var r := Mixup(a, a).before.before.before.before;
            r.Legal() && r.End() == Single(Allocated(Bond(a, false), 1).(probing := true), []).(radio := Connecting(0))
  {
    BootsOnOne(a, [], 1);
    assert BondOf(a, []) == Bond(a, false);
    var x, replies := Allocated(Bond(a, false), 1), seq(SLOTS, i => ProbeReply(false, true));
    var s := Single(x, []);
    TickOfSingle(s, SLOTS, 2, true, false, replies);
    assert s.slots[0 := x.(probing := true)] == Single(x.(probing := true), []).slots;
  }

  /** After the revoke the connect marks the freed slot. */
  lemma Mislinked(a: Addr)
    ensures var r := Mixup(a, a).before.before;
            r.Legal() && r.before.Legal() && r.before.before.Legal() && R.Disturbs(r.before.before.End(), RevokeBond(a))
            && r.End() == Single(EMPTY_SLOT.(handle := 7, connected := true), [Refreshed(ZERO_ADDR, 4)])
                            .(radio := Idle, armed := true)
  {
    Probed(a);
    var r := Mixup(a, a).before.before;
    var s := r.before.before.End();
    assert Holds(s.slots[0], a) && IndexOf(s.slots, a) == 0;
    var t := Single(EMPTY_SLOT, []).(radio := Connecting(0));
    assert Revoke(s, a).slots == t.slots;
    assert r.before.End() == t;
    var u := Put(t.(radio := Idle), 0, EMPTY_SLOT.(handle := 7, connected := true));
    assert u.slots == Single(EMPTY_SLOT.(handle := 7, connected := true), []).slots;
    assert IndexOf(u.slots, ZERO_ADDR) == SLOTS;
    assert [] + [Refreshed(ZERO_ADDR, 4)] == [Refreshed(ZERO_ADDR, 4)];
  }

  /** The other peer's slot is left connected although no link is up at all. */
  lemma ConnectedWithoutLink(a: Addr, b: Addr)
    ensures var r := Mixup(a, b);
            r.Legal() && !R.RevokesClear(r) && Links(r) == {}
            && Holds(r.End().slots[0], b) && r.End().slots[0].connected
  {
    Mislinked(a);
    var r := Mixup(a, b);
    assert r.before.before == Mixup(a, a).before.before;
    var s := r.before.before.End();
    assert IndexOf(s.slots, b) == SLOTS && FirstFree(s.slots) == 0;
    var t := Seen(s, b, true, 5, true);
    assert t.slots[0].connected && t.slots[0].handle == NO_HANDLE && Holds(t.slots[0], b);
    assert r.before.Legal() && r.before.End() == t;
    assert r.Legal() && r.End() == t;
    var revoked := r.before.before.before;
    assert revoked.Legal() && !R.RevokesClear(revoked);
    assert !R.RevokesClear(r.before.before) && !R.RevokesClear(r.before);
    assert Links(revoked.before.before) == {} && Links(revoked) == {};
    assert Links(r.before.before) == {ProbeLink(0, 7)} && Links(r.before) == {ProbeLink(0, 7)};
  }
}
