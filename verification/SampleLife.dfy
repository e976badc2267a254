/** Lives that the end-to-end theorems speak of: a peer comes in before a restart and leaves after it, and its IN is
    rotated away or not. */
module SampleLife {
  import opened Common
  import opened EventLines
  import opened Presence
  import opened SampleRuns
  import opened Session
  import opened Lifetimes
  import opened Numbering
  import L = LatestEvents
  import D = Debounce
  import W = Workers
  import V = WorkersReboot
  import E = EndToEnd

  /** A wall clock that stands still during a run, so many lines rotated away from the first step on, and the
      default timeout. */
  function Standing(ts: int, gone: nat): Setting {
    Setting((t: int) => ts, (n: nat) => if n == 0 then 0 else gone, TIMEOUT_DEFAULT_S * 1000)
  }

  function CameIn(a: Addr): Line {
    LineOf(D.Call(a, In, 1_000_000), 1000, 1)
  }

  function WentOut(a: Addr): Line {
    LineOf(D.Call(a, Out, 61_000_000), 2000, 1)
  }

  /** A restart with the peer's IN in the log, and a minute without a sighting. */
  function Departure(a: Addr): Run {
    Then(Booted(1, None, [a], [CameIn(a)]), QuietTick(61_000_000))
  }

  function FirstBoot(a: Addr): Life {
    Lifetimes.Reboot(Factory(V.BLANK), Standing(1000, 0), Arrival(a, 1_000_000))
  }

  function TwoBoots(a: Addr, gone: nat): Life {
    Lifetimes.Reboot(FirstBoot(a), Standing(2000, gone), Departure(a))
  }

  lemma CallsOf(h: seq<Note>, n: Note)
    requires n.Recorded? && forall m :: m in h ==> !m.Recorded?
    ensures Calls(h + [n]) == [D.Call(n.peer, n.kind, n.at)]
  {
    NoCallsYet(h);
    assert (h + [n])[..|h|] == h;
    assert [] + [D.Call(n.peer, n.kind, n.at)] == [D.Call(n.peer, n.kind, n.at)];
  }

  /** One call since the boot is never dropped. */
  lemma OneCall(d: Disk, c: D.Call, wall: int -> int)
    ensures Logged(d, [c], 1, wall) == Record(d, c, wall(c.at))
  {
    D.NeverDroppedAfterWindow([c], 0);
  }

  lemma ArrivalCalls(a: Addr)
    ensures Arrival(a, 1_000_000).Legal() && Undisturbed(Arrival(a, 1_000_000), TIMEOUT_DEFAULT_S * 1000)
    ensures Calls(Arrival(a, 1_000_000).End().notes) == [D.Call(a, In, 1_000_000)]
  {
    var r := Arrival(a, 1_000_000);
    ArrivalEnds(a, 1_000_000);
    assert r.before.Legal() && Undisturbed(r.before, TIMEOUT_DEFAULT_S * 1000);
    CallsOf([Refreshed(a, 1_000_000)], Presence.Recorded(a, In, 1_000_000));
    assert [Refreshed(a, 1_000_000)] + [Presence.Recorded(a, In, 1_000_000)] == r.End().notes;
  }

  lemma FirstRecord(a: Addr)
    ensures var d := AtBoot(Factory(V.BLANK)); d.written == [] && d.gone == 0
    ensures var e := Record(AtBoot(Factory(V.BLANK)), D.Call(a, In, 1_000_000), 1000);
            e.written == [CameIn(a)] && W.Find(e.workers.ram, a) == 1
  {
    assert W.Reboot(V.BLANK) == V.BLANK;
    assert [] + [CameIn(a)] == [CameIn(a)];
  }

  lemma FirstWrites(a: Addr)
    ensures Arrival(a, 1_000_000).Legal()
    ensures var e := After(AtBoot(Factory(V.BLANK)), Arrival(a, 1_000_000), Standing(1000, 0).wall);
            e.written == [CameIn(a)] && W.Find(e.workers.ram, a) == 1
  {
    hide Record, W.Find, Run.End, Run.Legal;
    ArrivalCalls(a);
    FirstRecord(a);
    OneCall(AtBoot(Factory(V.BLANK)), D.Call(a, In, 1_000_000), Standing(1000, 0).wall);
  }

  lemma FirstBootLived(a: Addr)
    ensures Lived(FirstBoot(a)) && DiskOf(FirstBoot(a)).written == [CameIn(a)] && DiskOf(FirstBoot(a)).gone == 0
    ensures W.Find(DiskOf(FirstBoot(a)).workers.ram, a) == 1
  {
    hide After, Undisturbed;
    var r, d, g := Arrival(a, 1_000_000), AtBoot(Factory(V.BLANK)), Standing(1000, 0);
    ArrivalCalls(a);
    FirstWrites(a);
    FirstRecord(a);
    assert r.before.Legal() && Informed(r.before, d, g) && Informed(r, d, g);
  }

  lemma DepartureEnds(a: Addr)
    ensures Departure(a).Legal() && Undisturbed(Departure(a), TIMEOUT_DEFAULT_S * 1000)
    ensures Departure(a).before.Legal() && Calls(Departure(a).before.End().notes) == []
    ensures Calls(Departure(a).End().notes) == [D.Call(a, Out, 61_000_000)]
  {
    var log := [CameIn(a)];
    assert LastKind(log, a) == Some(In);
    LookupIsLast(log, a);
    BootsOnOne(a, log, 1);
    assert BondOf(a, log) == Bond(a, true);
    QuietTickOf(a, 1, [Presence.Resumed(a, 1)], 61_000_000);
    var r := Departure(a);
    assert r.before.Legal() && r.before.End() == Single(SeenAt(a, 1), [Presence.Resumed(a, 1)]);
    assert Undisturbed(r.before, TIMEOUT_DEFAULT_S * 1000);
    var h := [Presence.Resumed(a, 1), Left(a, 61_000_000, TIMEOUT_DEFAULT_S * 1000)];
    NoCallsYet([Presence.Resumed(a, 1)]);
    CallsOf(h, Presence.Recorded(a, Out, 61_000_000));
    assert h + [Presence.Recorded(a, Out, 61_000_000)]
        == [Presence.Resumed(a, 1)] + [Left(a, 61_000_000, TIMEOUT_DEFAULT_S * 1000),
                                       Presence.Recorded(a, Out, 61_000_000)];
  }

  lemma SecondBoot(a: Addr)
    ensures Lived(FirstBoot(a)) && AtBoot(FirstBoot(a)).written == [CameIn(a)] && AtBoot(FirstBoot(a)).gone == 0
    ensures W.Find(AtBoot(FirstBoot(a)).workers.ram, a) == 1
  {
    var one := FirstBoot(a);
    FirstBootLived(a);
    assert Ordered(DiskOf(one).written);
    OnePeer(a);
    LinesNumbered(one);
    RebootKeepsRegistry(Seed(one), DiskOf(one));
    var boot := AtBoot(one);
    assert boot.written[0] == CameIn(a) && boot.written[0].workerId == Some(W.Find(boot.workers.ram, a));
  }

  lemma OnePeer(a: Addr)
    ensures Peers([CameIn(a)]) == {a} && Peers([CameIn(a), WentOut(a)]) == {a}
  {
    assert [CameIn(a)][..0] == [] && [CameIn(a), WentOut(a)][..1] == [CameIn(a)];
  }

  lemma RecordsDeparture(a: Addr, d: Disk)
    requires d.written == [CameIn(a)] && W.Find(d.workers.ram, a) == 1
    ensures var e := Record(d, D.Call(a, Out, 61_000_000), 2000);
            e.written == [CameIn(a), WentOut(a)] && W.Find(e.workers.ram, a) == 1
  {
  }

  lemma SecondWrites(a: Addr, gone: nat)
    ensures Lived(FirstBoot(a)) && Departure(a).Legal() && Departure(a).before.Legal()
    ensures var boot, g := AtBoot(FirstBoot(a)), Standing(2000, gone);
            After(boot, Departure(a), g.wall).written == [CameIn(a), WentOut(a)]
            && W.Find(After(boot, Departure(a), g.wall).workers.ram, a) == 1
            && boot.written == [CameIn(a)] && boot.gone == 0
  {
    SecondBoot(a);
    DepartureEnds(a);
    var boot, c, g := AtBoot(FirstBoot(a)), D.Call(a, Out, 61_000_000), Standing(2000, gone);
    OneCall(boot, c, g.wall);
    RecordsDeparture(a, boot);
    assert After(boot, Departure(a), g.wall) == Record(boot, c, 2000);
  }

  lemma TwoBootsInformed(a: Addr, gone: nat)
    requires gone <= 2
    ensures Lived(TwoBoots(a, gone))
  {
    SecondWrites(a, gone);
    DepartureEnds(a);
    var r, boot, g := Departure(a), AtBoot(FirstBoot(a)), Standing(2000, gone);
    assert Kept(boot) == [CameIn(a)];
    assert Steps(r.before) == 0 && Steps(r) == 1;
    assert Informed(r.before, boot, g);
    assert Informed(r, boot, g);
  }

  lemma TwoBootsDisk(a: Addr, gone: nat)
    requires gone <= 1 && Lived(TwoBoots(a, gone))
    ensures var d := DiskOf(TwoBoots(a, gone));
            d.written == [CameIn(a), WentOut(a)] && d.gone == gone && W.Find(d.workers.ram, a) == 1
  {
    SecondWrites(a, gone);
    var boot, g, r := AtBoot(FirstBoot(a)), Standing(2000, gone), Departure(a);
    assert Steps(r) == 1;
    assert DiskOf(TwoBoots(a, gone)) == Leaves(boot, r, g);
  }

  lemma SeedIsBlank(a: Addr, gone: nat)
    ensures Seed(TwoBoots(a, gone)) == V.BLANK && RoomFor(V.BLANK, 1)
  {
    assert Seed(FirstBoot(a)) == V.BLANK;
  }

  /** Everything that the theorems ask of a life holds of these two; both write an IN and an OUT under the worker's
      id. Without a rotation one departure is reported as a closed segment; if the IN is rotated away, the file
      begins with the OUT, which is an orphan. */
  lemma TwoBootsLived(a: Addr, gone: nat)
    requires gone <= 1
    ensures var l := TwoBoots(a, gone);
            Lived(l) && DiskOf(l).written == [CameIn(a), WentOut(a)] && Ordered(DiskOf(l).written)
            && RoomFor(Seed(l), |Peers(DiskOf(l).written)|) && W.Find(DiskOf(l).workers.ram, a) == 1
            && Kept(DiskOf(l)) == (if gone == 0 then [CameIn(a), WentOut(a)] else [WentOut(a)])
            && E.Outs(Kept(DiskOf(l)), a) == 1 && E.Orphans(Kept(DiskOf(l)), a) == gone
  {
    TwoBootsInformed(a, gone);
    TwoBootsDisk(a, gone);
    SeedIsBlank(a, gone);
    OnePeer(a);
    WrittenOrdered(a);
    FileOfTwo(a, DiskOf(TwoBoots(a, gone)));
  }

  lemma WrittenOrdered(a: Addr)
    ensures Ordered([CameIn(a), WentOut(a)])
  {
    assert L.Later(WentOut(a), CameIn(a));
  }

  lemma FileOfTwo(a: Addr, d: Disk)
    requires d.written == [CameIn(a), WentOut(a)] && d.gone <= 1
    ensures Kept(d) == (if d.gone == 0 then [CameIn(a), WentOut(a)] else [WentOut(a)])
    ensures E.Outs(Kept(d), a) == 1 && E.Orphans(Kept(d), a) == d.gone
  {
    OneOut(a);
    assert [CameIn(a), WentOut(a)][0..] == [CameIn(a), WentOut(a)];
    assert [CameIn(a), WentOut(a)][1..] == [WentOut(a)];
  }

  lemma OneOut(a: Addr)
    ensures E.Outs([CameIn(a), WentOut(a)], a) == 1 && E.Orphans([CameIn(a), WentOut(a)], a) == 0
    ensures E.Outs([WentOut(a)], a) == 1 && E.Orphans([WentOut(a)], a) == 1
  {
    var one := [CameIn(a)];
    assert one[..0] == [] && E.Outs(one, a) == E.Outs(one[..0], a) == 0;
    assert [CameIn(a), WentOut(a)][..1] == one;
    assert [WentOut(a)][..0] == [] && E.Outs([WentOut(a)], a) == 1 + E.Outs([WentOut(a)][..0], a);
    assert LastKind(one, a) == Some(In) && !E.LeadsOut(one, a);
  }
}
