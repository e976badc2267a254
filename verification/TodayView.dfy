/** Today's summary of components/http_app/dd_http_attendance.c: in-time and segments per worker. */
module TodayView {
  import opened Common
  import opened EventLines
  import P = Pairing
  import W = PairingPerWorker

  const MAX_WORKERS := 16
  const DAY_S := 86400

  /** `today_worker_t`. */
  datatype Today = Today(worker: nat, peer: Option<Addr>, inTs: int, inSrc: string, total: int, segments: nat, currentlyIn: bool)

  /** `(int)` of a 64-bit difference. */
  function ToInt32(d: int): int {
    (d + 0x8000_0000) % 0x1_0000_0000 - 0x8000_0000
  }

  /** The seconds that an interval adds: none unless its 32-bit length lies strictly within a day. */
  function Credit(fromTs: int, toTs: int): (c: int)
    ensures 0 <= c < DAY_S
  {
    var d := ToInt32(toTs - fromTs);
    if 0 < d < DAY_S then d else 0
  }

  predicate Counts(l: Line, cutoff: int) {
    l.kind.Some? && l.ts.Some? && l.ts.value >= cutoff
  }

  predicate Belongs(e: Today, worker: nat, peer: Option<Addr>) {
    if worker != 0 then e.worker == worker else peer.Some? && e.peer == peer
  }

  function Find(list: seq<Today>, worker: nat, peer: Option<Addr>, i: nat := 0): (k: nat)
    requires i <= |list|
    ensures i <= k <= |list|
    ensures k < |list| ==> Belongs(list[k], worker, peer)
    ensures forall j :: i <= j < k ==> !Belongs(list[j], worker, peer)
    decreases |list| - i
  {
    if i == |list| || Belongs(list[i], worker, peer) then i else Find(list, worker, peer, i + 1)
  }

  function Fresh(l: Line): Today {
    Today(WorkerId(l), l.peer, 0, "", 0, 0, false)
  }

  /** An entry after one of its events. */
  function Updated(e: Today, l: Line): Today
    requires l.kind.Some?
  {
    if l.kind.value.In? then
      e.(inTs := Ts(l), currentlyIn := true, inSrc := if l.src.Some? then P.Clip(l.src.value) else e.inSrc)
    else if e.inTs > 0 then
      e.(total := e.total + Credit(e.inTs, Ts(l)), segments := e.segments + 1, inTs := 0, currentlyIn := false)
    else e
  }

  /** `today_iter_cb`. */
  function OnLine(list: seq<Today>, l: Line, cutoff: int): seq<Today> {
    if !Counts(l, cutoff) then list
    else
      var k := Find(list, WorkerId(l), l.peer);
      if k < |list| then list[k := Updated(list[k], l)]
      else if |list| >= MAX_WORKERS then list
      else list + [Updated(Fresh(l), l)]
  }

  function Fold(lines: seq<Line>, n: nat, cutoff: int): seq<Today>
    requires n <= |lines|
  {
    if n == 0 then [] else OnLine(Fold(lines, n - 1, cutoff), lines[n - 1], cutoff)
  }

  /** The still-open interval is added up to `now`. */
  function Shown(e: Today, now: int): Today {
    if e.inTs > 0 then e.(total := e.total + Credit(e.inTs, now)) else e
  }

  // ---------- the fold in place ----------

  class TodayContext {
    const list: array<Today>
    var count: nat

    ghost predicate Valid()
      reads this
    {
      list.Length == MAX_WORKERS && count <= MAX_WORKERS
    }

    ghost function Entries(): seq<Today>
      requires Valid()
      reads this, list
    {
      list[..count]
    }

    constructor ()
      ensures Valid() && fresh(list) && Entries() == []
    {
      list := new Today[MAX_WORKERS](_ => Today(0, None, 0, "", 0, 0, false));
      count := 0;
    }

    /** `today_get_or_create`; `MAX_WORKERS` stands for NULL. */
    method GetOrCreate(l: Line) returns (k: nat)
      requires Valid()
      modifies this, list
      ensures Valid()
      ensures var found := Find(old(Entries()), WorkerId(l), l.peer);
              if found < old(count) then k == found && Entries() == old(Entries())
              else if old(count) == MAX_WORKERS then k == MAX_WORKERS && Entries() == old(Entries())
              else k == old(count) && Entries() == old(Entries()) + [Fresh(l)]
    {
      for i := 0 to count
        invariant forall j :: 0 <= j < i ==> !Belongs(list[j], WorkerId(l), l.peer)
        invariant count == old(count) && list[..] == old(list[..])
      {
        if WorkerId(l) != 0 && list[i].worker == WorkerId(l) { return i; }
        if WorkerId(l) == 0 && l.peer.Some? && list[i].peer.Some? && list[i].peer.value == l.peer.value { return i; }
      }
      if count >= MAX_WORKERS { return MAX_WORKERS; }
      list[count] := Fresh(l);
      count := count + 1;
      return count - 1;
    }

    /** `today_iter_cb`. */
    method Iterate(l: Line, cutoff: int)
      requires Valid()
      modifies this, list
      ensures Valid() && Entries() == OnLine(old(Entries()), l, cutoff)
    {
      if l.kind.None? || l.ts.None? { return; }
      if l.ts.value < cutoff { return; }
      var k := GetOrCreate(l);
      if k == MAX_WORKERS { return; }
      Update(k, l);
    }

    /** An event of the worker in slot `k`. */
    method Update(k: nat, l: Line)
      requires Valid() && k < count && l.kind.Some? && l.ts.Some?
      modifies list
      ensures Valid() && Entries() == old(Entries())[k := Updated(old(Entries()[k]), l)]
    {
      if l.kind.value.In? {
        list[k] := list[k].(inTs := l.ts.value);
        list[k] := list[k].(currentlyIn := true);
        if l.src.Some? { list[k] := list[k].(inSrc := P.Clip(l.src.value)); }
      } else if list[k].inTs > 0 {
        var dur := ToInt32(l.ts.value - list[k].inTs);
        if dur > 0 && dur < DAY_S { list[k] := list[k].(total := list[k].total + dur); }
        list[k] := list[k].(segments := list[k].segments + 1);
        list[k] := list[k].(inTs := 0);
        list[k] := list[k].(currentlyIn := false);
      }
    }
  }

  /** `today_get` without its transport: one pass, then the open intervals are added. */
  method TodaySummary(lines: seq<Line>, cutoff: int, now: int) returns (entries: seq<Today>)
    ensures var folded := Fold(lines, |lines|, cutoff);
            |entries| == |folded| && forall i :: 0 <= i < |entries| ==> entries[i] == Shown(folded[i], now)
  {
    var ctx := new TodayContext();
    for i := 0 to |lines|
      invariant ctx.Valid() && fresh(ctx) && fresh(ctx.list)
      invariant ctx.Entries() == Fold(lines, i, cutoff)
    {
      ctx.Iterate(lines[i], cutoff);
    }
    ghost var folded := ctx.Entries();
    for i := 0 to ctx.count
      invariant ctx.Valid() && ctx.count == |folded|
      invariant forall j :: 0 <= j < |folded| ==> ctx.list[j] == if j < i then Shown(folded[j], now) else folded[j]
    {
      if ctx.list[i].inTs > 0 {
        var dur := ToInt32(now - ctx.list[i].inTs);
        if dur > 0 && dur < DAY_S { ctx.list[i] := ctx.list[i].(total := ctx.list[i].total + dur); }
      }
    }
    entries := ctx.list[..ctx.count];
  }

  // ---------- each entry is its worker's own ----------

  /** The summary of one worker's events, without any list; `None` before its first event. */
  function Own(lines: seq<Line>, n: nat, worker: nat, cutoff: int): Option<Today>
    requires n <= |lines|
  {
    if n == 0 then None
    else
      var own := Own(lines, n - 1, worker, cutoff);
      var l := lines[n - 1];
      if !Counts(l, cutoff) || WorkerId(l) != worker then own
      else Some(Updated(if own.Some? then own.value else Fresh(l), l))
  }

  /** The workers of the first `n` lines in the order of their first event. */
  function Roster(lines: seq<Line>, n: nat, cutoff: int): seq<nat>
    requires n <= |lines|
  {
    if n == 0 then []
    else
      var r := Roster(lines, n - 1, cutoff);
      var l := lines[n - 1];
      if !Counts(l, cutoff) || WorkerId(l) in r then r else r + [WorkerId(l)]
  }

  /** Every line that counts names a worker. */
  ghost predicate Named(lines: seq<Line>, cutoff: int) {
    forall i :: 0 <= i < |lines| && Counts(lines[i], cutoff) ==> WorkerId(lines[i]) != 0
  }

  /** `r` lists distinct workers, exactly those that have a summary. */
  ghost predicate Listed(r: seq<nat>, lines: seq<Line>, n: nat, cutoff: int)
    requires n <= |lines|
  {
    && (forall i :: 0 <= i < |r| ==> r[i] != 0)
    && (forall i, j :: 0 <= i < j < |r| ==> r[i] != r[j])
    && (forall w: nat :: Own(lines, n, w, cutoff).Some? <==> w in r)
    && (forall w: nat :: Own(lines, n, w, cutoff).Some? ==> Own(lines, n, w, cutoff).value.worker == w)
  }

  lemma {:induction false} RosterOk(lines: seq<Line>, n: nat, cutoff: int)
    requires n <= |lines| && Named(lines, cutoff)
    ensures Listed(Roster(lines, n, cutoff), lines, n, cutoff)
  {
    if n > 0 {
      RosterOk(lines, n - 1, cutoff);
      var r, q, l := Roster(lines, n, cutoff), Roster(lines, n - 1, cutoff), lines[n - 1];
      forall w: nat
        ensures Own(lines, n, w, cutoff).Some? <==> w in r
      {
        assert Own(lines, n - 1, w, cutoff).Some? <==> w in q;
        assert w in q ==> w in r;
        assert w in r ==> w in q || (Counts(l, cutoff) && w == WorkerId(l));
        if Counts(l, cutoff) && w == WorkerId(l) && w !in q { assert r[|q|] == w; }
      }
    }
  }

  /** The list is exactly the own summaries of the first sixteen workers, for any log. */
  ghost predicate Lists(list: seq<Today>, lines: seq<Line>, n: nat, cutoff: int)
    requires n <= |lines|
  {
    var r := Roster(lines, n, cutoff);
    && |list| == (if |r| < 16 then |r| else 16)
    && forall i :: 0 <= i < |list| ==> Own(lines, n, r[i], cutoff) == Some(list[i])
  }

  lemma {:induction false} FoldLists(lines: seq<Line>, n: nat, cutoff: int)
    requires n <= |lines| && Named(lines, cutoff)
    ensures Lists(Fold(lines, n, cutoff), lines, n, cutoff)
  {
    if n > 0 {
      FoldLists(lines, n - 1, cutoff);
      RosterOk(lines, n - 1, cutoff);
      RosterOk(lines, n, cutoff);
      var list, l := Fold(lines, n - 1, cutoff), lines[n - 1];
      if Counts(l, cutoff) { ListsStep(list, lines, n, cutoff); }
    }
  }

  lemma ListsStep(list: seq<Today>, lines: seq<Line>, n: nat, cutoff: int)
    requires 0 < n <= |lines| && Named(lines, cutoff) && Counts(lines[n - 1], cutoff)
    requires Lists(list, lines, n - 1, cutoff)
    ensures Lists(OnLine(list, lines[n - 1], cutoff), lines, n, cutoff)
  {
    RosterOk(lines, n - 1, cutoff);
    var l := lines[n - 1];
    var r, v := Roster(lines, n - 1, cutoff), WorkerId(l);
    var k := Find(list, v, l.peer);
    forall i | 0 <= i < |list|
      ensures list[i].worker == r[i]
    {
      assert Own(lines, n - 1, r[i], cutoff) == Some(list[i]);
    }
    if v in r {
      var i :| 0 <= i < |r| && r[i] == v;
      if i < |list| {
        assert Belongs(list[i], v, l.peer);
        assert k == i;
      }
    }
  }

  /** Today's list: the first sixteen workers that have an event, each with the summary of its own events. */
  lemma SummaryIsOwn(lines: seq<Line>, cutoff: int, i: nat)
    requires Named(lines, cutoff) && i < |Fold(lines, |lines|, cutoff)|
    ensures var e := Fold(lines, |lines|, cutoff)[i];
            Own(lines, |lines|, e.worker, cutoff) == Some(e)
  {
    FoldLists(lines, |lines|, cutoff);
    RosterOk(lines, |lines|, cutoff);
  }

  lemma EveryoneListed(lines: seq<Line>, cutoff: int, w: nat)
    requires Named(lines, cutoff) && |Roster(lines, |lines|, cutoff)| <= 16
    requires Own(lines, |lines|, w, cutoff).Some?
    ensures Own(lines, |lines|, w, cutoff).value in Fold(lines, |lines|, cutoff)
  {
    FoldLists(lines, |lines|, cutoff);
    RosterOk(lines, |lines|, cutoff);
    var r := Roster(lines, |lines|, cutoff);
    assert w in r;
    var i :| 0 <= i < |r| && r[i] == w;
    assert Fold(lines, |lines|, cutoff)[i] == Own(lines, |lines|, w, cutoff).value;
  }

  // ---------- today agrees with the paired view ----------

  /** The number of closed segments, and the seconds they are credited. */
  function ClosedCount(segments: seq<P.Segment>): nat {
    if segments == [] then 0
    else ClosedCount(segments[..|segments| - 1]) + if segments[|segments| - 1].end.Some? then 1 else 0
  }

  function ClosedSeconds(segments: seq<P.Segment>): nat {
    if segments == [] then 0
    else
      var s := segments[|segments| - 1];
      ClosedSeconds(segments[..|segments| - 1]) + if s.end.Some? then Credit(s.inTs, s.end.value.ts) else 0
  }

  lemma ClosedGrows(segments: seq<P.Segment>, s: P.Segment)
    ensures ClosedCount(segments + [s]) == ClosedCount(segments) + if s.end.Some? then 1 else 0
    ensures ClosedSeconds(segments + [s])
            == ClosedSeconds(segments) + if s.end.Some? then Credit(s.inTs, s.end.value.ts) else 0
  {
    assert (segments + [s])[..|segments|] == segments;
  }

  ghost predicate Agree(own: Option<Today>, paired: W.Own) {
    match own
    case None => paired == W.Own(None, [])
    case Some(e) =>
      && e.segments == ClosedCount(paired.emitted)
      && e.total == ClosedSeconds(paired.emitted)
      && e.currentlyIn == paired.open.Some?
      && e.inTs == (if paired.open.Some? then paired.open.value.inTs else 0)
      && (paired.open.Some? ==> paired.open.value.inTs > 0)
  }

  lemma AgreeOn(own: Option<Today>, paired: W.Own, l: Line, w: nat, cutoff: int)
    requires cutoff > 0 && Agree(own, paired)
    ensures Agree(if !Counts(l, cutoff) || WorkerId(l) != w then own
                  else Some(Updated(if own.Some? then own.value else Fresh(l), l)),
                  W.OnOwn(paired, l, w, cutoff, 0))
  {
    hide ClosedCount, ClosedSeconds, Credit;
    NoneClosed();
    if paired.open.Some? {
      ClosedGrows(paired.emitted, P.StillOpen(paired.open.value));
      ClosedGrows(paired.emitted, P.Closed(paired.open.value, l));
    }
  }

  lemma NoneClosed()
    ensures ClosedCount([]) == 0 && ClosedSeconds([]) == 0
  {
  }

  lemma {:induction false} OwnAgree(lines: seq<Line>, n: nat, w: nat, cutoff: int)
    requires n <= |lines| && cutoff > 0
    ensures Agree(Own(lines, n, w, cutoff), W.OwnFold(lines, n, w, cutoff, 0))
  {
    hide Updated, Counts, W.OnOwn, ClosedCount, ClosedSeconds;
    if n > 0 {
      OwnAgree(lines, n - 1, w, cutoff);
      AgreeOn(Own(lines, n - 1, w, cutoff), W.OwnFold(lines, n - 1, w, cutoff, 0), lines[n - 1], w, cutoff);
    }
  }

  /** The workers seen so far bound the workers that are in. */
  lemma FewAreRoomy(lines: seq<Line>, cutoff: int)
    requires Named(lines, cutoff) && cutoff > 0 && |Roster(lines, |lines|, cutoff)| <= 16
    ensures W.Roomy(lines, cutoff, 0) && W.Named(lines, cutoff, 0)
  {
    forall i | 0 <= i < |lines| && P.IsIn(lines[i], cutoff, 0)
      ensures |W.OthersIn(lines, i, WorkerId(lines[i]), cutoff, 0)| < P.MAX_OPEN
    {
      var v, r := WorkerId(lines[i]), Roster(lines, i + 1, cutoff);
      var others := W.OthersIn(lines, i, v, cutoff, 0);
      RosterOk(lines, i, cutoff);
      RosterOk(lines, i + 1, cutoff);
      RosterGrows(lines, i + 1, |lines|, cutoff);
      forall w | w in others
        ensures w in r && w != v
      {
        OwnAgree(lines, i, w, cutoff);
        assert w in Roster(lines, i, cutoff);
      }
      assert v in r;
      SetOfSeq(others + {v}, r);
    }
  }

  lemma {:induction false} RosterGrows(lines: seq<Line>, m: nat, n: nat, cutoff: int)
    requires m <= n <= |lines|
    ensures |Roster(lines, m, cutoff)| <= |Roster(lines, n, cutoff)|
  {
    if m < n { RosterGrows(lines, m, n - 1, cutoff); }
  }

  lemma {:induction false} SetOfSeq(s: set<nat>, q: seq<nat>)
    requires forall w :: w in s ==> w in q
    ensures |s| <= |q|
  {
    if q == [] {
      assert s == {};
    } else {
      SetOfSeq(s - {q[0]}, q[1..]);
    }
  }

  /** The two views agree: with the same positive cutoff, every counted line naming a worker and at most
      sixteen workers, a worker's entry has the closed segments of its paired view, their credited seconds,
      and is `currentlyIn` exactly when the final flush emits an open segment for it. */
  lemma ViewsAgree(lines: seq<Line>, cutoff: int, e: Today)
    requires Named(lines, cutoff) && cutoff > 0 && |Roster(lines, |lines|, cutoff)| <= 16
    requires e in Fold(lines, |lines|, cutoff)
    ensures var emitted := P.Fold(lines, |lines|, cutoff, 0).emitted;
            var flushed := P.Flushed(P.Fold(lines, |lines|, cutoff, 0).opens, P.MAX_OPEN);
            && e.segments == ClosedCount(W.ForWorker(emitted, e.worker))
            && e.total == ClosedSeconds(W.ForWorker(emitted, e.worker))
            && (e.currentlyIn <==> W.ForWorker(flushed, e.worker) != [])
  {
    var i :| 0 <= i < |Fold(lines, |lines|, cutoff)| && Fold(lines, |lines|, cutoff)[i] == e;
    SummaryIsOwn(lines, cutoff, i);
    RosterOk(lines, |lines|, cutoff);
    var w := e.worker;
    assert w in Roster(lines, |lines|, cutoff) && w != 0;
    FewAreRoomy(lines, cutoff);
    OwnAgree(lines, |lines|, w, cutoff);
    W.FoldRepresents(lines, |lines|, cutoff, 0);
    var s := P.Fold(lines, |lines|, cutoff, 0);
    assert W.Agrees(s, w, W.OwnFold(lines, |lines|, w, cutoff, 0));
    W.FlushedForWorker(s.opens, P.MAX_OPEN, w);
  }

  // ---------- nobody works longer than the day so far ----------

  /** The time of the worker's latest event, `midnight` before the first. */
  function LastTs(lines: seq<Line>, n: nat, w: nat, midnight: int): int
    requires n <= |lines|
  {
    if n == 0 then midnight
    else if Counts(lines[n - 1], midnight) && WorkerId(lines[n - 1]) == w then Ts(lines[n - 1])
    else LastTs(lines, n - 1, w, midnight)
  }

  /** The worker's events are in order and not in the future. */
  ghost predicate InOrder(lines: seq<Line>, w: nat, midnight: int, now: int) {
    forall n :: 0 <= n < |lines| && Counts(lines[n], midnight) && WorkerId(lines[n]) == w ==>
      LastTs(lines, n, w, midnight) <= Ts(lines[n]) <= now
  }

  lemma CreditAtMost(fromTs: int, toTs: int)
    requires fromTs <= toTs
    ensures Credit(fromTs, toTs) <= toTs - fromTs
  {
  }

  lemma {:induction false} TotalBounded(lines: seq<Line>, n: nat, w: nat, midnight: int, now: int)
    requires n <= |lines| && InOrder(lines, w, midnight, now) && midnight <= now
    ensures midnight <= LastTs(lines, n, w, midnight) <= now
    ensures var own := Own(lines, n, w, midnight);
            own.Some? ==>
              && (own.value.inTs > 0 ==> own.value.inTs <= LastTs(lines, n, w, midnight))
              && own.value.total <= (if own.value.inTs > 0 then own.value.inTs else LastTs(lines, n, w, midnight)) - midnight
  {
    if n > 0 {
      TotalBounded(lines, n - 1, w, midnight, now);
      var own, l := Own(lines, n - 1, w, midnight), lines[n - 1];
      if Counts(l, midnight) && WorkerId(l) == w && own.Some? && own.value.inTs > 0 {
        CreditAtMost(own.value.inTs, Ts(l));
      }
    }
  }

  /** The in-time shown for a worker, open interval included, is at most the time since midnight. */
  lemma WithinTheDay(lines: seq<Line>, w: nat, midnight: int, now: int)
    requires InOrder(lines, w, midnight, now) && midnight <= now
    requires Own(lines, |lines|, w, midnight).Some?
    ensures 0 <= Shown(Own(lines, |lines|, w, midnight).value, now).total <= now - midnight
  {
    TotalBounded(lines, |lines|, w, midnight, now);
    TotalNonneg(lines, |lines|, w, midnight);
    var e := Own(lines, |lines|, w, midnight).value;
    if e.inTs > 0 { CreditAtMost(e.inTs, now); }
  }

  lemma {:induction false} TotalNonneg(lines: seq<Line>, n: nat, w: nat, midnight: int)
    requires n <= |lines|
    ensures Own(lines, n, w, midnight).Some? ==> Own(lines, n, w, midnight).value.total >= 0
  {
    if n > 0 { TotalNonneg(lines, n - 1, w, midnight); }
  }
}
