/** Which events a client is sent, for any parameters of its request and any run of the store. */
module PageOfEvents {
  import opened Common
  import opened EventLines
  import opened EventText
  import opened EventReader
  import opened EventsPage
  import opened ReadBack
  import StoreText
  import ES = EventStore

  /** What the request asks for: the events of one day, from its midnight on, and of one worker. */
  predicate Asked(p: Params, e: Event) {
    && (p.date.Some? ==> p.date.value <= e.ts < p.date.value + 86400)
    && (p.worker.Some? && p.worker.value % 65536 != 0 ==> e.worker == p.worker.value % 65536)
  }

  /** The number of events asked for; 200 unless the request says something from 1 to 5000. */
  function Wanted(p: Params): nat {
    if p.limit.Some? && 1 <= p.limit.value <= 5000 then p.limit.value else 200
  }

  function From(es: seq<Event>, k: int): seq<Event> {
    if k <= 0 then es else if k <= |es| then es[k..] else []
  }

  function First(es: seq<Event>, n: nat): seq<Event> {
    if n < |es| then es[..n] else es
  }

  function Last(es: seq<Event>, n: nat): seq<Event> {
    From(es, |es| - n)
  }

  lemma AskedMatches(p: Params, e: Event)
    requires p.date != Some(-86400)
    ensures Matches(Render(e), ReadQuery(p), ReadLine) <==> Asked(p, e)
  {
    LineBack(e);
  }

  lemma EmptyMatches(p: Params, gone: Event -> bool)
    ensures ES.Texts([]) == [] && ES.Texts(ES.Without([], gone)) == []
  {
  }

  lemma {:induction false} MatchingEvents(es: seq<Event>, p: Params, gone: Event -> bool)
    requires p.date != Some(-86400) && forall e :: gone(e) <==> !Asked(p, e)
    ensures Matching(ES.Texts(es), ReadQuery(p), ReadLine) == ES.Texts(ES.Without(es, gone))
  {
    hide Matches, ReadQuery, Asked, ES.Texts, ES.Without;
    EmptyMatches(p, gone);
    if es != [] {
      var n := |es| - 1;
      var rest, e := es[..n], es[n];
      assert es == rest + [e];
      ES.TextsPush(rest, e);
      assert ES.Texts(es)[..n] == ES.Texts(rest);
      MatchingEvents(rest, p, gone);
      WithoutPush(rest, e, gone);
      AskedMatches(p, e);
      assert ES.Texts(es)[n] == Render(e);
      var kept := ES.Without(rest, gone);
      assert kept + [] == kept && ES.Texts(kept) + [] == ES.Texts(kept);
      if !gone(e) { ES.TextsPush(kept, e); }
    }
  }

  lemma {:induction false} WithoutPush(es: seq<Event>, e: Event, gone: Event -> bool)
    ensures ES.Without(es + [e], gone) == ES.Without(es, gone) + if gone(e) then [] else [e]
  {
    if es == [] {
      assert [e][1..] == [] && [] + [e] == [e];
    } else {
      assert (es + [e])[1..] == es[1..] + [e];
      WithoutPush(es[1..], e, gone);
    }
  }

  lemma {:induction false} TextsFirst(es: seq<Event>, n: nat)
    requires n <= |es|
    ensures ES.Texts(es[..n]) == ES.Texts(es)[..n]
  {
    hide Render;
    if n > 0 {
      assert es[..n][1..] == es[1..][..n - 1];
      TextsFirst(es[1..], n - 1);
    }
  }

  /** The events of the page, of those that are asked for. */
  function Cut(es: seq<Event>, p: Params): seq<Event> {
    var from := if p.offset.Some? then p.offset.value else 0;
    if p.date.Some? then From(es, from)
    else if p.offset.None? then Last(es, Wanted(p))
    else First(From(es, from), Wanted(p))
  }

  predicate OfAnyWorker(p: Params) {
    p.worker.None? || p.worker.value % 65536 == 0
  }

  lemma PageIsCut(lines: seq<string>, count: nat, p: Params, es: seq<Event>)
    requires Matching(lines, ReadQuery(p), ReadLine) == ES.Texts(es) && p.date != Some(-86400)
    requires p.date.None? && OfAnyWorker(p) ==> count == |es|
    ensures PageSent(lines, count, p, ReadLine) == ES.Texts(Cut(es, p))
  {
    hide ES.Texts, Matching, Page;
    PageTexts(es, ReadQuery(p).offset, ReadQuery(p).limit);
    PageTexts(es, TailStart(|es|, Wanted(p)), Wanted(p));
    LastIsTail(es, Wanted(p));
  }

  lemma LastIsTail(es: seq<Event>, n: nat)
    ensures First(From(es, TailStart(|es|, n)), n) == Last(es, n)
  {
  }

  /** A request for a day gets the events of that day, and of the worker if it names one; without a date it gets
      the newest ones, or those from its offset on, as many as it asks for. */
  lemma EventsSent(ops: seq<ES.Op>, p: Params, gone: Event -> bool)
    requires ES.LegalRun(ops) && p.date != Some(-86400) && forall e :: gone(e) <==> !Asked(p, e)
    ensures var st := ES.RunBytes(ops);
            PageSent(StoreText.Iterated(ES.Text(st)), st.count, p, ReadLine)
            == ES.Texts(Cut(ES.Without(ES.RunLog(ops), gone), p))
  {
    hide ES.RunBytes, ES.RunLog, ES.LegalRun, PageSent, Matching, Asked, ES.Texts, ES.Without, StoreText.Iterated;
    ES.RunRefines(ops);
    var log := ES.RunLog(ops);
    MatchingEvents(log, p, gone);
    if p.date.None? && OfAnyWorker(p) {
      forall e
        ensures !gone(e)
      {
        AskedByNone(p, e);
      }
      AllKept(log, gone);
    }
    PageIsCut(StoreText.Iterated(ES.Text(ES.RunBytes(ops))), ES.RunBytes(ops).count, p, ES.Without(log, gone));
  }

  lemma AskedByNone(p: Params, e: Event)
    requires p.date.None? && OfAnyWorker(p)
    ensures Asked(p, e)
  {
  }

  lemma {:induction false} AllKept(es: seq<Event>, gone: Event -> bool)
    requires forall e :: !gone(e)
    ensures ES.Without(es, gone) == es
  {
    if es != [] {
      AllKept(es[1..], gone);
      assert [es[0]] + es[1..] == es;
    }
  }

  lemma PageTexts(es: seq<Event>, offset: nat, limit: nat)
    ensures Page(ES.Texts(es), offset, limit)
            == ES.Texts(if limit == 0 then From(es, offset) else First(From(es, offset), limit))
  {
    hide ES.Texts;
    if offset <= |es| {
      ES.TextsDrop(es, offset);
      assert es[offset..] == From(es, offset) by { if offset == 0 { assert es[0..] == es; } }
      if 0 < limit < |es| - offset { TextsFirst(es[offset..], limit); }
    } else {
      assert ES.Texts(es[|es|..]) == [];
      assert es[|es|..] == [];
    }
  }
}
