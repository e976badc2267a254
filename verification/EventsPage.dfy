/** The page of the log that `GET /api/events` sends. */
module EventsPage {
  import opened Common
  import opened EventLines
  import opened EventText
  import opened StoreText
  import ES = EventStore

  const DEFAULT_LIMIT := 200
  const MAX_LIMIT := 5000
  const DAY := 86400

  /** What the URL may hold; `date` is the local midnight of a well-formed date. */
  datatype Params = Params(offset: Option<int>, limit: Option<int>, worker: Option<int>, date: Option<int>)

  /** 0 stands for no limit, no bound and no filter. */
  datatype Query = Query(offset: nat, limit: nat, from: int, to: int, worker: nat)

  function ReadQuery(p: Params): Query {
    var limit := if p.limit.Some? && 0 < p.limit.value <= MAX_LIMIT then p.limit.value else DEFAULT_LIMIT;
    Query(
      if p.offset.Some? && p.offset.value > 0 then p.offset.value else 0,
      if p.date.Some? then 0 else limit,
      if p.date.Some? then p.date.value else 0,
      if p.date.Some? then p.date.value + DAY else 0,
      if p.worker.Some? then p.worker.value % 65536 else 0)
  }

  type Parser = string -> Option<Line>

  /** The worker id as both callbacks compare it. */
  function Wid(l: Line): nat {
    if l.workerId.Some? then l.workerId.value else 0
  }

  predicate Matches(text: string, q: Query, parse: Parser) {
    if q.from == 0 && q.to == 0 && q.worker == 0 then true
    else
      var l := parse(text);
      l.Some?
      && (q.from != 0 ==> Ts(l.value) >= q.from)
      && (q.to != 0 ==> Ts(l.value) < q.to)
      && (q.worker != 0 ==> Wid(l.value) == q.worker)
  }

  function Matching(lines: seq<string>, q: Query, parse: Parser): (m: seq<string>)
    ensures |m| <= |lines|
  {
    if lines == [] then []
    else Matching(lines[..|lines| - 1], q, parse)
         + if Matches(lines[|lines| - 1], q, parse) then [lines[|lines| - 1]] else []
  }

  /** At most `limit` of the entries from `offset` on. */
  function Page(m: seq<string>, offset: nat, limit: nat): seq<string> {
    var rest := if offset <= |m| then m[offset..] else [];
    if 0 < limit < |rest| then rest[..limit] else rest
  }

  /** The newest `limit` entries. */
  function Newest(m: seq<string>, limit: nat): seq<string> {
    if limit < |m| then m[|m| - limit..] else m
  }

  lemma PagePush(m: seq<string>, x: string, offset: nat, limit: nat)
    ensures Page(m + [x], offset, limit)
            == if offset <= |m| && !(0 < limit <= |m| - offset) then Page(m, offset, limit) + [x]
               else Page(m, offset, limit)
  {
    if offset <= |m| { assert (m + [x])[offset..] == m[offset..] + [x]; }
  }

  lemma {:induction false} PageStops(lines: seq<string>, i: nat, q: Query, parse: Parser, offset: nat)
    requires i <= |lines| && 0 < q.limit == |Page(Matching(lines[..i], q, parse), offset, q.limit)|
    ensures Page(Matching(lines, q, parse), offset, q.limit) == Page(Matching(lines[..i], q, parse), offset, q.limit)
    decreases |lines| - i
  {
    if i < |lines| {
      assert lines[..i + 1][..i] == lines[..i];
      PagePush(Matching(lines[..i], q, parse), lines[i], offset, q.limit);
      assert Matching(lines[..i], q, parse) + [] == Matching(lines[..i], q, parse);
      PageStops(lines, i + 1, q, parse, offset);
    } else {
      assert lines[..i] == lines;
    }
  }

  lemma MatchingStep(lines: seq<string>, i: nat, q: Query, parse: Parser)
    requires i < |lines|
    ensures var m := Matching(lines[..i], q, parse);
            Matching(lines[..i + 1], q, parse) == if Matches(lines[i], q, parse) then m + [lines[i]] else m
  {
    assert lines[..i + 1][..i] == lines[..i];
    assert Matching(lines[..i], q, parse) + [] == Matching(lines[..i], q, parse);
  }

  /** `events_iter_ctx_t`. */
  class PageContext {
    const q: Query
    const offset: nat
    const parse: Parser
    var skipped: nat
    var emitted: nat
    var sent: seq<string>

    constructor (q: Query, offset: nat, parse: Parser)
      ensures this.q == q && this.offset == offset && this.parse == parse && Holds([])
    {
      this.q, this.offset, this.parse := q, offset, parse;
      skipped, emitted, sent := 0, 0, [];
    }

    /** The state after the matching entries `m`. */
    predicate Holds(m: seq<string>)
      reads this
    {
      skipped == (if |m| < offset then |m| else offset) && sent == Page(m, offset, q.limit) && emitted == |sent|
    }

    /** `events_iter_cb`; `more` is false when it ends the iteration. */
    method Iterate(text: string, ghost m: seq<string>) returns (more: bool)
      requires Holds(m)
      modifies this
      ensures Holds(if Matches(text, q, parse) then m + [text] else m)
      ensures !more ==> 0 < q.limit == |sent|
    {
      PagePush(m, text, offset, q.limit);
      more := true;
      if q.from != 0 || q.to != 0 || q.worker != 0 {
        var l := parse(text);
        if l.None? { return; }
        if q.from != 0 && Ts(l.value) < q.from { return; }
        if q.to != 0 && Ts(l.value) >= q.to { return; }
        if q.worker != 0 && Wid(l.value) != q.worker { return; }
      }
      if skipped < offset {
        skipped := skipped + 1;
        return;
      }
      if q.limit > 0 && emitted >= q.limit { return false; }
      sent := sent + [text];
      emitted := emitted + 1;
    }
  }

  /** The walk that counts a worker's lines. */
  method CountWorker(lines: seq<string>, worker: nat, parse: Parser) returns (n: nat)
    requires worker != 0
    ensures n == |Matching(lines, Query(0, 0, 0, 0, worker), parse)|
  {
    n := 0;
    for i := 0 to |lines|
      invariant n == |Matching(lines[..i], Query(0, 0, 0, 0, worker), parse)|
    {
      assert lines[..i + 1][..i] == lines[..i];
      var l := parse(lines[i]);
      if l.Some? && Wid(l.value) == worker { n := n + 1; }
    }
    assert lines[..|lines|] == lines;
  }

  /** The query's own matching lines do not depend on its paging. */
  lemma {:induction false} MatchingByWorker(lines: seq<string>, q: Query, parse: Parser)
    requires q.from == 0 && q.to == 0
    ensures Matching(lines, q, parse) == Matching(lines, Query(0, 0, 0, 0, q.worker), parse)
  {
    if lines != [] { MatchingByWorker(lines[..|lines| - 1], q, parse); }
  }

  lemma {:induction false} Unfiltered(lines: seq<string>, q: Query, parse: Parser)
    requires q.from == 0 && q.to == 0 && q.worker == 0
    ensures Matching(lines, q, parse) == lines
  {
    if lines != [] { Unfiltered(lines[..|lines| - 1], q, parse); }
  }

  method SendPage(lines: seq<string>, q: Query, offset: nat, parse: Parser) returns (sent: seq<string>)
    ensures sent == Page(Matching(lines, q, parse), offset, q.limit)
  {
    var ctx := new PageContext(q, offset, parse);
    var i := 0;
    while i < |lines|
      invariant i <= |lines| && fresh(ctx) && ctx.q == q && ctx.offset == offset && ctx.parse == parse
      invariant ctx.Holds(Matching(lines[..i], q, parse))
    {
      MatchingStep(lines, i, q, parse);
      var more := ctx.Iterate(lines[i], Matching(lines[..i], q, parse));
      i := i + 1;
      if !more {
        PageStops(lines, i, q, parse, offset);
        return ctx.sent;
      }
    }
    assert lines[..i] == lines;
    sent := ctx.sent;
  }

  /** Where the page of the newest lines starts, by the number of lines there are thought to be. */
  function TailStart(count: nat, limit: nat): nat {
    if count > limit then count - limit else 0
  }

  /** With the right number the page is the newest `limit` lines. With a number too high by `excess` it ends with the
      last line all the same, but starts too late, and is short by the excess or empty. */
  lemma TailPage(m: seq<string>, excess: nat, limit: nat)
    requires limit > 0
    ensures var page := Page(m, TailStart(|m| + excess, limit), limit);
            var size := if excess <= limit then limit - excess else 0;
            page == (if |m| + excess <= limit then m else Newest(m, size))
            && (excess == 0 ==> page == Newest(m, limit))
  {
    var start := TailStart(|m| + excess, limit);
    if |m| + excess <= limit { assert m[0..] == m; }
  }

  /** The page that is sent: it starts at the offset, or so that `limit` lines are left by the count. */
  function PageSent(lines: seq<string>, count: nat, p: Params, parse: Parser): seq<string> {
    var q := ReadQuery(p);
    var m := Matching(lines, q, parse);
    if p.offset.None? && q.limit > 0 && q.from == 0 && q.to == 0 then
      Page(m, TailStart(if q.worker != 0 then |m| else count, q.limit), q.limit)
    else Page(m, q.offset, q.limit)
  }

  /** Without an explicit offset or a date the page starts so that `limit` lines are left by the count: the cached
      one, or that of the worker's lines. If the count is right these are the newest `limit` matching lines. With an
      offset or a date `limit` lines are sent from the offset, or the whole day. */
  method EventsGet(lines: seq<string>, count: nat, p: Params, parse: Parser) returns (sent: seq<string>)
    ensures sent == PageSent(lines, count, p, parse)
    ensures var q := ReadQuery(p);
            p.offset.None? && q.limit > 0 && q.from == 0 && q.to == 0 && (count == |lines| || q.worker != 0) ==>
              sent == Newest(Matching(lines, q, parse), q.limit)
  {
    var q := ReadQuery(p);
    var offset := q.offset;
    if q.limit > 0 && p.offset.None? && q.from == 0 && q.to == 0 {
      var matching := count;
      if q.worker != 0 {
        matching := CountWorker(lines, q.worker, parse);
        MatchingByWorker(lines, q, parse);
      } else {
        Unfiltered(lines, q, parse);
      }
      if matching > q.limit { offset := matching - q.limit; }
    }
    sent := SendPage(lines, q, offset, parse);
  }

  /** After any run of the store the page without parameters but a limit is the newest events. */
  lemma PageOfRun(ops: seq<ES.Op>, limit: nat)
    requires ES.LegalRun(ops)
    ensures var st, es := ES.RunBytes(ops), ES.RunLog(ops);
            st.count == |Iterated(ES.Text(st))|
            && Newest(Iterated(ES.Text(st)), limit)
               == ES.Texts(if limit < |es| then es[|es| - limit..] else es)
  {
    ES.RunRefines(ops);
    var es := ES.RunLog(ops);
    if limit < |es| { ES.TextsDrop(es, |es| - limit); }
  }
}
