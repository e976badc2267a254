/** Today's summary when some lines name no worker: entries are found by address, and the list is the one of the log in
    which every address has a number. */
module TodayByAddress {
  import opened Common
  import opened EventLines
  import opened TodayView
  import N = PairedByAddress

  /** A dated line from midnight on is the address's. */
  ghost predicate Occurs(lines: seq<Line>, a: Addr, midnight: int) {
    exists i :: 0 <= i < |lines| && Counts(lines[i], midnight) && lines[i].peer == Some(a)
  }

  /** Every line has an address and its worker id; the numbers are different, and the id where there is one. */
  ghost predicate Fits(lines: seq<Line>, names: N.Names, midnight: int) {
    && (forall i :: 0 <= i < |lines| && Counts(lines[i], midnight) ==>
          lines[i].peer.Some? && WorkerId(lines[i]) == names.id(lines[i].peer.value))
    && (forall a :: Occurs(lines, a, midnight) ==>
          0 < names.tag(a) < 65536 && (names.id(a) != 0 ==> names.tag(a) == names.id(a)))
    && (forall a, b :: Occurs(lines, a, midnight) && Occurs(lines, b, midnight) && names.tag(a) == names.tag(b) ==> a == b)
  }

  ghost predicate SameEntry(lines: seq<Line>, names: N.Names, midnight: int, x: Today, y: Today) {
    x.peer.Some? && Occurs(lines, x.peer.value, midnight) && x.worker == names.id(x.peer.value)
    && y == x.(worker := names.tag(x.peer.value))
  }

  ghost predicate SameList(lines: seq<Line>, names: N.Names, midnight: int, x: seq<Today>, y: seq<Today>) {
    |x| == |y| && forall i :: 0 <= i < |x| ==> SameEntry(lines, names, midnight, x[i], y[i])
  }

  lemma SameFound(lines: seq<Line>, names: N.Names, midnight: int, x: seq<Today>, y: seq<Today>, a: Addr)
    requires Fits(lines, names, midnight) && SameList(lines, names, midnight, x, y) && Occurs(lines, a, midnight)
    ensures Find(x, names.id(a), Some(a)) == Find(y, names.tag(a), Some(a))
  {
    forall i | 0 <= i < |x|
      ensures Belongs(x[i], names.id(a), Some(a)) <==> Belongs(y[i], names.tag(a), Some(a))
    {
      assert SameEntry(lines, names, midnight, x[i], y[i]);
    }
  }

  lemma LineKnown(lines: seq<Line>, names: N.Names, midnight: int, i: nat)
    requires Fits(lines, names, midnight) && i < |lines| && Counts(lines[i], midnight)
    ensures var l := lines[i];
            l.peer.Some? && Occurs(lines, l.peer.value, midnight) && WorkerId(l) == names.id(l.peer.value)
            && WorkerId(N.Tagged(l, names)) == names.tag(l.peer.value) && names.tag(l.peer.value) != 0
  {
  }

  lemma SameUpdated(lines: seq<Line>, names: N.Names, midnight: int, x: Today, y: Today, l: Line)
    requires SameEntry(lines, names, midnight, x, y) && l.kind.Some?
    ensures SameEntry(lines, names, midnight, Updated(x, l), Updated(y, N.Tagged(l, names)))
  {
  }

  lemma SameOnLine(lines: seq<Line>, names: N.Names, midnight: int, x: seq<Today>, y: seq<Today>, i: nat)
    requires Fits(lines, names, midnight) && SameList(lines, names, midnight, x, y) && i < |lines|
    ensures SameList(lines, names, midnight, OnLine(x, lines[i], midnight), OnLine(y, N.Tagged(lines[i], names), midnight))
  {
    hide Updated, Find, Occurs;
    var l, m := lines[i], N.Tagged(lines[i], names);
    if Counts(l, midnight) {
      LineKnown(lines, names, midnight, i);
      SameFound(lines, names, midnight, x, y, l.peer.value);
      var k := Find(x, WorkerId(l), l.peer);
      if k < |x| {
        SameUpdated(lines, names, midnight, x[k], y[k], l);
      } else {
        SameUpdated(lines, names, midnight, Fresh(l), Fresh(m), l);
      }
    }
  }

  /** The list is the same, entry by entry, but for the numbers of the workers; what it says then follows from the
      lines of each address. */
  lemma {:induction false} AddressesListed(lines: seq<Line>, names: N.Names, midnight: int, n: nat)
    requires Fits(lines, names, midnight) && n <= |lines|
    ensures SameList(lines, names, midnight, Fold(lines, n, midnight), Fold(N.TaggedLog(lines, names), n, midnight))
    ensures Named(N.TaggedLog(lines, names), midnight)
  {
    var tagged := N.TaggedLog(lines, names);
    forall i | 0 <= i < |tagged| && Counts(tagged[i], midnight)
      ensures WorkerId(tagged[i]) != 0
    {
      assert Counts(lines[i], midnight);
      LineKnown(lines, names, midnight, i);
    }
    if n > 0 {
      AddressesListed(lines, names, midnight, n - 1);
      SameOnLine(lines, names, midnight, Fold(lines, n - 1, midnight), Fold(tagged, n - 1, midnight), n - 1);
    }
  }
}
