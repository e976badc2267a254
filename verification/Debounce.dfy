/** The debounce table of components/events/dd_event.c: four slots, least recently used evicted. */
module Debounce {
  import opened Common

  const WINDOW_US := 10_000_000
  const ENTRIES := 4

  /** `debounce_slot_t`. */
  datatype Entry = Entry(used: bool, addr: Addr, lastIn: int, lastOut: int)

  const BLANK := Entry(false, ZERO_ADDR, 0, 0)

  type Table = seq<Entry>

  predicate Holds(e: Entry, a: Addr) {
    e.used && e.addr == a
  }

  function Last(e: Entry, k: Kind): int {
    if k.In? then e.lastIn else e.lastOut
  }

  function Stamped(e: Entry, k: Kind, at: int): Entry {
    if k.In? then e.(lastIn := at) else e.(lastOut := at)
  }

  function Recency(e: Entry): int {
    if e.lastIn > e.lastOut then e.lastIn else e.lastOut
  }

  function IndexOf(t: Table, a: Addr, i: nat := 0): (k: nat)
    requires i <= |t|
    ensures i <= k <= |t|
    ensures k < |t| ==> Holds(t[k], a)
    ensures forall j :: i <= j < k ==> !Holds(t[j], a)
    decreases |t| - i
  {
    if i == |t| || Holds(t[i], a) then i else IndexOf(t, a, i + 1)
  }

  function FirstFree(t: Table, i: nat := 0): (k: nat)
    requires i <= |t|
    ensures i <= k <= |t|
    ensures k < |t| ==> !t[k].used
    ensures forall j :: i <= j < k ==> t[j].used
    decreases |t| - i
  {
    if i == |t| || !t[i].used then i else FirstFree(t, i + 1)
  }

  /** The first of the least recent among the first `n` entries. */
  function Oldest(t: Table, n: nat): (k: nat)
    requires 0 < n <= |t|
    ensures k < n
    ensures forall j :: 0 <= j < n ==> Recency(t[k]) <= Recency(t[j])
    ensures forall j :: 0 <= j < k ==> Recency(t[k]) < Recency(t[j])
  {
    if n == 1 then 0
    else
      var k := Oldest(t, n - 1);
      if Recency(t[n - 1]) < Recency(t[k]) then n - 1 else k
  }

  /** Where `get_slot` puts a peer that the table does not hold: a free slot, else the oldest one. */
  function Victim(t: Table): (k: nat)
    requires |t| == ENTRIES
    ensures k < |t|
  {
    if FirstFree(t) < |t| then FirstFree(t) else Oldest(t, |t|)
  }

  /** `get_slot`: the table afterwards; the slot of `a` is `IndexOf` in it. */
  function WithSlot(t: Table, a: Addr): (u: Table)
    requires |t| == ENTRIES
    ensures |u| == ENTRIES && IndexOf(u, a) < |u|
  {
    if IndexOf(t, a) < |t| then t
    else
      var v := Victim(t);
      var u := t[v := Entry(true, a, 0, 0)];
      assert Holds(u[v], a);
      u
  }

  datatype Call = Call(peer: Addr, kind: Kind, at: int)

  /** Whether `dd_event_record` lets a BLE event through. */
  predicate Admits(t: Table, c: Call)
    requires |t| == ENTRIES
  {
    var u := WithSlot(t, c.peer);
    var last := Last(u[IndexOf(u, c.peer)], c.kind);
    last == 0 || c.at - last >= WINDOW_US
  }

  /** The table after `dd_event_record`. */
  function After(t: Table, c: Call): (u: Table)
    requires |t| == ENTRIES
    ensures |u| == ENTRIES
  {
    var u := WithSlot(t, c.peer);
    var k := IndexOf(u, c.peer);
    if Admits(t, c) then u[k := Stamped(u[k], c.kind, c.at)] else u
  }

  // ---------- runs ----------

  /** The table after the first `n` calls since boot. */
  function TableAt(calls: seq<Call>, n: nat): (t: Table)
    requires n <= |calls|
    ensures |t| == ENTRIES
  {
    if n == 0 then seq(ENTRIES, i => BLANK) else After(TableAt(calls, n - 1), calls[n - 1])
  }

  /** Call `k` is written to the log. */
  predicate Accepted(calls: seq<Call>, k: nat)
    requires k < |calls|
  {
    Admits(TableAt(calls, k), calls[k])
  }

  /** The timer is positive and two calls never read the same value. */
  ghost predicate Ticking(calls: seq<Call>) {
    && (forall k :: 0 <= k < |calls| ==> calls[k].at > 0)
    && (forall j, k :: 0 <= j < k < |calls| ==> calls[j].at < calls[k].at)
  }

  /** The timer is positive and never goes back; several calls may read the same value. */
  ghost predicate Steady(calls: seq<Call>) {
    && (forall k :: 0 <= k < |calls| ==> calls[k].at > 0)
    && (forall j, k :: 0 <= j < k < |calls| ==> calls[j].at <= calls[k].at)
  }

  /** Call `j`, of peer `a`, was accepted. */
  ghost predicate AcceptedOf(calls: seq<Call>, j: nat, a: Addr) {
    j < |calls| && calls[j].peer == a && Accepted(calls, j)
  }

  /** Call `j` is the latest accepted call of `a` among the first `n`. */
  ghost predicate LatestOf(calls: seq<Call>, n: nat, a: Addr, j: nat) {
    && j < n <= |calls|
    && AcceptedOf(calls, j, a)
    && forall m :: j < m < n ==> !AcceptedOf(calls, m, a)
  }

  /** The other peers with an accepted call after call `j` and before call `n`. */
  ghost function OthersBetween(calls: seq<Call>, a: Addr, j: nat, n: nat): set<Addr>
    requires n <= |calls|
  {
    set m | j < m < n && Accepted(calls, m) && calls[m].peer != a :: calls[m].peer
  }

  /** `a` is one of the four peers with the most recent accepted calls among the first `n`. */
  ghost predicate Recent(calls: seq<Call>, n: nat, a: Addr)
    requires n <= |calls|
  {
    exists j: nat :: LatestOf(calls, n, a, j) && |OthersBetween(calls, a, j, n)| < 4
  }

  predicate InTable(t: Table, a: Addr) {
    IndexOf(t, a) < |t|
  }

  // ---------- the table is the set of the four most recent peers ----------

  ghost predicate Distinct(t: Table) {
    forall i, j :: 0 <= i < j < |t| && t[i].used && t[j].used ==> t[i].addr != t[j].addr
  }

  /** A used entry was stamped by its peer's latest accepted call. */
  ghost predicate EntryOk(calls: seq<Call>, n: nat, e: Entry)
    requires n <= |calls|
  {
    e.used ==> exists j: nat :: LatestOf(calls, n, e.addr, j) && Recency(e) == calls[j].at
  }

  /** A peer that has an accepted call but no entry is older than every entry of a full table. */
  ghost predicate Displaced(calls: seq<Call>, n: nat, j: nat, t: Table)
    requires n <= |calls| && j < |calls|
  {
    !InTable(t, calls[j].peer) ==> forall i :: 0 <= i < |t| ==> t[i].used && Recency(t[i]) > calls[j].at
  }

  ghost predicate TableOk(calls: seq<Call>, n: nat, t: Table)
    requires n <= |calls|
  {
    && |t| == ENTRIES
    && Distinct(t)
    && (forall i :: 0 <= i < |t| ==> EntryOk(calls, n, t[i]) && t[i].lastIn >= 0 && t[i].lastOut >= 0)
    && (forall j :: 0 <= j < n && Accepted(calls, j) ==> Displaced(calls, n, j, t))
  }

  lemma NewAdmitted(t: Table, c: Call)
    requires |t| == ENTRIES && !InTable(t, c.peer)
    ensures Admits(t, c)
    ensures var v := Victim(t); After(t, c) == t[v := Stamped(Entry(true, c.peer, 0, 0), c.kind, c.at)]
  {
    var v := Victim(t);
    var u := t[v := Entry(true, c.peer, 0, 0)];
    assert Holds(u[v], c.peer);
    assert forall j :: 0 <= j < |t| && j != v ==> u[j] == t[j];
    assert IndexOf(u, c.peer) == v;
  }

  /** An entry that the call does not touch stays good. */
  lemma EntryStays(calls: seq<Call>, n: nat, e: Entry)
    requires n < |calls| && EntryOk(calls, n, e)
    requires e.used ==> e.addr != calls[n].peer || !Accepted(calls, n)
    ensures EntryOk(calls, n + 1, e)
  {
    if e.used {
      var j: nat :| LatestOf(calls, n, e.addr, j) && Recency(e) == calls[j].at;
      forall m | j < m < n + 1
        ensures !AcceptedOf(calls, m, e.addr)
      {
      }
      assert LatestOf(calls, n + 1, e.addr, j);
    }
  }

  /** The calls' times order their entries: recencies of different peers differ. */
  lemma RecencyOf(calls: seq<Call>, n: nat, e: Entry, j: nat)
    requires Ticking(calls) && n <= |calls| && e.used && EntryOk(calls, n, e)
    requires j < n && AcceptedOf(calls, j, e.addr)
    ensures calls[j].at <= Recency(e)
  {
    var m: nat :| LatestOf(calls, n, e.addr, m) && Recency(e) == calls[m].at;
    assert j > m ==> !AcceptedOf(calls, j, e.addr);
  }

  lemma RecencyDiffers(calls: seq<Call>, n: nat, e: Entry, f: Entry)
    requires Ticking(calls) && n <= |calls| && e.used && f.used && e.addr != f.addr
    requires EntryOk(calls, n, e) && EntryOk(calls, n, f)
    ensures Recency(e) != Recency(f)
  {
    var i: nat :| LatestOf(calls, n, e.addr, i) && Recency(e) == calls[i].at;
    var j: nat :| LatestOf(calls, n, f.addr, j) && Recency(f) == calls[j].at;
    assert i != j;
    if i < j { assert calls[i].at < calls[j].at; } else { assert calls[j].at < calls[i].at; }
  }

  /** An admitted call makes its peer's entry the most recent one. */
  lemma Refreshed(calls: seq<Call>, n: nat, e: Entry, t: Table)
    requires Ticking(calls) && n < |calls| && TableOk(calls, n, t) && Accepted(calls, n)
    requires e.used && e.addr == calls[n].peer
    requires e in t || (e.lastIn == 0 && e.lastOut == 0)
    ensures var f := Stamped(e, calls[n].kind, calls[n].at);
            EntryOk(calls, n + 1, f) && Recency(f) == calls[n].at && Recency(f) > Recency(e)
  {
    if e in t {
      var m: nat :| LatestOf(calls, n, e.addr, m) && Recency(e) == calls[m].at;
      assert calls[m].at < calls[n].at;
    }
    assert LatestOf(calls, n + 1, e.addr, n);
  }

  lemma FoundEntries(calls: seq<Call>, n: nat, t: Table, k: nat, u: Table)
    requires Ticking(calls) && n < |calls| && TableOk(calls, n, t)
    requires k < |t| && Holds(t[k], calls[n].peer)
    requires u == if Accepted(calls, n) then t[k := Stamped(t[k], calls[n].kind, calls[n].at)] else t
    ensures forall i :: 0 <= i < |u| ==> EntryOk(calls, n + 1, u[i]) && u[i].lastIn >= 0 && u[i].lastOut >= 0
    ensures forall i :: 0 <= i < |u| ==> Recency(u[i]) >= Recency(t[i])
  {
    if Accepted(calls, n) { Refreshed(calls, n, t[k], t); }
    forall i | 0 <= i < |u|
      ensures EntryOk(calls, n + 1, u[i]) && u[i].lastIn >= 0 && u[i].lastOut >= 0
    {
      if i != k || !Accepted(calls, n) {
        assert EntryOk(calls, n, t[i]);
        assert i != k && t[i].used ==> t[i].addr != t[k].addr;
        EntryStays(calls, n, t[i]);
      }
    }
  }

  lemma FoundDisplaces(calls: seq<Call>, n: nat, t: Table, u: Table, j: nat)
    requires n < |calls| && |u| == |t| && j < |calls| && (j < n ==> Displaced(calls, n, j, t))
    requires j < n || InTable(t, calls[j].peer)
    requires forall i :: 0 <= i < |t| ==>
               t[i].used == u[i].used && t[i].addr == u[i].addr && Recency(u[i]) >= Recency(t[i])
    ensures Displaced(calls, n + 1, j, u)
  {
    SamePeers(t, u, calls[j].peer);
  }

  lemma FoundStep(calls: seq<Call>, n: nat, t: Table)
    requires Ticking(calls) && n < |calls| && TableOk(calls, n, t) && TableAt(calls, n) == t
    requires InTable(t, calls[n].peer)
    ensures TableOk(calls, n + 1, After(t, calls[n]))
  {
    var k := IndexOf(t, calls[n].peer);
    var u := if Accepted(calls, n) then t[k := Stamped(t[k], calls[n].kind, calls[n].at)] else t;
    assert After(t, calls[n]) == u;
    FoundEntries(calls, n, t, k, u);
    FoundTable(calls, n, t, u);
  }

  lemma FoundTable(calls: seq<Call>, n: nat, t: Table, u: Table)
    requires n < |calls| && TableOk(calls, n, t) && |u| == |t| && InTable(t, calls[n].peer)
    requires forall i :: 0 <= i < |u| ==> EntryOk(calls, n + 1, u[i]) && u[i].lastIn >= 0 && u[i].lastOut >= 0
    requires forall i :: 0 <= i < |t| ==>
               t[i].used == u[i].used && t[i].addr == u[i].addr && Recency(u[i]) >= Recency(t[i])
    ensures TableOk(calls, n + 1, u)
  {
    forall j | 0 <= j < n + 1 && Accepted(calls, j)
      ensures Displaced(calls, n + 1, j, u)
    {
      FoundDisplaces(calls, n, t, u, j);
    }
  }

  lemma SamePeers(t: Table, u: Table, a: Addr)
    requires |t| == |u| && forall i :: 0 <= i < |t| ==> t[i].used == u[i].used && t[i].addr == u[i].addr
    ensures InTable(t, a) == InTable(u, a)
  {
    assert forall i :: 0 <= i < |t| ==> Holds(t[i], a) == Holds(u[i], a);
  }

  lemma {:induction false} NewStep(calls: seq<Call>, n: nat, t: Table)
    requires Ticking(calls) && n < |calls| && TableOk(calls, n, t) && TableAt(calls, n) == t
    requires !InTable(t, calls[n].peer)
    ensures TableOk(calls, n + 1, After(t, calls[n]))
  {
    var c := calls[n];
    var v := Victim(t);
    var u := After(t, c);
    NewAdmitted(t, c);
    Refreshed(calls, n, Entry(true, c.peer, 0, 0), t);
    forall i | 0 <= i < |u|
      ensures EntryOk(calls, n + 1, u[i]) && u[i].lastIn >= 0 && u[i].lastOut >= 0
    {
      if i != v {
        assert EntryOk(calls, n, t[i]) && !Holds(t[i], c.peer);
        if t[i].used { EntryStays(calls, n, t[i]); }
      }
    }
    forall j | 0 <= j < n + 1 && Accepted(calls, j)
      ensures Displaced(calls, n + 1, j, u)
    {
      if j == n { assert Holds(u[v], c.peer); } else { NewDisplaces(calls, n, t, j); }
    }
  }

  /** The evicted entry was strictly older than the others. */
  lemma Evicted(calls: seq<Call>, n: nat, t: Table, i: nat)
    requires Ticking(calls) && n < |calls| && TableOk(calls, n, t)
    requires FirstFree(t) == |t| && i < |t| && i != Victim(t)
    ensures Recency(t[i]) > Recency(t[Victim(t)])
  {
    var v := Victim(t);
    assert EntryOk(calls, n, t[i]) && EntryOk(calls, n, t[v]);
    RecencyDiffers(calls, n, t[i], t[v]);
  }

  lemma {:induction false} NewDisplaces(calls: seq<Call>, n: nat, t: Table, j: nat)
    requires Ticking(calls) && n < |calls| && TableOk(calls, n, t) && TableAt(calls, n) == t
    requires !InTable(t, calls[n].peer) && j < n && Accepted(calls, j)
    ensures Displaced(calls, n + 1, j, After(t, calls[n]))
  {
    var c, p, v := calls[n], calls[j].peer, Victim(t);
    NewAdmitted(t, c);
    Refreshed(calls, n, Entry(true, c.peer, 0, 0), t);
    VictimDisplaces(calls, n, t, j, t[v := Stamped(Entry(true, c.peer, 0, 0), c.kind, c.at)]);
  }

  /** The victim is older than the other entries, and no older than its latest accepted call. */
  lemma VictimOldest(calls: seq<Call>, n: nat, t: Table, j: nat)
    requires Ticking(calls) && n < |calls| && TableOk(calls, n, t) && j < n && AcceptedOf(calls, j, calls[j].peer)
    requires Holds(t[Victim(t)], calls[j].peer)
    ensures forall i :: 0 <= i < |t| && i != Victim(t) ==> t[i].used && Recency(t[i]) > calls[j].at
  {
    var v := Victim(t);
    assert EntryOk(calls, n, t[v]);
    RecencyOf(calls, n, t[v], j);
    forall i | 0 <= i < |t| && i != v
      ensures t[i].used && Recency(t[i]) > Recency(t[v])
    {
      Evicted(calls, n, t, i);
    }
  }

  lemma EntryLost(t: Table, u: Table, v: nat, p: Addr)
    requires v < |t| == |u| && u == t[v := u[v]] && InTable(t, p) && !InTable(u, p)
    ensures Holds(t[v], p)
  {
    var k := IndexOf(t, p);
    assert Holds(t[k], p) && !Holds(u[k], p);
  }

  lemma {:induction false} VictimDisplaces(calls: seq<Call>, n: nat, t: Table, j: nat, u: Table)
    requires Ticking(calls) && n < |calls| && TableOk(calls, n, t) && j < n && AcceptedOf(calls, j, calls[j].peer)
    requires |u| == |t| && u == t[Victim(t) := u[Victim(t)]]
    requires u[Victim(t)].used && Recency(u[Victim(t)]) == calls[n].at
    ensures Displaced(calls, n + 1, j, u)
  {
    var p, v := calls[j].peer, Victim(t);
    assert Displaced(calls, n, j, t);
    if !InTable(u, p) {
      if InTable(t, p) {
        EntryLost(t, u, v, p);
        VictimOldest(calls, n, t, j);
      }
      forall i | 0 <= i < |u|
        ensures u[i].used && Recency(u[i]) > calls[j].at
      {
        assert i != v ==> u[i] == t[i];
      }
    }
  }

  lemma {:induction false} TableOkAt(calls: seq<Call>, n: nat)
    requires Ticking(calls) && n <= |calls|
    ensures TableOk(calls, n, TableAt(calls, n))
  {
    if n > 0 {
      TableOkAt(calls, n - 1);
      if InTable(TableAt(calls, n - 1), calls[n - 1].peer) {
        FoundStep(calls, n - 1, TableAt(calls, n - 1));
      } else {
        NewStep(calls, n - 1, TableAt(calls, n - 1));
      }
    }
  }

  lemma {:induction false} EntriesAreRecent(calls: seq<Call>, n: nat, a: Addr)
    requires Ticking(calls) && n <= |calls| && InTable(TableAt(calls, n), a)
    ensures Recent(calls, n, a)
  {
    TableOkAt(calls, n);
    var t := TableAt(calls, n);
    var k := IndexOf(t, a);
    assert EntryOk(calls, n, t[k]);
    var j: nat :| LatestOf(calls, n, a, j) && Recency(t[k]) == calls[j].at;
    var others := OthersBetween(calls, a, j, n);
    forall q | q in others
      ensures exists i :: 0 <= i < |t| && i != k && t[i].addr == q
    {
      var m :| j < m < n && Accepted(calls, m) && calls[m].peer == q;
      assert Displaced(calls, n, m, t) && calls[j].at < calls[m].at;
      assert InTable(t, q) && Holds(t[IndexOf(t, q)], q);
    }
    FewAddresses(t, k, others);
  }

  /** At most three addresses fit beside entry `k`. */
  lemma FewAddresses(t: Table, k: nat, s: set<Addr>)
    requires |t| == ENTRIES && k < |t|
    requires forall q :: q in s ==> exists i :: 0 <= i < |t| && i != k && t[i].addr == q
    ensures |s| < ENTRIES
  {
    var x, y, z := t[(k + 1) % 4].addr, t[(k + 2) % 4].addr, t[(k + 3) % 4].addr;
    assert s <= {x, y, z};
    SubsetSize(s, {x, y, z});
    assert |{x} + {y} + {z}| <= 3;
    assert {x, y, z} == {x} + {y} + {z};
  }

  /** A full table holds four different addresses. */
  lemma FourAddresses(t: Table, s: set<Addr>)
    requires |t| == ENTRIES && Distinct(t)
    requires forall i :: 0 <= i < |t| ==> t[i].used && t[i].addr in s
    ensures |s| >= ENTRIES
  {
    var x, y := {t[0].addr, t[1].addr}, {t[2].addr, t[3].addr};
    assert t[0].addr != t[1].addr && t[2].addr != t[3].addr;
    assert |x| == 2 && |y| == 2 && x !! y && |x + y| == 4;
    SubsetSize(x + y, s);
  }

  /** An entry more recent than call `j` belongs to a peer accepted after it. */
  lemma NewerEntry(calls: seq<Call>, n: nat, a: Addr, j: nat, e: Entry)
    requires Ticking(calls) && j < n <= |calls| && e.used && e.addr != a && EntryOk(calls, n, e)
    requires Recency(e) > calls[j].at
    ensures e.addr in OthersBetween(calls, a, j, n)
  {
    var m: nat :| LatestOf(calls, n, e.addr, m) && Recency(e) == calls[m].at;
    assert j < m < n && Accepted(calls, m) && calls[m].peer != a;
  }

  lemma DisplacedByFour(calls: seq<Call>, n: nat, a: Addr, j: nat)
    requires Ticking(calls) && LatestOf(calls, n, a, j) && !InTable(TableAt(calls, n), a)
    ensures |OthersBetween(calls, a, j, n)| >= ENTRIES
  {
    TableOkAt(calls, n);
    var t := TableAt(calls, n);
    assert Displaced(calls, n, j, t);
    forall i | 0 <= i < |t|
      ensures t[i].addr in OthersBetween(calls, a, j, n)
    {
      assert EntryOk(calls, n, t[i]) && !Holds(t[i], a);
      NewerEntry(calls, n, a, j, t[i]);
    }
    FourAddresses(t, OthersBetween(calls, a, j, n));
  }

  lemma RecentAreEntries(calls: seq<Call>, n: nat, a: Addr)
    requires Ticking(calls) && n <= |calls| && Recent(calls, n, a)
    ensures InTable(TableAt(calls, n), a)
  {
    var j: nat :| LatestOf(calls, n, a, j) && |OthersBetween(calls, a, j, n)| < ENTRIES;
    if !InTable(TableAt(calls, n), a) { DisplacedByFour(calls, n, a, j); }
  }

  /** Exact LRU: a peer has a slot if and only if fewer than four other peers had an accepted call since its
      own latest one. */
  lemma TableIsLru(calls: seq<Call>, n: nat, a: Addr)
    requires Ticking(calls) && n <= |calls|
    ensures InTable(TableAt(calls, n), a) <==> Recent(calls, n, a)
  {
    if InTable(TableAt(calls, n), a) { EntriesAreRecent(calls, n, a); }
    if Recent(calls, n, a) { RecentAreEntries(calls, n, a); }
  }

  // ---------- which calls are dropped ----------

  /** `a` keeps its slot from call `j` on, up to the table before call `n`. */
  ghost predicate Stays(calls: seq<Call>, j: nat, n: nat, a: Addr)
    requires n <= |calls|
  {
    forall m: nat :: j < m <= n ==> InTable(TableAt(calls, m), a)
  }

  /** Call `j` is accepted, of that peer, kind and time, and its peer kept its slot since. */
  ghost predicate Stamps(calls: seq<Call>, j: nat, n: nat, a: Addr, k: Kind, at: int)
    requires n <= |calls|
  {
    j < n && AcceptedOf(calls, j, a) && calls[j].kind == k && calls[j].at == at && Stays(calls, j, n, a)
  }

  /** A stamp is the time of an accepted call of that kind whose peer kept its slot since. */
  ghost predicate StampOk(calls: seq<Call>, n: nat, e: Entry, k: Kind)
    requires n <= |calls|
  {
    e.used && Last(e, k) != 0 ==> exists j: nat :: Stamps(calls, j, n, e.addr, k, Last(e, k))
  }

  lemma StampStays(calls: seq<Call>, n: nat, e: Entry, k: Kind)
    requires n < |calls| && e.used && StampOk(calls, n, e, k) && InTable(TableAt(calls, n + 1), e.addr)
    ensures StampOk(calls, n + 1, e, k)
  {
    hide TableAt;
    if Last(e, k) != 0 {
      var j: nat :| Stamps(calls, j, n, e.addr, k, Last(e, k));
      assert Stamps(calls, j, n + 1, e.addr, k, Last(e, k));
    }
  }

  lemma StampsNext(calls: seq<Call>, n: nat, t: Table, u: Table, i: nat, k: Kind)
    requires 0 < n <= |calls| && i < ENTRIES && t == TableAt(calls, n - 1) && u == TableAt(calls, n)
    requires StampOk(calls, n - 1, t[i], k)
    ensures StampOk(calls, n, u[i], k)
  {
    var c := calls[n - 1];
    var v := if InTable(t, c.peer) then IndexOf(t, c.peer) else Victim(t);
    if !InTable(t, c.peer) { NewAdmitted(t, c); }
    if u[i].used { UsedIn(calls, n, u, i); }
    if i != v {
      assert u[i] == t[i];
      if u[i].used { StampStays(calls, n - 1, u[i], k); }
    } else if Accepted(calls, n - 1) && k == c.kind {
      assert Stays(calls, n - 1, n, u[i].addr);
      assert Stamps(calls, n - 1, n, u[i].addr, k, c.at);
    } else if InTable(t, c.peer) {
      assert Last(u[i], k) == Last(t[i], k);
      StampStays(calls, n - 1, t[i], k);
    }
  }

  lemma {:induction false} StampsOkAt(calls: seq<Call>, n: nat, i: nat, k: Kind)
    requires n <= |calls| && i < ENTRIES
    ensures StampOk(calls, n, TableAt(calls, n)[i], k)
  {
    if n > 0 {
      StampsOkAt(calls, n - 1, i, k);
      StampsNext(calls, n, TableAt(calls, n - 1), TableAt(calls, n), i, k);
    }
  }

  lemma UsedIn(calls: seq<Call>, n: nat, t: Table, i: nat)
    requires n <= |calls| && t == TableAt(calls, n) && i < |t| && t[i].used
    ensures InTable(TableAt(calls, n), t[i].addr)
  {
    assert Holds(t[i], t[i].addr);
  }

  /** `a` has a slot whose stamp for `k` is at least `at`. */
  predicate StampedSince(t: Table, a: Addr, k: Kind, at: int) {
    InTable(t, a) && Last(t[IndexOf(t, a)], k) >= at
  }

  /** No peer has two entries, whatever the timer reads. */
  lemma {:induction false} TableDistinct(calls: seq<Call>, n: nat)
    requires n <= |calls|
    ensures Distinct(TableAt(calls, n))
  {
    if n > 0 {
      TableDistinct(calls, n - 1);
      StaysDistinct(TableAt(calls, n - 1), calls[n - 1]);
    }
  }

  lemma StaysDistinct(t: Table, c: Call)
    requires |t| == ENTRIES && Distinct(t)
    ensures Distinct(After(t, c))
  {
    var u := WithSlot(t, c.peer);
    assert Distinct(u) by {
      assert !InTable(t, c.peer) ==> forall i :: 0 <= i < |t| ==> !Holds(t[i], c.peer);
    }
  }

  /** While a peer keeps its slot, its stamp is at least as late as any of its accepted calls. */
  lemma {:induction false} StampAtLeast(calls: seq<Call>, j: nat, n: nat, a: Addr, k: Kind, at: int)
    requires j < n <= |calls| && calls[j] == Call(a, k, at) && Accepted(calls, j)
    requires Steady(calls) && Stays(calls, j, n, a)
    ensures StampedSince(TableAt(calls, n), a, k, at)
  {
    if j < n - 1 {
      StampAtLeast(calls, j, n - 1, a, k, at);
      StampNext(calls, n, a, k, at, j);
    } else {
      StampSet(calls, j);
    }
  }

  lemma StampSet(calls: seq<Call>, j: nat)
    requires j < |calls| && Accepted(calls, j)
    ensures StampedSince(TableAt(calls, j + 1), calls[j].peer, calls[j].kind, calls[j].at)
  {
    TableDistinct(calls, j);
    AdmittedStamps(TableAt(calls, j), calls[j]);
  }

  lemma StampNext(calls: seq<Call>, n: nat, a: Addr, k: Kind, at: int, j: nat)
    requires Steady(calls) && j < n - 1 < |calls| && calls[j].at == at
    requires StampedSince(TableAt(calls, n - 1), a, k, at) && InTable(TableAt(calls, n), a)
    ensures StampedSince(TableAt(calls, n), a, k, at)
  {
    assert at <= calls[n - 1].at;
    TableDistinct(calls, n - 1);
    StampGrows(TableAt(calls, n - 1), calls[n - 1], a, k, at);
  }

  lemma StampGrows(t: Table, c: Call, a: Addr, k: Kind, at: int)
    requires |t| == ENTRIES && Distinct(t) && StampedSince(t, a, k, at) && InTable(After(t, c), a) && at <= c.at
    ensures StampedSince(After(t, c), a, k, at)
  {
    OtherSlotsKeep(t, c, a);
  }

  lemma AdmittedStamps(t: Table, c: Call)
    requires |t| == ENTRIES && Distinct(t) && Admits(t, c)
    ensures StampedSince(After(t, c), c.peer, c.kind, c.at)
  {
    var w := WithSlot(t, c.peer);
    IndexSame(w, After(t, c), c.peer, IndexOf(w, c.peer));
  }

  lemma OtherSlotsKeep(t: Table, c: Call, a: Addr)
    requires |t| == ENTRIES && Distinct(t) && InTable(t, a) && InTable(After(t, c), a)
    ensures var e, f := t[IndexOf(t, a)], After(t, c)[IndexOf(After(t, c), a)];
            f == if c.peer == a && Admits(t, c) then Stamped(e, c.kind, c.at) else e
  {
    var u := After(t, c);
    var k := IndexOf(t, a);
    if InTable(t, c.peer) {
      IndexSame(t, u, a, k);
    } else {
      NewAdmitted(t, c);
      var v := Victim(t);
      assert forall i :: 0 <= i < |t| && i != v ==> u[i] == t[i];
      assert k != v ==> Holds(u[k], a);
      var m := IndexOf(u, a);
      assert Holds(u[m], a) && m != v && Holds(t[m], a);
    }
  }

  lemma IndexSame(t: Table, u: Table, a: Addr, k: nat)
    requires |t| == |u| && k == IndexOf(t, a)
    requires forall i :: 0 <= i < |t| ==> t[i].used == u[i].used && t[i].addr == u[i].addr
    ensures IndexOf(u, a) == k
  {
    assert forall i :: 0 <= i < |t| ==> Holds(t[i], a) == Holds(u[i], a);
  }

  /** Whatever the clock does, an event is dropped only if its peer had an accepted event of the same kind
      less than 10 s earlier and kept its slot since. */
  lemma DroppedOnlyAfter(calls: seq<Call>, k: nat)
    requires k < |calls| && !Accepted(calls, k)
    ensures exists j: nat :: j < k && AcceptedOf(calls, j, calls[k].peer) && calls[j].kind == calls[k].kind
                             && calls[k].at - calls[j].at < 10_000_000 && Stays(calls, j, k, calls[k].peer)
  {
    var c, t := calls[k], TableAt(calls, k);
    if !InTable(t, c.peer) { NewAdmitted(t, c); }
    var i := IndexOf(t, c.peer);
    StampsOkAt(calls, k, i, c.kind);
    var j: nat :| Stamps(calls, j, k, c.peer, c.kind, Last(t[i], c.kind));
  }

  /** Exactly which BLE events are dropped: those whose peer had an accepted event of the same kind less
      than 10 s earlier and was, ever since, among the four most recent peers. */
  lemma DroppedExactly(calls: seq<Call>, k: nat)
    requires Steady(calls) && k < |calls|
    ensures !Accepted(calls, k) <==>
            exists j: nat :: j < k && AcceptedOf(calls, j, calls[k].peer) && calls[j].kind == calls[k].kind
                             && calls[k].at - calls[j].at < 10_000_000 && Stays(calls, j, k, calls[k].peer)
  {
    var c, t := calls[k], TableAt(calls, k);
    if !Accepted(calls, k) { DroppedOnlyAfter(calls, k); }
    forall j: nat | j < k && AcceptedOf(calls, j, c.peer) && calls[j].kind == c.kind
                    && c.at - calls[j].at < WINDOW_US && Stays(calls, j, k, c.peer)
      ensures !Accepted(calls, k)
    {
      StampAtLeast(calls, j, k, c.peer, c.kind, calls[j].at);
      StampPast(calls, k, IndexOf(t, c.peer), c.kind);
    }
  }

  /** A stamp is no younger than the next call. */
  lemma StampPast(calls: seq<Call>, k: nat, i: nat, kind: Kind)
    requires Steady(calls) && k < |calls| && i < ENTRIES && TableAt(calls, k)[i].used
    ensures Last(TableAt(calls, k)[i], kind) <= calls[k].at
  {
    StampsOkAt(calls, k, i, kind);
    var e := TableAt(calls, k)[i];
    if Last(e, kind) != 0 {
      var j: nat :| Stamps(calls, j, k, e.addr, kind, Last(e, kind));
      assert calls[j].at <= calls[k].at;
    }
  }

  /** Two accepted events of one peer and kind less than 10 s apart: at least four other peers were accepted
      in between, and pushed it out of the table. */
  lemma CloseEventsNeedFourOthers(calls: seq<Call>, j: nat, k: nat)
    requires Ticking(calls) && j < k < |calls| && Accepted(calls, j) && Accepted(calls, k)
    requires calls[j].peer == calls[k].peer && calls[j].kind == calls[k].kind
    requires calls[k].at - calls[j].at < 10_000_000
    ensures |OthersBetween(calls, calls[k].peer, j, k)| >= 4
  {
    var a := calls[k].peer;
    DroppedExactly(calls, k);
    assert AcceptedOf(calls, j, a) && !Stays(calls, j, k, a);
    var m: nat :| j < m <= k && !InTable(TableAt(calls, m), a);
    var i := LatestBefore(calls, m, a, j);
    TableIsLru(calls, m, a);
    assert LatestOf(calls, m, a, i);
    assert OthersBetween(calls, a, i, m) <= OthersBetween(calls, a, j, k);
    SubsetSize(OthersBetween(calls, a, i, m), OthersBetween(calls, a, j, k));
  }

  lemma LatestBefore(calls: seq<Call>, n: nat, a: Addr, j: nat) returns (i: nat)
    requires j < n <= |calls| && AcceptedOf(calls, j, a)
    ensures j <= i && LatestOf(calls, n, a, i)
  {
    i := n - 1;
    while !AcceptedOf(calls, i, a)
      decreases i
      invariant j <= i < n
      invariant forall m :: i < m < n ==> !AcceptedOf(calls, m, a)
    {
      i := i - 1;
    }
  }

  /** The table is no stricter than an unbounded record of accepted times: an event that has no event of its
      peer and kind within the last 10 s is never dropped. */
  lemma NeverDroppedAfterWindow(calls: seq<Call>, k: nat)
    requires k < |calls|
    requires forall j :: 0 <= j < k && calls[j].peer == calls[k].peer && calls[j].kind == calls[k].kind
                         ==> calls[k].at - calls[j].at >= 10_000_000
    ensures Accepted(calls, k)
  {
    if !Accepted(calls, k) { DroppedOnlyAfter(calls, k); }
  }
}
