/** `dd_event_latest_for_peers`: the latest stored event of several peers in one pass over the log. */
module LatestEvents {
  import opened Common
  import opened EventLines

  const MAX_PEERS := 8

  /** `peer_track_t` without the formatted address. */
  datatype Track = Track(found: bool, ts: int, mono: int, idx: int, kind: Kind)

  const NO_TRACK := Track(false, 0, 0, 0, In)

  predicate Matches(l: Line, a: Addr) {
    l.kind.Some? && l.peer == Some(a)
  }

  predicate Newer(t: Track, l: Line, idx: int) {
    if !t.found then true
    else if Ts(l) > 0 && t.ts > 0 then Ts(l) > t.ts || (Ts(l) == t.ts && Mono(l) > t.mono)
    else idx > t.idx
  }

  /** What `bulk_iter_cb` does to a peer's entry for a line of that peer. */
  function Updated(t: Track, l: Line, idx: int): Track
    requires l.kind.Some?
  {
    if Newer(t, l, idx) then Track(true, Ts(l), Mono(l), idx, l.kind.value) else t
  }

  /** The scan for one peer alone over the first `n` lines. */
  function Scan(lines: seq<Line>, n: nat, a: Addr): Track
    requires n <= |lines|
  {
    if n == 0 then NO_TRACK
    else
      var t := Scan(lines, n - 1, a);
      if Matches(lines[n - 1], a) then Updated(t, lines[n - 1], n) else t
  }

  /** Index of the first tracked peer with the line's address, or `n`. */
  function FirstPeer(peers: seq<Addr>, n: nat, a: Addr): (k: nat)
    requires n <= |peers|
    ensures k <= n
    ensures k < n ==> peers[k] == a
    ensures forall j :: 0 <= j < k ==> peers[j] != a
  {
    if n == 0 then 0
    else
      var k := FirstPeer(peers, n - 1, a);
      if k < n - 1 || peers[n - 1] == a then k else n
  }

  /** Peer `i` is not listed before. */
  predicate FirstListed(peers: seq<Addr>, i: nat)
    requires i < |peers|
  {
    forall j :: 0 <= j < i ==> peers[j] != peers[i]
  }

  /** `has_event` and `type` of the result. */
  datatype Latest = Latest(hasEvent: bool, kind: Kind)

  function LatestOf(lines: seq<Line>, a: Addr): Latest {
    var t := Scan(lines, |lines|, a);
    Latest(t.found, t.kind)
  }

  /** One pass for all peers gives each of them what a scan for it alone would; a repeated address gets its
      answer at its first position only. Beyond eight peers the entries are left untouched. */
  method LatestForPeers(lines: seq<Line>, peers: seq<Addr>, out: array<Latest>) returns (ok: bool)
    requires out.Length == |peers|
    modifies out
    ensures ok == (peers != [])
    ensures forall i :: 0 <= i < |peers| && i < 8 ==>
              out[i] == if FirstListed(peers, i) then LatestOf(lines, peers[i]) else Latest(false, In)
    ensures forall i :: 8 <= i < |peers| ==> out[i] == old(out[i])
  {
    if peers == [] { return false; }
    var n := if |peers| > MAX_PEERS then MAX_PEERS else |peers|;
    var track := new Track[MAX_PEERS](_ => NO_TRACK);
    for m := 0 to |lines|
      invariant forall i :: 0 <= i < n ==>
                  track[i] == if FirstListed(peers, i) then Scan(lines, m, peers[i]) else NO_TRACK
      invariant out[..] == old(out[..])
    {
      var l := lines[m];
      assert forall a: Addr :: Scan(lines, m + 1, a)
                            == if Matches(l, a) then Updated(Scan(lines, m, a), l, m + 1) else Scan(lines, m, a);
      if l.kind.Some? && l.peer.Some? {
        var hit := 0;
        while hit < n && peers[hit] != l.peer.value
          invariant hit <= n
          invariant forall j :: 0 <= j < hit ==> peers[j] != l.peer.value
        {
          hit := hit + 1;
        }
        if hit < n {
          assert FirstListed(peers, hit);
          track[hit] := Updated(track[hit], l, m + 1);
        }
      }
    }
    ghost var tracked := track[..];
    for i := 0 to n
      invariant track[..] == tracked
      invariant forall j :: 0 <= j < i ==>
                  out[j] == if FirstListed(peers, j) then LatestOf(lines, peers[j]) else Latest(false, In)
      invariant forall j :: i <= j < |peers| ==> out[j] == old(out[j])
    {
      out[i] := Latest(track[i].found, track[i].kind);
    }
    return true;
  }

  // ---------- which line wins ----------

  /** `(ts, mono)` of line `x` is lexicographically greater than that of line `y`. */
  predicate Later(x: Line, y: Line) {
    Ts(x) > Ts(y) || (Ts(x) == Ts(y) && Mono(x) > Mono(y))
  }

  /** One past the peer's last line without a known time, among the first `n`; 0 if there is none. */
  function PastUnsynced(lines: seq<Line>, n: nat, a: Addr): (z: nat)
    requires n <= |lines|
    ensures z <= n
    ensures z > 0 ==> Matches(lines[z - 1], a) && Ts(lines[z - 1]) <= 0
    ensures forall m :: z <= m < n && Matches(lines[m], a) ==> Ts(lines[m]) > 0
  {
    if n == 0 then 0
    else if Matches(lines[n - 1], a) && Ts(lines[n - 1]) <= 0 then n
    else PastUnsynced(lines, n - 1, a)
  }

  /** Line `w` is the peer's answer: among its lines after the last unsynced one it has the greatest
      (ts, mono_us), the earliest on ties; without such lines it is the last unsynced line itself. */
  ghost predicate Wins(lines: seq<Line>, n: nat, a: Addr, w: nat)
    requires n <= |lines|
  {
    var z := PastUnsynced(lines, n, a);
    && w < n && Matches(lines[w], a)
    && if w >= z then
         && (forall m :: z <= m < n && Matches(lines[m], a) ==> !Later(lines[m], lines[w]))
         && (forall m :: z <= m < w && Matches(lines[m], a) ==> Later(lines[w], lines[m]))
       else
         w == z - 1 && forall m :: z <= m < n ==> !Matches(lines[m], a)
  }

  /** The winner is unique. */
  lemma OneWinner(lines: seq<Line>, n: nat, a: Addr, v: nat, w: nat)
    requires n <= |lines| && Wins(lines, n, a, v) && Wins(lines, n, a, w)
    ensures v == w
  {
  }

  /** What the scan's entry says once the peer has a line. */
  ghost predicate Remembers(lines: seq<Line>, n: nat, a: Addr, t: Track)
    requires n <= |lines|
  {
    1 <= t.idx <= n && Wins(lines, n, a, t.idx - 1) &&
    var l := lines[t.idx - 1];
    t == Track(true, Ts(l), Mono(l), t.idx, l.kind.value)
  }

  /** The scan finds a winner whenever the peer has a line at all, and remembers it. */
  lemma {:induction false} ScanFindsWinner(lines: seq<Line>, n: nat, a: Addr)
    requires n <= |lines|
    ensures var t := Scan(lines, n, a);
            if t.found then Remembers(lines, n, a, t)
            else forall m :: 0 <= m < n ==> !Matches(lines[m], a)
  {
    if n > 0 {
      ScanFindsWinner(lines, n - 1, a);
    }
  }

  /** The lookup answers with the winner's type. */
  lemma LatestIsWinner(lines: seq<Line>, a: Addr, w: nat)
    requires Wins(lines, |lines|, a, w)
    ensures LatestOf(lines, a) == Latest(true, lines[w].kind.value)
  {
    ScanFindsWinner(lines, |lines|, a);
    OneWinner(lines, |lines|, a, Scan(lines, |lines|, a).idx - 1, w);
  }

  /** With all times known, the answer is the line with the greatest (ts, mono_us), the earliest on ties. */
  lemma SyncedLookup(lines: seq<Line>, a: Addr, w: nat)
    requires w < |lines| && Matches(lines[w], a)
    requires forall m :: 0 <= m < |lines| && Matches(lines[m], a) ==> Ts(lines[m]) > 0
    requires forall m :: 0 <= m < |lines| && Matches(lines[m], a) ==> !Later(lines[m], lines[w])
    requires forall m :: 0 <= m < w && Matches(lines[m], a) ==> Later(lines[w], lines[m])
    ensures LatestOf(lines, a) == Latest(true, lines[w].kind.value)
  {
    LatestIsWinner(lines, a, w);
  }

  /** If the peer's last line was written without a known time, that line is the answer. */
  lemma UnsyncedLookup(lines: seq<Line>, a: Addr, w: nat)
    requires w < |lines| && Matches(lines[w], a) && Ts(lines[w]) <= 0
    requires forall m :: w < m < |lines| ==> !Matches(lines[m], a)
    ensures LatestOf(lines, a) == Latest(true, lines[w].kind.value)
  {
    LatestIsWinner(lines, a, w);
  }
}
