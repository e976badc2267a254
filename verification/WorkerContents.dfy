/** What each operation does to the workers themselves: who is there afterwards, under which id, and what is said of
    them, in RAM and after a reboot. */
module WorkerContents {
  import opened Common
  import opened JsonText
  import opened Workers
  import opened WorkersReboot
  import R = EventReader

  /** The workers by their ids. */
  ghost predicate IsContents(ram: seq<Worker>, m: map<nat, Worker>) {
    (forall id :: id in m <==> exists i :: 0 <= i < |ram| && ram[i].id == id)
    && forall i :: 0 <= i < |ram| ==> ram[i].id in m && m[ram[i].id] == ram[i]
  }

  /** `m` are the workers in RAM, in the store, and after a reboot. */
  ghost predicate Contains(r: Registry, m: map<nat, Worker>) {
    IsContents(r.ram, m) && r.kv == m && IsContents(Reboot(r).ram, m)
  }

  lemma SameContents(x: seq<Worker>, y: seq<Worker>, m: map<nat, Worker>)
    requires IsContents(x, m) && forall w :: w in x <==> w in y
    ensures IsContents(y, m)
  {
    forall i | 0 <= i < |y|
      ensures y[i].id in m && m[y[i].id] == y[i]
    {
      assert y[i] in x;
      var j :| 0 <= j < |x| && x[j] == y[i];
    }
    forall id | id in m
      ensures exists i :: 0 <= i < |y| && y[i].id == id
    {
      var j :| 0 <= j < |x| && x[j].id == id;
      assert x[j] in y;
      var i :| 0 <= i < |y| && y[i] == x[j];
      assert y[i].id == id;
    }
  }

  /** The store always holds exactly the workers in RAM, each under its own id. */
  lemma StoreContains(r: Registry)
    requires Inv(r)
    ensures Contains(r, r.kv)
  {
    forall i | 0 <= i < |r.ram|
      ensures r.ram[i].id in r.kv && r.kv[r.ram[i].id] == r.ram[i]
    {
      assert Tracked(r.ram, r.kv, i);
    }
    forall id | id in r.kv
      ensures exists i :: 0 <= i < |r.ram| && r.ram[i].id == id
    {
      assert r.ram[SlotOf(r.ram, id)].id == id;
    }
    RebootKeeps(r);
    SameContents(r.ram, Reboot(r).ram, r.kv);
  }

  /** Where a worker's slot is, and that only its own key has its id. */
  lemma KeyHasSlot(r: Registry, id: nat)
    requires Inv(r)
    ensures id in r.kv <==> SlotOf(r.ram, id) < |r.ram|
    ensures id in r.kv ==> 1 <= id < r.next && r.kv[id] == r.ram[SlotOf(r.ram, id)] && r.kv[id].id == id
  {
    if id in r.kv { KeysInRange(r, id); }
    if SlotOf(r.ram, id) < |r.ram| { assert Tracked(r.ram, r.kv, SlotOf(r.ram, id)); }
  }

  lemma HasKey(r: Registry, i: nat)
    requires Inv(r) && i < |r.ram|
    ensures r.ram[i].id in r.kv && r.kv[r.ram[i].id] == r.ram[i] && r.ram[i].id != 0
  {
    assert Tracked(r.ram, r.kv, i);
  }

  lemma RamBounds(r: Registry)
    requires Inv(r)
    ensures |r.ram| <= 32 && 1 <= r.next < ID_SPAN
  {
  }

  /** A deleted worker is gone from RAM and from the store, and nobody else is touched. */
  lemma DeleteRemoves(r: Registry, id: nat)
    requires Inv(r)
    ensures Contains(Delete(r, id), r.kv - {id}) && Delete(r, id).next == r.next
  {
    hide Inv, Contains;
    DeleteKeeps(r, id);
    KeyHasSlot(r, id);
    StoreContains(Delete(r, id));
    assert Delete(r, id).kv == r.kv - {id};
  }

  /** At most so many characters of a new text, or the old one. */
  predicate Takes(s: string, given: Option<string>, was: string, most: nat) {
    match given
    case None => s == was
    case Some(t) => s <= t && |s| == if |t| < most then |t| else most
  }

  /** An update changes the name and the category of that worker alone, each to its own argument if there is one;
      a blank name and an unknown id change nothing. */
  lemma UpdateChanges(r: Registry, id: nat, name: Option<string>, category: Option<string>)
    requires Inv(r)
    ensures var t := Update(r, id, name, category);
            var blank := name.Some? && forall c :: c in name.value ==> c == ' ' || c == '\t';
            if blank || id !in r.kv then t == r
            else
              && t.next == r.next && id in t.kv && Contains(t, r.kv[id := t.kv[id]])
              && t.kv[id] == r.kv[id].(name := t.kv[id].name, category := t.kv[id].category)
              && Takes(t.kv[id].name, name, r.kv[id].name, 31)
              && Takes(t.kv[id].category, category, r.kv[id].category, 15)
  {
    hide Inv, Contains, IsBlank;
    KeyHasSlot(r, id);
    BlankIs(name);
    UpdateKeeps(r, id, name, category);
    StoreContains(Update(r, id, name, category));
  }

  lemma BlankIs(name: Option<string>)
    ensures name.Some? && (forall c :: c in name.value ==> c == ' ' || c == '\t')
            <==> name.Some? && IsBlank(name.value)
  {
    if name.Some? && !IsBlank(name.value) {
      var i :| 0 <= i < |name.value| && name.value[i] != ' ' && name.value[i] != '\t';
      assert name.value[i] in name.value;
    }
  }

  /** A new worker's name ends in its id and the last byte of its address, in hexadecimal digits. */
  predicate Stub(name: string, id: nat, addr: Addr) {
    |name| == 14 && name[..8] == "Unnamed_"
    && R.HexValue(name[8..12]) == Some(id) && R.HexValue(name[12..]) == Some(addr.b5 as nat)
  }

  lemma HexSum(n: nat)
    requires n < ID_SPAN
    ensures 4096 * (n / 4096) + 256 * (n / 256 % 16) + 16 * (n / 16 % 16) + n % 16 == n && n / 4096 < 16
  {
    assert n / 256 == n / 16 / 16 && n / 4096 == n / 256 / 16;
  }

  lemma Hex4Is(id: nat)
    requires id < ID_SPAN
    ensures |Hex4(id)| == 4 && R.HexValue(Hex4(id)) == Some(id)
  {
    hide R.HexValue, R.HexOf, HexDigit;
    HexSum(id);
    assert id % ID_SPAN == id;
    HexIs(id / 4096);
    HexIs(id / 256 % 16);
    HexIs(id / 16 % 16);
    HexIs(id % 16);
    R.FourDigits(HexDigit(id / 4096), HexDigit(id / 256 % 16), HexDigit(id / 16 % 16), HexDigit(id % 16));
  }

  lemma StubIs(id: nat, addr: Addr)
    requires id < ID_SPAN
    ensures Stub(StubName(id, addr), id, addr)
  {
    hide R.HexValue, R.HexOf, Hex4, HexDigit;
    var b := addr.b5 as nat;
    Hex4Is(id);
    HexIs(b / 16);
    HexIs(b % 16);
    TwoDigits(HexDigit(b / 16), HexDigit(b % 16));
    StubParts(Hex4(id), [HexDigit(b / 16), HexDigit(b % 16)]);
  }

  lemma StubParts(four: string, two: string)
    requires |four| == 4 && |two| == 2
    ensures var s := "Unnamed_" + four + two; |s| == 14 && s[..8] == "Unnamed_" && s[8..12] == four && s[12..] == two
  {
  }

  lemma HexIs(d: nat)
    requires d < 16
    ensures R.HexOf(HexDigit(d)) == Some(d)
  {
  }

  lemma TwoDigits(a: char, b: char)
    requires R.HexOf(a).Some? && R.HexOf(b).Some?
    ensures R.HexValue([a, b]) == Some(16 * R.HexOf(a).value + R.HexOf(b).value)
  {
    assert [] + [a] == [a] && [a] + [b] == [a, b];
    R.HexPush([], a);
    R.HexPush([a], b);
  }

  ghost predicate Registered(r: Registry, addr: Addr) {
    exists id :: id in r.kv && r.kv[id].addr == addr
  }

  /** An address that somebody has is looked up; a new one gets the next id and a stub name if there is room; nobody
      else is touched. */
  lemma LookupAdds(r: Registry, addr: Addr, now: int)
    requires Inv(r) && Legal(r, DoLookup(addr, now))
    ensures var t, id := LookupOrCreate(r, addr, now), LookupResult(r, addr);
            if Registered(r, addr) then t == r && id in r.kv && r.kv[id].addr == addr
            else if |r.ram| == 32 then t == r && id == 0
            else
              && id == r.next && id !in r.kv && t.next == r.next + 1
              && id in t.kv && Contains(t, r.kv[id := t.kv[id]])
              && t.kv[id] == Worker(id, addr, t.kv[id].name, "", now) && Stub(t.kv[id].name, id, addr)
  {
    hide Inv, Contains, StubName, Stub;
    var i := SlotAt(r.ram, addr);
    RamBounds(r);
    if i < |r.ram| {
      HasKey(r, i);
    } else {
      NotRegistered(r, addr);
      KeyHasSlot(r, r.next);
      if |r.ram| < MAX_WORKERS {
        StubIs(r.next, addr);
        CreateKeeps(r, addr, now);
        StoreContains(Create(r, addr, now));
      }
    }
  }

  lemma NotRegistered(r: Registry, addr: Addr)
    requires Inv(r) && SlotAt(r.ram, addr) == |r.ram|
    ensures !Registered(r, addr)
  {
    forall id | id in r.kv
      ensures r.kv[id].addr != addr
    {
      KeyHasSlot(r, id);
    }
  }

  /** A restored worker is there as it was, under its own id; nobody else is touched, and the next id is above it. */
  lemma RestorePuts(r: Registry, w: Worker)
    requires Inv(r) && Legal(r, DoRestore(w))
    ensures var t := Restore(r, w);
            if w.id == 0 || (w.id !in r.kv && |r.ram| == 32) then t == r
            else Contains(t, r.kv[w.id := w]) && t.next == if w.id < r.next then r.next else w.id + 1
  {
    hide Inv, Contains;
    RamBounds(r);
    KeyHasSlot(r, w.id);
    RestoreKeeps(r, w);
    StoreContains(Restore(r, w));
  }

  /** A wipe leaves nobody, and ids start at 1 again. */
  lemma WipeEmpties(r: Registry)
    requires Inv(r)
    ensures Contains(Wipe(r), map[]) && Wipe(r).next == 1
  {
    WipeKeeps(r);
    StoreContains(Wipe(r));
  }
}
