/** The registry in RAM and what a reboot makes of the store agree after every run. */
module WorkersReboot {
  import opened Common
  import opened Workers

  // ---------- each operation keeps the invariant ----------

  lemma HasSlot(ram: seq<Worker>, id: nat, j: nat)
    requires j < |ram| && ram[j].id == id
    ensures SlotOf(ram, id) <= j && (DistinctIds(ram) ==> SlotOf(ram, id) == j)
  {
  }

  /** Appending a worker with a new id. */
  lemma PushMirrors(ram: seq<Worker>, kv: map<nat, Worker>, w: Worker)
    requires DistinctIds(ram) && Mirrors(ram, kv) && SlotOf(ram, w.id) == |ram|
    ensures DistinctIds(ram + [w]) && Mirrors(ram + [w], kv[w.id := w])
  {
    var ram', kv' := ram + [w], kv[w.id := w];
    forall i: nat | i < |ram'|
      ensures Tracked(ram', kv', i)
    {
      if i < |ram| { assert Tracked(ram, kv, i); }
    }
    forall id | id in kv'
      ensures SlotOf(ram', id) < |ram'|
    {
      if id == w.id {
        HasSlot(ram', id, |ram|);
      } else {
        assert ram'[SlotOf(ram, id)].id == id;
        HasSlot(ram', id, SlotOf(ram, id));
      }
    }
  }

  /** Overwriting the slot of a worker. */
  lemma PutMirrors(ram: seq<Worker>, kv: map<nat, Worker>, i: nat, w: Worker)
    requires DistinctIds(ram) && Mirrors(ram, kv) && i < |ram| && ram[i].id == w.id
    ensures DistinctIds(ram[i := w]) && Mirrors(ram[i := w], kv[w.id := w])
  {
    var ram', kv' := ram[i := w], kv[w.id := w];
    forall j: nat | j < |ram'|
      ensures Tracked(ram', kv', j)
    {
      assert Tracked(ram, kv, j);
    }
    forall id | id in kv'
      ensures SlotOf(ram', id) < |ram'|
    {
      var j := if id == w.id then i else SlotOf(ram, id);
      assert ram'[j].id == id;
      HasSlot(ram', id, j);
    }
  }

  /** Moving the last worker into the slot of a deleted one. */
  lemma RemoveMirrors(ram: seq<Worker>, kv: map<nat, Worker>, i: nat)
    requires DistinctIds(ram) && Mirrors(ram, kv) && i < |ram|
    ensures var last := |ram| - 1;
            DistinctIds(ram[i := ram[last]][..last]) && Mirrors(ram[i := ram[last]][..last], kv - {ram[i].id})
  {
    var last := |ram| - 1;
    var ram', kv' := ram[i := ram[last]][..last], kv - {ram[i].id};
    forall j: nat | j < |ram'|
      ensures Tracked(ram', kv', j)
    {
      assert Tracked(ram, kv, if j == i then last else j);
    }
    forall id | id in kv'
      ensures SlotOf(ram', id) < |ram'|
    {
      var j := SlotOf(ram, id);
      var k := if j == last then i else j;
      assert ram'[k].id == id;
      HasSlot(ram', id, k);
    }
  }

  lemma AddKeeps(r: Registry, w: Worker)
    requires Inv(r) && |r.ram| < MAX_WORKERS && r.next < LAST_ID && w.id == r.next && FitsStruct(w)
    ensures Inv(Registry(r.ram + [w], r.next + 1, r.kv[w.id := w], Some(r.next + 1)))
  {
    PushMirrors(r.ram, r.kv, w);
  }

  lemma CreateKeeps(r: Registry, addr: Addr, now: int)
    requires Inv(r) && |r.ram| < MAX_WORKERS && r.next < LAST_ID
    ensures Inv(Create(r, addr, now))
  {
    var w := Worker(r.next, addr, StubName(r.next, addr), "", now);
    assert FitsStruct(w);
    AddKeeps(r, w);
  }

  lemma UpdateKeeps(r: Registry, id: nat, name: Option<string>, category: Option<string>)
    requires Inv(r)
    ensures Inv(Update(r, id, name, category))
  {
    var i := SlotOf(r.ram, id);
    if UpdateAllowed(id, name) && i < |r.ram| {
      PutMirrors(r.ram, r.kv, i, Renamed(r.ram[i], name, category));
    }
  }

  lemma DeleteKeeps(r: Registry, id: nat)
    requires Inv(r)
    ensures Inv(Delete(r, id))
  {
    var i := SlotOf(r.ram, id);
    if id != 0 && i < |r.ram| { RemoveMirrors(r.ram, r.kv, i); }
  }

  lemma OverwriteKeeps(r: Registry, w: Worker, i: nat)
    requires Inv(r) && i < |r.ram| && r.ram[i].id == w.id && FitsStruct(w)
    ensures Inv(r.(ram := r.ram[i := w], kv := r.kv[w.id := w]))
  {
    PutMirrors(r.ram, r.kv, i, w);
  }

  lemma AddAnyKeeps(r: Registry, w: Worker, next: nat)
    requires Inv(r) && |r.ram| < MAX_WORKERS && SlotOf(r.ram, w.id) == |r.ram| && FitsStruct(w)
    requires 1 <= w.id < next < ID_SPAN && r.next <= next
    ensures Inv(Registry(r.ram + [w], next, r.kv[w.id := w], Some(next)))
    ensures next == r.next ==> Inv(Registry(r.ram + [w], next, r.kv[w.id := w], r.kvNext))
  {
    PushMirrors(r.ram, r.kv, w);
  }

  lemma RestoreKeeps(r: Registry, w: Worker)
    requires Inv(r) && w.id < LAST_ID && FitsStruct(w)
    ensures Inv(Restore(r, w))
  {
    var i := SlotOf(r.ram, w.id);
    if i < |r.ram| {
      OverwriteKeeps(r, w, i);
    } else if w.id != 0 && |r.ram| < MAX_WORKERS {
      AddAnyKeeps(r, w, if w.id >= r.next then w.id + 1 else r.next);
    }
  }

  lemma KeysInRange(r: Registry, id: nat)
    requires Inv(r) && id in r.kv
    ensures 1 <= id < r.next && r.kv[id].id == id && r.kv[id] in r.ram
  {
    var i := SlotOf(r.ram, id);
    assert Tracked(r.ram, r.kv, i);
  }

  lemma WipeKeeps(r: Registry)
    requires Inv(r)
    ensures Inv(Wipe(r)) && Wipe(r).kv == map[]
  {
    forall id | id in r.kv
      ensures 1 <= id < r.next
    {
      KeysInRange(r, id);
    }
  }

  // ---------- the reboot ----------

  function KeysFrom(kv: map<nat, Worker>, id: nat, next: nat): set<nat> {
    set k | k in kv.Keys && id <= k < next
  }

  function Ids(ram: seq<Worker>): (ids: set<nat>)
    ensures |ids| <= |ram| && forall i :: 0 <= i < |ram| ==> ram[i].id in ids
  {
    if ram == [] then {} else {ram[0].id} + Ids(ram[1..])
  }

  /** `ram` holds exactly the blobs under the keys from `id` up to `next`. */
  ghost predicate HoldsKeys(kv: map<nat, Worker>, id: nat, next: nat, ram: seq<Worker>) {
    (forall k :: k in kv && id <= k < next ==> kv[k] in ram)
    && (forall i: nat :: i < |ram| ==> Tracked(ram, kv, i) && id <= ram[i].id < next)
    && DistinctIds(ram)
  }

  lemma HoldsPush(kv: map<nat, Worker>, id: nat, next: nat, ram: seq<Worker>)
    requires HoldsKeys(kv, id + 1, next, ram) && id in kv && kv[id].id == id && id < next
    ensures HoldsKeys(kv, id, next, [kv[id]] + ram)
  {
    var ram' := [kv[id]] + ram;
    forall k | k in kv && id <= k < next
      ensures kv[k] in ram'
    {
      if k > id { assert kv[k] in ram; }
    }
    forall i: nat | i < |ram'|
      ensures Tracked(ram', kv, i) && id <= ram'[i].id < next
    {
      if i > 0 { assert Tracked(ram, kv, i - 1); }
    }
  }

  lemma HoldsSkip(kv: map<nat, Worker>, id: nat, next: nat, ram: seq<Worker>)
    requires HoldsKeys(kv, id + 1, next, ram) && id !in kv
    ensures HoldsKeys(kv, id, next, ram)
  {
    forall i: nat | i < |ram|
      ensures Tracked(ram, kv, i) && id <= ram[i].id < next
    {
      assert Tracked(ram, kv, i) && id + 1 <= ram[i].id;
    }
  }

  /** Every blob from `id` on is loaded if there is room for all of them. */
  lemma {:induction false} LoadsAll(kv: map<nat, Worker>, id: nat, next: nat, room: nat)
    requires forall k :: k in kv ==> kv[k].id == k
    requires |KeysFrom(kv, id, next)| <= room
    ensures HoldsKeys(kv, id, next, Loaded(kv, id, next, room))
    decreases next - id
  {
    NothingWithoutRoom(kv, id, next, room);
    if id < next && room > 0 {
      var here, behind := KeysFrom(kv, id, next), KeysFrom(kv, id + 1, next);
      if id in kv {
        assert here == {id} + behind && id !in behind;
        LoadsAll(kv, id + 1, next, room - 1);
        HoldsPush(kv, id, next, Loaded(kv, id + 1, next, room - 1));
      } else {
        assert here == behind;
        LoadsAll(kv, id + 1, next, room);
        HoldsSkip(kv, id, next, Loaded(kv, id + 1, next, room));
      }
    }
  }

  lemma NothingWithoutRoom(kv: map<nat, Worker>, id: nat, next: nat, room: nat)
    requires |KeysFrom(kv, id, next)| <= room
    ensures room == 0 ==> forall k :: k in kv ==> !(id <= k < next)
  {
    if room == 0 {
      assert KeysFrom(kv, id, next) == {};
      forall k | k in kv
        ensures !(id <= k < next)
      {
        assert k !in KeysFrom(kv, id, next);
      }
    }
  }

  /** The workers a reboot finds are those in RAM, and so is the next id. */
  ghost predicate SameAfterReboot(r: Registry) {
    (forall w :: w in r.ram <==> w in Reboot(r).ram) && Reboot(r).next == r.next
  }

  lemma RebootHoldsKeys(r: Registry)
    requires Inv(r)
    ensures Reboot(r).next == r.next && HoldsKeys(r.kv, 1, r.next, Reboot(r).ram)
  {
    forall k | k in r.kv
      ensures r.kv[k].id == k && k in Ids(r.ram)
    {
      KeysInRange(r, k);
      assert r.ram[SlotOf(r.ram, k)].id == k;
    }
    SubsetSize(KeysFrom(r.kv, 1, r.next), Ids(r.ram));
    LoadsAll(r.kv, 1, r.next, MAX_WORKERS);
  }

  lemma SameWorkers(r: Registry, ram: seq<Worker>)
    requires Inv(r) && HoldsKeys(r.kv, 1, r.next, ram)
    ensures forall w :: w in r.ram <==> w in ram
  {
    forall w | w in r.ram
      ensures w in ram
    {
      var i: nat :| i < |r.ram| && r.ram[i] == w;
      assert Tracked(r.ram, r.kv, i);
    }
    forall w | w in ram
      ensures w in r.ram
    {
      var i: nat :| i < |ram| && ram[i] == w;
      assert Tracked(ram, r.kv, i);
      KeysInRange(r, w.id);
    }
  }

  lemma HoldsMirrors(r: Registry, ram: seq<Worker>)
    requires Inv(r) && HoldsKeys(r.kv, 1, r.next, ram)
    ensures Mirrors(ram, r.kv)
  {
    forall id | id in r.kv
      ensures SlotOf(ram, id) < |ram|
    {
      KeysInRange(r, id);
      assert r.kv[id] in ram;
      var j: nat :| j < |ram| && ram[j] == r.kv[id];
      HasSlot(ram, id, j);
    }
  }

  lemma RebootKeeps(r: Registry)
    requires Inv(r)
    ensures SameAfterReboot(r) && Inv(Reboot(r))
  {
    var ram := Reboot(r).ram;
    RebootHoldsKeys(r);
    SameWorkers(r, ram);
    HoldsMirrors(r, ram);
    forall i | 0 <= i < |ram|
      ensures 1 <= ram[i].id < r.next && FitsStruct(ram[i])
    {
      assert ram[i] in r.ram;
    }
  }

  lemma StepKeeps(r: Registry, op: Op)
    requires Inv(r) && Legal(r, op)
    ensures Inv(Apply(r, op))
  {
    match op
    case DoLookup(addr, now) => if Creates(r, op) { CreateKeeps(r, addr, now); }
    case DoUpdate(id, name, category) => UpdateKeeps(r, id, name, category);
    case DoDelete(id) => DeleteKeeps(r, id);
    case DoRestore(w) => RestoreKeeps(r, w);
    case DoWipe => WipeKeeps(r);
    case DoReboot => RebootKeeps(r);
  }

  // ---------- runs ----------

  /** A device on which nothing has been stored yet. */
  const BLANK := Registry([], 1, map[], None)

  function Run(ops: seq<Op>): Registry {
    if ops == [] then BLANK else Apply(Run(ops[..|ops| - 1]), ops[|ops| - 1])
  }

  predicate LegalRun(ops: seq<Op>) {
    ops == [] || (LegalRun(ops[..|ops| - 1]) && Legal(Run(ops[..|ops| - 1]), ops[|ops| - 1]))
  }

  /** After every run a reboot finds the same workers and the same next id. */
  lemma {:induction false} RebootFindsTheSame(ops: seq<Op>)
    requires LegalRun(ops)
    ensures Inv(Run(ops)) && SameAfterReboot(Run(ops))
  {
    if ops != [] {
      RebootFindsTheSame(ops[..|ops| - 1]);
      StepKeeps(Run(ops[..|ops| - 1]), ops[|ops| - 1]);
    }
    RebootKeeps(Run(ops));
  }

  /** The ids any worker has had since the last wipe. */
  function EverUsed(ops: seq<Op>): set<nat> {
    if ops == [] || ops[|ops| - 1].DoWipe? then {}
    else EverUsed(ops[..|ops| - 1]) + Ids(Run(ops).ram)
  }

  lemma {:induction false} IdsBelow(ram: seq<Worker>, next: nat)
    requires forall i :: 0 <= i < |ram| ==> ram[i].id < next
    ensures forall id :: id in Ids(ram) ==> id < next
  {
    if ram != [] { IdsBelow(ram[1..], next); }
  }

  lemma NextGrows(r: Registry, op: Op)
    requires Inv(r) && Legal(r, op) && !op.DoWipe?
    ensures r.next <= Apply(r, op).next
  {
  }

  lemma {:induction false} UsedBelowNext(ops: seq<Op>)
    requires LegalRun(ops)
    ensures forall id :: id in EverUsed(ops) ==> id < Run(ops).next
  {
    RebootFindsTheSame(ops);
    IdsBelow(Run(ops).ram, Run(ops).next);
    if ops != [] && !ops[|ops| - 1].DoWipe? {
      var before := ops[..|ops| - 1];
      UsedBelowNext(before);
      RebootFindsTheSame(before);
      NextGrows(Run(before), ops[|ops| - 1]);
    }
  }

  /** A created worker gets an id that no worker has had since the last wipe, deleted ones included. */
  lemma NeverReused(ops: seq<Op>, addr: Addr, now: int)
    requires LegalRun(ops) && Creates(Run(ops), DoLookup(addr, now))
    ensures LookupResult(Run(ops), addr) !in EverUsed(ops) && LookupResult(Run(ops), addr) != 0
  {
    UsedBelowNext(ops);
    RebootFindsTheSame(ops);
  }

  /** Looking an address up again returns the same id and changes nothing. */
  lemma LookupStable(ops: seq<Op>, addr: Addr, now: int, later: int)
    requires LegalRun(ops) && Legal(Run(ops), DoLookup(addr, now))
    ensures var r := Run(ops);
            var r' := LookupOrCreate(r, addr, now);
            LookupResult(r, addr) != 0 ==>
              LookupResult(r', addr) == LookupResult(r, addr) && LookupOrCreate(r', addr, later) == r'
  {
    RebootFindsTheSame(ops);
    var r := Run(ops);
    if Creates(r, DoLookup(addr, now)) {
      var r' := Create(r, addr, now);
      var i := SlotAt(r'.ram, addr);
      assert r'.ram[|r.ram|].addr == addr;
      assert i == |r.ram|;
    }
  }

  // ---------- the last id ----------

  /** A created worker survives a reboot if and only if it did not get the last 16-bit id. */
  lemma CreatedSurvivesIff(r: Registry, addr: Addr, now: int)
    requires Inv(r) && |r.ram| < MAX_WORKERS
    ensures SameAfterReboot(Create(r, addr, now)) <==> r.next < LAST_ID
  {
    var r' := Create(r, addr, now);
    if r.next < LAST_ID {
      CreateKeeps(r, addr, now);
      RebootKeeps(r');
    } else {
      assert r'.ram[|r.ram|] in r'.ram;
      assert Reboot(r').ram == [];
    }
  }

  /** So does a restored one if there is room for it. */
  lemma RestoredSurvivesIff(r: Registry, w: Worker)
    requires Inv(r) && FitsStruct(w) && 0 < w.id < ID_SPAN
    requires SlotOf(r.ram, w.id) < |r.ram| || |r.ram| < MAX_WORKERS
    ensures SameAfterReboot(Restore(r, w)) <==> w.id < LAST_ID
  {
    var r' := Restore(r, w);
    if w.id < LAST_ID {
      RestoreKeeps(r, w);
      RebootKeeps(r');
    } else {
      assert r'.ram[|r.ram|] in r'.ram;
      assert Reboot(r').ram == [];
    }
  }
}
