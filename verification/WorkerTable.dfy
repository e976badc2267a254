/** The registry as the code keeps it: a fixed table of slots, updated in place and written through. */
module WorkerTable {
  import opened Common
  import W = Workers

  const EMPTY := W.Worker(0, ZERO_ADDR, "", "", 0)

  class Table {
    const slots: array<W.Worker>
    var count: nat
    var next: nat
    var kv: map<nat, W.Worker>
    var kvNext: Option<nat>

    ghost predicate Valid()
      reads this
    {
      slots.Length == W.MAX_WORKERS && count <= W.MAX_WORKERS
    }

    ghost function Model(): W.Registry
      requires Valid()
      reads this, slots
    {
      W.Registry(slots[..count], next, kv, kvNext)
    }

    /** A boot on what the key/value store holds. */
    constructor (kv: map<nat, W.Worker>, kvNext: Option<nat>)
      ensures Valid() && fresh(slots) && Model() == W.Reboot(W.Registry([], 0, kv, kvNext))
    {
      slots := new W.Worker[W.MAX_WORKERS](i => EMPTY);
      this.kv, this.kvNext := kv, kvNext;
      count, next := 0, 1;
      new;
      Init();
    }

    /** `dd_worker_init`. */
    method Init()
      requires Valid()
      modifies this, slots
      ensures Valid() && Model() == W.Reboot(old(Model()))
    {
      next := if kvNext.Some? then kvNext.value else 1;
      count := 0;
      var id := 1;
      while id < next && count < W.MAX_WORKERS
        invariant Valid() && 1 <= id && kv == old(kv) && kvNext == old(kvNext)
        invariant next == if kvNext.Some? then kvNext.value else 1
        invariant slots[..count] + W.Loaded(kv, id, next, W.MAX_WORKERS - count)
                  == W.Loaded(kv, 1, next, W.MAX_WORKERS)
        decreases next - id
      {
        if id in kv {
          ghost var before := slots[..count];
          slots[count] := kv[id];
          count := count + 1;
          assert slots[..count] == before + [kv[id]];
        }
        id := id + 1;
      }
    }

    /** The slot of an id, or `count`. */
    method FindSlot(id: nat) returns (i: nat)
      requires Valid()
      ensures i == W.SlotOf(slots[..count], id)
    {
      i := 0;
      while i < count && slots[i].id != id
        invariant 0 <= i <= count && forall j :: 0 <= j < i ==> slots[j].id != id
      {
        i := i + 1;
      }
    }

    method FindByAddr(addr: Addr) returns (id: nat)
      requires Valid()
      ensures id == W.Find(slots[..count], addr)
    {
      var i := 0;
      while i < count
        invariant 0 <= i <= count && forall j :: 0 <= j < i ==> slots[j].addr != addr
      {
        if slots[i].addr == addr {
          assert W.SlotAt(slots[..count], addr) == i;
          return slots[i].id;
        }
        i := i + 1;
      }
      id := 0;
    }

    method LookupOrCreate(addr: Addr, now: int) returns (id: nat)
      requires Valid()
      modifies this, slots
      ensures Valid() && Model() == W.LookupOrCreate(old(Model()), addr, now)
      ensures id == W.LookupResult(old(Model()), addr)
    {
      id := FindByAddr(addr);
      if id != 0 { return; }
      if count >= W.MAX_WORKERS { return 0; }
      var w := W.Worker(next, addr, W.StubName(next, addr), "", now);
      slots[count] := w;
      kv := kv[w.id := w];
      next := (next + 1) % W.ID_SPAN;
      count := count + 1;
      kvNext := Some(next);
      assert slots[..count] == old(slots[..count]) + [w];
      id := w.id;
    }

    /** The check that a new name is not blank. */
    method RejectsName(name: string) returns (blank: bool)
      ensures blank <==> W.IsBlank(name)
    {
      var i := 0;
      while i < |name| && (name[i] == ' ' || name[i] == '\t')
        invariant 0 <= i <= |name| && forall j :: 0 <= j < i ==> name[j] == ' ' || name[j] == '\t'
      {
        i := i + 1;
      }
      blank := i == |name|;
    }

    method Update(id: nat, name: Option<string>, category: Option<string>) returns (status: W.Status)
      requires Valid()
      modifies this, slots
      ensures Valid() && Model() == W.Update(old(Model()), id, name, category)
      ensures status.InvalidArg? <==> !W.UpdateAllowed(id, name)
      ensures status.NotFound? <==>
              W.UpdateAllowed(id, name) && W.SlotOf(old(slots[..count]), id) == old(count)
    {
      if id == 0 { return W.InvalidArg; }
      if name.Some? {
        var blank := RejectsName(name.value);
        if blank { return W.InvalidArg; }
      }
      var i := FindSlot(id);
      if i == count { return W.NotFound; }
      var w := slots[i];
      if name.Some? { w := w.(name := W.Cut(name.value, W.NAME_MAX)); }
      if category.Some? { w := w.(category := W.Cut(category.value, W.CATEGORY_MAX)); }
      slots[i] := w;
      kv := kv[w.id := w];
      assert slots[..count] == old(slots[..count])[i := w];
      status := W.Ok;
    }

    method Delete(id: nat) returns (status: W.Status)
      requires Valid()
      modifies this, slots
      ensures Valid() && Model() == W.Delete(old(Model()), id)
      ensures status.NotFound? <==> id != 0 && W.SlotOf(old(slots[..count]), id) == old(count)
    {
      if id == 0 { return W.InvalidArg; }
      var i := FindSlot(id);
      if i == count { return W.NotFound; }
      kv := kv - {id};
      if i != count - 1 { slots[i] := slots[count - 1]; }
      slots[count - 1] := EMPTY;
      count := count - 1;
      ghost var was := old(slots[..count]);
      assert slots[..count] == was[i := was[count]][..count];
      status := W.Ok;
    }

    method Restore(w: W.Worker) returns (status: W.Status)
      requires Valid()
      modifies this, slots
      ensures Valid() && Model() == W.Restore(old(Model()), w)
      ensures status.NoMem? <==>
              w.id != 0 && W.SlotOf(old(slots[..count]), w.id) == old(count) == W.MAX_WORKERS
    {
      if w.id == 0 { return W.InvalidArg; }
      var i := FindSlot(w.id);
      if i == count {
        if count >= W.MAX_WORKERS { return W.NoMem; }
        count := count + 1;
      }
      slots[i] := w;
      kv := kv[w.id := w];
      if w.id >= next {
        next := (w.id + 1) % W.ID_SPAN;
        kvNext := Some(next);
      }
      ghost var was := old(slots[..count]);
      assert slots[..count] == if i < |was| then was[i := w] else was + [w];
      status := W.Ok;
    }

    method Wipe()
      requires Valid()
      modifies this, slots
      ensures Valid() && Model() == W.Wipe(old(Model()))
    {
      var id := 1;
      while id < next
        invariant Valid() && 1 <= id && next == old(next)
        invariant kv == map k | k in old(kv) && !(1 <= k < id && k < next) :: old(kv)[k]
        decreases next - id
      {
        kv := kv - {id};
        id := id + 1;
      }
      kvNext := None;
      count, next := 0, 1;
      forall i | 0 <= i < slots.Length { slots[i] := EMPTY; }
    }
  }
}
