/** The worker registry: a RAM table written through to a key/value store and reloaded at boot. */
module Workers {
  import opened Common
  import opened JsonText

  const MAX_WORKERS := 32
  const NAME_MAX := 32
  const CATEGORY_MAX := 16
  const ID_SPAN := 65536

  datatype Worker = Worker(id: nat, addr: Addr, name: string, category: string, created: int)

  /** `kv` holds the blobs under "w_<id>", `kvNext` the value under "next_id". */
  datatype Registry = Registry(ram: seq<Worker>, next: nat, kv: map<nat, Worker>, kvNext: Option<nat>)

  datatype Status = Ok | InvalidArg | NotFound | NoMem

  function Cut(s: string, size: nat): (r: string)
    requires size > 0
    ensures |r| < size && r <= s
  {
    if |s| < size then s else s[..size - 1]
  }

  predicate IsBlank(s: string) {
    forall i :: 0 <= i < |s| ==> s[i] == ' ' || s[i] == '\t'
  }

  /** What fits the C structure's character arrays. */
  predicate FitsStruct(w: Worker) {
    |w.name| < NAME_MAX && |w.category| < CATEGORY_MAX
  }

  // ---------- the operations ----------

  function SlotOf(ram: seq<Worker>, id: nat): (i: nat)
    ensures i <= |ram| && (i < |ram| ==> ram[i].id == id) && forall j :: 0 <= j < i ==> ram[j].id != id
  {
    if ram == [] || ram[0].id == id then 0 else 1 + SlotOf(ram[1..], id)
  }

  function SlotAt(ram: seq<Worker>, addr: Addr): (i: nat)
    ensures i <= |ram| && (i < |ram| ==> ram[i].addr == addr) && forall j :: 0 <= j < i ==> ram[j].addr != addr
  {
    if ram == [] || ram[0].addr == addr then 0 else 1 + SlotAt(ram[1..], addr)
  }

  /** `dd_worker_find_by_addr`: 0 if there is none. */
  function Find(ram: seq<Worker>, addr: Addr): nat {
    var i := SlotAt(ram, addr);
    if i < |ram| then ram[i].id else 0
  }

  function Hex4(n: nat): string {
    var n := n % ID_SPAN;
    [HexDigit(n / 4096), HexDigit(n / 256 % 16), HexDigit(n / 16 % 16), HexDigit(n % 16)]
  }

  function StubName(id: nat, addr: Addr): (s: string)
    ensures |s| < NAME_MAX
  {
    "Unnamed_" + Hex4(id) + [HexDigit(addr.b5 as int / 16), HexDigit(addr.b5 as int % 16)]
  }

  function Create(r: Registry, addr: Addr, now: int): Registry {
    var w := Worker(r.next, addr, StubName(r.next, addr), "", now);
    var next := (r.next + 1) % ID_SPAN;
    Registry(r.ram + [w], next, r.kv[w.id := w], Some(next))
  }

  function LookupOrCreate(r: Registry, addr: Addr, now: int): Registry {
    if Find(r.ram, addr) != 0 || |r.ram| >= MAX_WORKERS then r else Create(r, addr, now)
  }

  /** The id `dd_worker_lookup_or_create` returns. */
  function LookupResult(r: Registry, addr: Addr): nat {
    if Find(r.ram, addr) != 0 then Find(r.ram, addr) else if |r.ram| >= MAX_WORKERS then 0 else r.next
  }

  function Renamed(w: Worker, name: Option<string>, category: Option<string>): Worker {
    w.(name := if name.Some? then Cut(name.value, NAME_MAX) else w.name,
       category := if category.Some? then Cut(category.value, CATEGORY_MAX) else w.category)
  }

  predicate UpdateAllowed(id: nat, name: Option<string>) {
    id != 0 && !(name.Some? && IsBlank(name.value))
  }

  function Update(r: Registry, id: nat, name: Option<string>, category: Option<string>): Registry {
    var i := SlotOf(r.ram, id);
    if !UpdateAllowed(id, name) || i == |r.ram| then r
    else
      var w := Renamed(r.ram[i], name, category);
      r.(ram := r.ram[i := w], kv := r.kv[id := w])
  }

  function Delete(r: Registry, id: nat): Registry {
    var i := SlotOf(r.ram, id);
    if id == 0 || i == |r.ram| then r
    else
      var last := |r.ram| - 1;
      r.(ram := r.ram[i := r.ram[last]][..last], kv := r.kv - {id})
  }

  function Restore(r: Registry, w: Worker): Registry {
    var i := SlotOf(r.ram, w.id);
    if w.id == 0 || (i == |r.ram| && |r.ram| >= MAX_WORKERS) then r
    else
      var ram := if i < |r.ram| then r.ram[i := w] else r.ram + [w];
      var kv := r.kv[w.id := w];
      if w.id >= r.next then
        var next := (w.id + 1) % ID_SPAN;
        Registry(ram, next, kv, Some(next))
      else r.(ram := ram, kv := kv)
  }

  function Wipe(r: Registry): Registry {
    Registry([], 1, map id | id in r.kv && !(1 <= id < r.next) :: r.kv[id], None)
  }

  /** The blobs found while counting up from `id`. */
  function Loaded(kv: map<nat, Worker>, id: nat, next: nat, room: nat): (ram: seq<Worker>)
    ensures |ram| <= room
    decreases next - id
  {
    if id >= next || room == 0 then []
    else if id in kv then [kv[id]] + Loaded(kv, id + 1, next, room - 1)
    else Loaded(kv, id + 1, next, room)
  }

  /** `dd_worker_init`: what the next boot makes of the store. */
  function Reboot(r: Registry): Registry {
    var next := if r.kvNext.Some? then r.kvNext.value else 1;
    Registry(Loaded(r.kv, 1, next, MAX_WORKERS), next, r.kv, r.kvNext)
  }

  // ---------- what every operation keeps ----------

  predicate DistinctIds(ram: seq<Worker>) {
    forall i, j :: 0 <= i < j < |ram| ==> ram[i].id != ram[j].id
  }

  predicate Tracked(ram: seq<Worker>, kv: map<nat, Worker>, i: nat)
    requires i < |ram|
  {
    ram[i].id in kv && kv[ram[i].id] == ram[i]
  }

  ghost predicate Mirrors(ram: seq<Worker>, kv: map<nat, Worker>) {
    (forall i: nat :: i < |ram| ==> Tracked(ram, kv, i))
    && forall id :: id in kv ==> SlotOf(ram, id) < |ram|
  }

  ghost predicate Inv(r: Registry) {
    |r.ram| <= MAX_WORKERS && 1 <= r.next < ID_SPAN
    && r.next == (if r.kvNext.Some? then r.kvNext.value else 1)
    && DistinctIds(r.ram) && Mirrors(r.ram, r.kv)
    && forall i :: 0 <= i < |r.ram| ==> 1 <= r.ram[i].id < r.next && FitsStruct(r.ram[i])
  }

  datatype Op =
    | DoLookup(addr: Addr, now: int)
    | DoUpdate(id: nat, name: Option<string>, category: Option<string>)
    | DoDelete(id: nat)
    | DoRestore(w: Worker)
    | DoWipe
    | DoReboot

  function Apply(r: Registry, op: Op): Registry {
    match op
    case DoLookup(addr, now) => LookupOrCreate(r, addr, now)
    case DoUpdate(id, name, category) => Update(r, id, name, category)
    case DoDelete(id) => Delete(r, id)
    case DoRestore(w) => Restore(r, w)
    case DoWipe => Wipe(r)
    case DoReboot => Reboot(r)
  }

  const LAST_ID := ID_SPAN - 1

  predicate Creates(r: Registry, op: Op) {
    op.DoLookup? && Find(r.ram, op.addr) == 0 && |r.ram| < MAX_WORKERS
  }

  predicate Legal(r: Registry, op: Op) {
    (Creates(r, op) ==> r.next < LAST_ID) && (op.DoRestore? ==> op.w.id < LAST_ID && FitsStruct(op.w))
  }
}
