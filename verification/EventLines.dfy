/** A line of the event log as the readers see it after parsing its JSON object. */
module EventLines {
  import opened Common

  /** A field is `None` when it is absent or not of the type the readers test for. Any type string other
      than "in" counts as `Out`; `peer` is `None` also when it is not a printed address. */
  datatype Line = Line(
    kind: Option<Kind>,
    ts: Option<int>,
    mono: Option<int>,
    workerId: Option<nat>,
    peer: Option<Addr>,
    src: Option<string>)

  function Ts(l: Line): int {
    if l.ts.Some? then l.ts.value else 0
  }

  function Mono(l: Line): int {
    if l.mono.Some? then l.mono.value else 0
  }

  /** `(uint16_t)` of the worker id, 0 when the field is missing. */
  function WorkerId(l: Line): (w: nat)
    ensures w < 65536
  {
    if l.workerId.Some? then l.workerId.value % 65536 else 0
  }
}
