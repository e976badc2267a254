/** Values shared by every component: BLE addresses, event kinds and C's truncating division. */
module Common {

  newtype Byte = x: int | 0 <= x < 256

  /** The six bytes of a BLE identity address. */
  datatype Addr = Addr(b0: Byte, b1: Byte, b2: Byte, b3: Byte, b4: Byte, b5: Byte)

  const ZERO_ADDR := Addr(0, 0, 0, 0, 0, 0)

  /** `dd_event_type_t`. */
  datatype Kind = In | Out

  datatype Option<+T> = None | Some(value: T)

  /** C's `/` on a signed dividend and a positive divisor: truncation toward zero. */
  function TruncDiv(n: int, d: int): int
    requires d > 0
  {
    if n >= 0 then n / d else -((-n) / d)
  }

  lemma SubsetSize<T>(s: set<T>, t: set<T>)
    requires s <= t
    ensures |s| <= |t|
  {
    assert t == s + (t - s);
  }
}
