/** The debounce table as the firmware keeps it: four slots overwritten in place. */
module DebounceTable {
  import opened Common
  import opened Debounce

  class Debouncer {
    const slots: array<Entry>

    ghost predicate Valid() {
      slots.Length == ENTRIES
    }

    constructor ()
      ensures Valid() && fresh(slots)
      ensures slots[..] == TableAt([], 0)
    {
      slots := new Entry[ENTRIES](_ => BLANK);
    }

    /** `get_slot`: one pass looks for the peer, the first free slot and the oldest one. */
    method GetSlot(a: Addr) returns (k: nat)
      requires Valid()
      modifies slots
      ensures slots[..] == WithSlot(old(slots[..]), a)
      ensures k < ENTRIES && k == IndexOf(slots[..], a)
    {
      var free, oldest := ENTRIES, 0;
      for i := 0 to ENTRIES
        invariant slots[..] == old(slots[..])
        invariant forall j :: 0 <= j < i ==> !Holds(slots[j], a)
        invariant if free == ENTRIES then forall j :: 0 <= j < i ==> slots[j].used
                  else 0 <= free < i && free == FirstFree(slots[..])
        invariant free == ENTRIES && i > 0 ==> oldest == Oldest(slots[..], i)
        invariant 0 <= oldest < ENTRIES && (i == 0 ==> oldest == 0)
      {
        if !slots[i].used {
          if free == ENTRIES { free := i; }
        } else if slots[i].addr == a {
          k := i;
          return;
        } else if Recency(slots[i]) < Recency(slots[oldest]) {
          oldest := i;
        }
      }
      k := if free < ENTRIES then free else oldest;
      slots[k] := Entry(true, a, 0, 0);
      assert slots[..] == WithSlot(old(slots[..]), a);
      NewSlotIndex(old(slots[..]), a);
    }

    /** The debounce part of `dd_event_record` for a BLE event. */
    method Admit(c: Call) returns (admitted: bool)
      requires Valid()
      modifies slots
      ensures admitted == Admits(old(slots[..]), c)
      ensures slots[..] == After(old(slots[..]), c)
    {
      var k := GetSlot(c.peer);
      var last := Last(slots[k], c.kind);
      if last != 0 && c.at - last < WINDOW_US { return false; }
      slots[k] := Stamped(slots[k], c.kind, c.at);
      return true;
    }
  }

  lemma NewSlotIndex(t: Table, a: Addr)
    requires |t| == ENTRIES && !InTable(t, a)
    ensures IndexOf(WithSlot(t, a), a) == Victim(t)
  {
    var u := WithSlot(t, a);
    assert forall j :: 0 <= j < |t| && j != Victim(t) ==> u[j] == t[j];
    assert Holds(u[Victim(t)], a);
  }
}
