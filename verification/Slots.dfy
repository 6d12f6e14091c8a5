/** First-fit search for a free PCI slot: 32 virtual functions on each of the numbered bridges. */
module Slots {
  import opened Strings

  const VFS: nat := 32
  const TWO32: nat := 0x1_0000_0000

  /** Bridge numbers start at 1 here, as in the sysfs addresses that the search looks at. */
  datatype Slot = Slot(pf: nat, vf: nat)

  predicate Before(a: Slot, b: Slot) {
    a.pf < b.pf || (a.pf == b.pf && a.vf < b.vf)
  }

  predicate OnBridges(s: Slot, bridges: nat) {
    1 <= s.pf <= bridges && s.vf < VFS
  }

  function AllSlots(bridges: nat): set<Slot> {
    set pf, vf | 1 <= pf <= bridges && 0 <= vf < VFS :: Slot(pf, vf)
  }

  function Free(occupied: set<Slot>, bridges: nat): set<Slot> {
    AllSlots(bridges) - occupied
  }

  ghost predicate IsFirstFree(s: Slot, occupied: set<Slot>, bridges: nat) {
    && s in Free(occupied, bridges)
    && forall t | t in Free(occupied, bridges) && t != s :: Before(s, t)
  }

  /**
   * Bridge counts are converted to uint32 first. With 2^32 - 1 of them the outer counter would wrap and
   * never pass the bound, so that single count is excluded.
   */
  method GetAvailablePhysicalFunction(kvmBridgeCount: int, occupied: set<Slot>)
    returns (found: Option<(nat, nat)>)
    requires kvmBridgeCount % TWO32 != TWO32 - 1
    ensures var bridges := kvmBridgeCount % TWO32;
            match found
            case None => Free(occupied, bridges) == {}
            case Some(s) => IsFirstFree(Slot(s.0 + 1, s.1), occupied, bridges)
  {
    var bridges: nat := kvmBridgeCount % TWO32;
    var pf := 1;
    while pf <= bridges
      invariant 1 <= pf <= bridges + 1
      invariant forall s | OnBridges(s, bridges) && s.pf < pf :: s in occupied
    {
      var vf := 0;
      while vf < VFS
        invariant 0 <= vf <= VFS
        invariant forall s | OnBridges(s, bridges) && Before(s, Slot(pf, vf)) :: s in occupied
      {
        if Slot(pf, vf) !in occupied {
          return Some((pf - 1, vf));
        }
        vf := vf + 1;
      }
      pf := pf + 1;
    }
    return None;
  }

  /** The slots handed out when every slot found is occupied before the next search. */
  ghost predicate Allocation(slots: seq<Slot>, occupied: set<Slot>, bridges: nat)
    decreases |slots|
  {
    if slots == [] then Free(occupied, bridges) == {}
    else IsFirstFree(slots[0], occupied, bridges) && Allocation(slots[1..], occupied + {slots[0]}, bridges)
  }

  lemma {:induction false} LeastSlot(s: set<Slot>) returns (least: Slot)
    requires s != {}
    ensures least in s && forall t | t in s && t != least :: Before(least, t)
    decreases |s|
  {
    var any :| any in s;
    var others := s - {any};
    if others == {} {
      assert s == {any};
      least := any;
    } else {
      var below := LeastSlot(others);
      least := if Before(any, below) then any else below;
      forall t | t in s && t != least ensures Before(least, t) {
        assert t == any || t in others;
      }
    }
  }

  /** The repeated search always comes to an end, whatever is occupied at the start. */
  lemma {:induction false} AllocationExists(occupied: set<Slot>, bridges: nat) returns (slots: seq<Slot>)
    ensures Allocation(slots, occupied, bridges)
    decreases |Free(occupied, bridges)|
  {
    if Free(occupied, bridges) == {} {
      slots := [];
    } else {
      var first := LeastSlot(Free(occupied, bridges));
      FreeAfter(first, occupied, bridges);
      var rest := AllocationExists(occupied + {first}, bridges);
      slots := [first] + rest;
    }
  }

  lemma FreeAfter(first: Slot, occupied: set<Slot>, bridges: nat)
    requires first in Free(occupied, bridges)
    ensures Free(occupied, bridges) == {first} + Free(occupied + {first}, bridges)
    ensures first !in Free(occupied + {first}, bridges)
    ensures |Free(occupied, bridges)| == 1 + |Free(occupied + {first}, bridges)|
  {
    var all := AllSlots(bridges);
    assert all - (occupied + {first}) == (all - occupied) - {first};
  }

  /** Repeated first-fit hands out each free slot exactly once, in strictly increasing order. */
  lemma {:induction false} AllocationExhausts(slots: seq<Slot>, occupied: set<Slot>, bridges: nat)
    requires Allocation(slots, occupied, bridges)
    ensures forall i, j | 0 <= i < j < |slots| :: Before(slots[i], slots[j])
    ensures forall s :: s in slots <==> s in Free(occupied, bridges)
    ensures |slots| == |Free(occupied, bridges)|
    decreases |slots|
  {
    if slots != [] {
      var first, rest := slots[0], slots[1..];
      AllocationExhausts(rest, occupied + {first}, bridges);
      FreeAfter(first, occupied, bridges);
      assert slots == [first] + rest;
      forall i, j | 0 <= i < j < |slots| ensures Before(slots[i], slots[j]) {
        assert slots[j] == rest[j - 1];
        if i == 0 {
          assert rest[j - 1] in rest;
        } else {
          assert slots[i] == rest[i - 1];
        }
      }
    }
  }
}
