/**
  Item stacks, the `isSimilar` test, and the contents of a chest.

  A descriptor is everything `ItemStack.isSimilar` compares (type and
  metadata); a stack is a descriptor plus an amount. A chest slot holds a
  stack or is empty (`null` in `Inventory.getContents()`).
 */
module Items {
  import opened Wrappers
  import opened Locations

  datatype Descriptor = Descriptor(material: string, meta: string)

  datatype Stack = Stack(item: Descriptor, amount: nat)

  type Slot = Option<Stack>

  /** `slot != null && slot.isSimilar(d)`: same good, whatever the amount. */
  predicate IsSimilar(slot: Slot, d: Descriptor)
  {
    slot.Some? && slot.value.item == d
  }

  /** The units a slot contributes to the stock of good `d`. */
  function Units(slot: Slot, d: Descriptor): nat
  {
    if IsSimilar(slot, d) then slot.value.amount else 0
  }

  /** The number of units of good `d` in the slots: the sum of the amounts of the similar stacks. */
  function MatchingUnits(slots: seq<Slot>, d: Descriptor): (n: nat)
    ensures forall i :: 0 <= i < |slots| ==> Units(slots[i], d) <= n
  {
    if |slots| == 0 then 0 else Units(slots[0], d) + MatchingUnits(slots[1..], d)
  }

  lemma {:induction false} MatchingUnitsAppend(a: seq<Slot>, b: seq<Slot>, d: Descriptor)
    ensures MatchingUnits(a + b, d) == MatchingUnits(a, d) + MatchingUnits(b, d)
  {
    if |a| > 0 {
      assert (a + b)[1..] == a[1..] + b;
      MatchingUnitsAppend(a[1..], b, d);
    } else {
      assert a + b == b;
    }
  }

  /** Only similar stacks count: slots that hold another good, or nothing, add no units. */
  lemma {:induction false} MatchingUnitsIgnoresOthers(slots: seq<Slot>, d: Descriptor)
    requires forall i :: 0 <= i < |slots| ==> !IsSimilar(slots[i], d)
    ensures MatchingUnits(slots, d) == 0
  {
    if |slots| > 0 {
      MatchingUnitsIgnoresOthers(slots[1..], d);
    }
  }

  /** The units taken from one slot while `k` are still missing. */
  function Taken(slot: Slot, d: Descriptor, k: int): nat
  {
    if k > 0 && IsSimilar(slot, d) then Min(slot.value.amount, k) else 0
  }

  /**
    The slot after giving up `Taken(slot, d, k)` units. A stack lowered to 0
    stays a `Some` stack of amount 0 here, where the server empties the slot
    (`setAmount(0)`, after which `getContents()` reports null); both count
    as no units, so every stock total is the same either way.
   */
  function TakeFrom(slot: Slot, d: Descriptor, k: int): Slot
  {
    if k > 0 && IsSimilar(slot, d) then Some(Stack(slot.value.item, slot.value.amount - Taken(slot, d, k))) else slot
  }

  /**
    The chest contents after taking up to `k` units of good `d`, front to
    back: each similar stack gives what it has, up to what is still missing,
    and nothing is touched once `k` units are taken.
   */
  function Take(slots: seq<Slot>, d: Descriptor, k: int): (r: seq<Slot>)
    ensures |r| == |slots|
  {
    if |slots| == 0 then []
    else [TakeFrom(slots[0], d, k)] + Take(slots[1..], d, k - Taken(slots[0], d, k))
  }

  /** One step of `Take` at position `i`. */
  lemma TakeStep(slots: seq<Slot>, i: nat, d: Descriptor, k: int)
    requires i < |slots|
    ensures Take(slots[i..], d, k) == [TakeFrom(slots[i], d, k)] + Take(slots[i + 1..], d, k - Taken(slots[i], d, k))
  {
    assert slots[i..][0] == slots[i] && slots[i..][1..] == slots[i + 1..];
  }

  /** The units in a prefix grow by the units of the next slot. */
  lemma MatchingUnitsPrefix(slots: seq<Slot>, i: nat, d: Descriptor)
    requires i < |slots|
    ensures MatchingUnits(slots[..i + 1], d) == MatchingUnits(slots[..i], d) + Units(slots[i], d)
  {
    assert slots[..i + 1] == slots[..i] + [slots[i]];
    MatchingUnitsAppend(slots[..i], [slots[i]], d);
  }

  /** Taking nothing leaves the contents as they were. */
  lemma {:induction false} TakeNothing(slots: seq<Slot>, d: Descriptor, k: int)
    requires k <= 0
    ensures Take(slots, d, k) == slots
  {
    if |slots| > 0 {
      TakeNothing(slots[1..], d, k);
      assert [slots[0]] + slots[1..] == slots;
    }
  }

  /**
    Taking keeps every slot in place: other goods and empty slots are
    unchanged, and a similar stack keeps its good and only loses units.
   */
  lemma {:induction false} TakeShape(slots: seq<Slot>, d: Descriptor, k: int)
    ensures |Take(slots, d, k)| == |slots|
    ensures forall i :: 0 <= i < |slots| && !IsSimilar(slots[i], d) ==> Take(slots, d, k)[i] == slots[i]
    ensures forall i :: 0 <= i < |slots| && IsSimilar(slots[i], d) ==>
      IsSimilar(Take(slots, d, k)[i], d) && Take(slots, d, k)[i].value.amount <= slots[i].value.amount
  {
    if |slots| > 0 {
      var k' := k - Taken(slots[0], d, k);
      TakeShape(slots[1..], d, k');
      var r := Take(slots, d, k);
      assert r[1..] == Take(slots[1..], d, k');
      forall i | 1 <= i < |slots| ensures r[i] == Take(slots[1..], d, k')[i - 1] {
      }
    }
  }

  /** Taking removes exactly the smaller of `k` (when positive) and the units of `d` present. */
  lemma {:induction false} TakeUnits(slots: seq<Slot>, d: Descriptor, k: int)
    ensures MatchingUnits(Take(slots, d, k), d) == MatchingUnits(slots, d) - Min(Max(k, 0), MatchingUnits(slots, d))
  {
    if |slots| > 0 {
      var r := Take(slots, d, k);
      TakeUnits(slots[1..], d, k - Taken(slots[0], d, k));
      assert r[1..] == Take(slots[1..], d, k - Taken(slots[0], d, k));
    }
  }

  /** A chest block: where it stands and its inventory slots, whose stacks the plugin lowers in place. */
  class Chest {
    const location: PlacedLocation
    const inventory: array<Slot>

    constructor (location: PlacedLocation, contents: seq<Slot>)
      ensures this.location == location && fresh(inventory) && inventory[..] == contents
    {
      this.location := location;
      inventory := new Slot[|contents|](i requires 0 <= i < |contents| => contents[i]);
    }
  }
}
