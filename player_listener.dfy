/**
  `PlayerListener.onPlayerInteract`: a right click on a shop chest by
  someone other than its owner buys one lot (`quantity` units for `price`).

  The sequence is reproduced as written: the stock guard only asks whether
  the cached stock is positive; the refund and claw-back calls have their
  results ignored (the outcome records them so the contract can speak of
  them); and on a stock discrepancy the units already taken from the chest
  stay taken.
 */
module PlayerListener {
  import opened Wrappers
  import opened Players
  import opened Items
  import opened Economy
  import opened ChestShops
  import opened Shops

  /** How an interaction ended. `refunded`/`clawedBack` are the ignored results of the compensating calls. */
  datatype BuyOutcome =
    | Ignored                 // not a right click on a shop chest
    | OwnerManaging           // the owner opens their own shop
    | ShopInactive            // cached stock is not positive
    | InsufficientFunds
    | InventoryFull
    | WithdrawFailed
    | OwnerDepositFailed(refunded: bool)
    | StockDiscrepancy(removed: nat, refunded: bool, clawedBack: bool)
    | Purchased(tax: real, ownerAmount: real)
  {
    /** The outcomes that end before any money moves. */
    predicate NothingMoved()
    {
      Ignored? || OwnerManaging? || ShopInactive? || InsufficientFunds? || InventoryFull? || WithdrawFailed?
    }
  }

  /**
    The removal loop: walks the chest's slots front to back, lowering each
    similar stack by what is still missing, and stops once `quantity` units
    are taken. Returns the number of units removed.
   */
  method RemoveMatching(inv: array<Slot>, d: Descriptor, quantity: int) returns (removedCount: nat)
    modifies inv
    ensures inv[..] == Take(old(inv[..]), d, quantity)
    ensures removedCount == Min(Max(quantity, 0), MatchingUnits(old(inv[..]), d))
  {
    ghost var orig := inv[..];
    removedCount := 0;
    var i := 0;
    while i < inv.Length
      invariant 0 <= i <= inv.Length
      invariant inv[i..] == orig[i..]
      invariant Take(orig, d, quantity) == inv[..i] + Take(orig[i..], d, quantity - removedCount)
      invariant removedCount + MatchingUnits(inv[..i], d) == MatchingUnits(orig[..i], d)
      invariant quantity <= 0 ==> removedCount == 0
      invariant quantity > 0 ==> removedCount < quantity
    {
      ghost var before := inv[..];
      ghost var k := quantity - removedCount;
      var chestItem := inv[i];
      if IsSimilar(chestItem, d) {
        var toRemove := Min(chestItem.value.amount, quantity - removedCount);
        if toRemove > 0 {
          inv[i] := Some(Stack(chestItem.value.item, chestItem.value.amount - toRemove));
          removedCount := removedCount + toRemove;
          RemovalStep(orig, before, inv[..], i, d, quantity, k);
          if removedCount >= quantity {
            RemovalDone(orig, inv[..], i, d, quantity, removedCount);
            break;
          }
        } else {
          RemovalStep(orig, before, inv[..], i, d, quantity, k);
        }
      } else {
        RemovalStep(orig, before, inv[..], i, d, quantity, k);
      }
      i := i + 1;
    }
    if i == inv.Length {
      assert inv[..i] == inv[..] && orig[..i] == orig;
      TakeUnits(orig, d, quantity);
    }
  }

  /** One slot of the removal loop keeps its invariant: the slot becomes `Take`'s, and the units it lost are those taken. */
  lemma RemovalStep(orig: seq<Slot>, before: seq<Slot>, after: seq<Slot>, i: nat, d: Descriptor, quantity: int, k: int)
    requires i < |orig| == |before| && before[i..] == orig[i..]
    requires after == before[i := TakeFrom(orig[i], d, k)]
    requires Take(orig, d, quantity) == before[..i] + Take(orig[i..], d, k)
    ensures after[i + 1..] == orig[i + 1..]
    ensures Take(orig, d, quantity) == after[..i + 1] + Take(orig[i + 1..], d, k - Taken(orig[i], d, k))
    ensures MatchingUnits(after[..i + 1], d) + Taken(orig[i], d, k) == MatchingUnits(before[..i], d) + Units(orig[i], d)
    ensures MatchingUnits(orig[..i + 1], d) == MatchingUnits(orig[..i], d) + Units(orig[i], d)
  {
    assert before[i] == orig[i] by { assert before[i..][0] == orig[i..][0]; }
    assert after[i + 1..] == before[i + 1..] == orig[i + 1..] by {
      assert before[i + 1..] == before[i..][1..];
      assert orig[i + 1..] == orig[i..][1..];
    }
    TakeStep(orig, i, d, k);
    assert after[..i + 1] == before[..i] + [TakeFrom(orig[i], d, k)];
    MatchingUnitsPrefix(after, i, d);
    MatchingUnitsPrefix(orig, i, d);
    assert after[..i] == before[..i];
  }

  /** Once `quantity` units are taken, the rest of the chest is what `Take` leaves, and all of `quantity` was there. */
  lemma RemovalDone(orig: seq<Slot>, cur: seq<Slot>, i: nat, d: Descriptor, quantity: int, removed: nat)
    requires i < |orig| == |cur| && cur[i + 1..] == orig[i + 1..]
    requires Take(orig, d, quantity) == cur[..i + 1] + Take(orig[i + 1..], d, quantity - removed)
    requires removed + MatchingUnits(cur[..i + 1], d) == MatchingUnits(orig[..i + 1], d)
    requires 0 < quantity <= removed <= quantity
    ensures cur == Take(orig, d, quantity)
    ensures removed == Min(Max(quantity, 0), MatchingUnits(orig, d))
  {
    TakeNothing(orig[i + 1..], d, quantity - removed);
    assert cur == cur[..i + 1] + cur[i + 1..];
    assert orig == orig[..i + 1] + orig[i + 1..];
    MatchingUnitsAppend(orig[..i + 1], orig[i + 1..], d);
  }

  /** What a buy may change: the clicked chest's slots and the clicked shop. */
  function BuyFootprint(registry: ShopManager, clicked: Chest?): set<object>
    reads registry
  {
    (if clicked == null then {} else {clicked.inventory}) +
    (if ShopAtBlock(registry, clicked) == null then {} else {ShopAtBlock(registry, clicked)})
  }

  /**
    `onPlayerInteract`. `rightClickBlock` says the action was a right click
    on a block; `clicked` is that block, null when it is not a chest;
    `server` tells whether the shop owner is online and with which
    permissions; `hasRoom` is the buyer-inventory check (`firstEmpty` /
    `containsAtLeast`). `cancelled` is what the handler sets on the event
    (None: left alone; this handler, unlike the `ShopListener` ones, also
    calls `setCancelled(false)`, for the owner). Handing the units to the
    buyer (`addItem`) is outside the model. The stacks lowered by the removal
    loop are taken to be the chest's live contents, and the `chest.update()`
    that follows is taken to leave them as they are.
   */
  method OnPlayerInteract(registry: ShopManager, economy: EconomyManager, server: Server,
                          rightClickBlock: bool, clicked: Chest?, player: Player, hasRoom: bool)
    returns (outcome: BuyOutcome, cancelled: Option<bool>)
    requires registry.Valid()
    modifies registry, economy.economy, BuyFootprint(registry, clicked)
    ensures registry.Valid() && registry.activeShops == old(registry.activeShops)
    ensures outcome.Ignored? <==> ShopAtBlock(registry, clicked) == null || !rightClickBlock
    ensures outcome.Ignored? ==> cancelled == None
    ensures !outcome.Ignored? ==> cancelled == Some(!outcome.OwnerManaging?)
    // the guards, in order, on the state before the click
    ensures !outcome.Ignored? ==> var shop := ShopAtBlock(registry, clicked);
      && (outcome.OwnerManaging? <==> shop.ownerUUID == player.id)
      && (outcome.ShopInactive? <==> shop.ownerUUID != player.id && old(shop.currentStock) <= 0)
      && (outcome.InsufficientFunds? <==>
            shop.ownerUUID != player.id && old(shop.currentStock) > 0 && !old(economy.Has(player.id, shop.price)))
      && (outcome.InventoryFull? <==>
            shop.ownerUUID != player.id && old(shop.currentStock) > 0 && old(economy.Has(player.id, shop.price)) && !hasRoom)
    // nothing changes unless money moved
    ensures outcome.NothingMoved() ==>
      && (forall q :: economy.GetBalance(q) == old(economy.GetBalance(q)))
      && (clicked != null ==> clicked.inventory[..] == old(clicked.inventory[..]))
      && (ShopAtBlock(registry, clicked) != null ==> ShopAtBlock(registry, clicked).State() == old(ShopAtBlock(registry, clicked).State()))
    // the sale itself
    ensures !outcome.NothingMoved() ==>
      var shop := ShopAtBlock(registry, clicked);
      var buyer, owner, price := player.id, shop.ownerUUID, shop.price;
      var tax := economy.CalculateTax(OfflinePlayer(server, owner), price);
      var before := old(clicked.inventory[..]);
      && buyer != owner
      && shop.soldItem == old(shop.soldItem) && price == old(shop.price) && shop.quantity == old(shop.quantity)
      && (forall q :: q != buyer && q != owner ==> economy.GetBalance(q) == old(economy.GetBalance(q)))
      && (outcome.OwnerDepositFailed? ==>
            && economy.GetBalance(buyer) == old(economy.GetBalance(buyer)) - price + (if outcome.refunded then price else 0.0)
            && economy.GetBalance(owner) == old(economy.GetBalance(owner))
            && clicked.inventory[..] == before
            && shop.State() == old(shop.State()))
      && (outcome.StockDiscrepancy? ==>
            && outcome.removed == MatchingUnits(before, shop.soldItem) < shop.quantity
            && clicked.inventory[..] == Take(before, shop.soldItem, shop.quantity)
            && economy.GetBalance(buyer) == old(economy.GetBalance(buyer)) - price + (if outcome.refunded then price else 0.0)
            && economy.GetBalance(owner) == old(economy.GetBalance(owner)) + (price - tax)
                                             - (if outcome.clawedBack then price - tax else 0.0)
            && shop.State() == old(shop.State()))
      && (outcome.Purchased? ==>
            && (shop.quantity <= 0 || MatchingUnits(before, shop.soldItem) >= shop.quantity)
            && outcome.tax == tax && outcome.ownerAmount == price - tax
            && economy.GetBalance(buyer) == old(economy.GetBalance(buyer)) - price
            && economy.GetBalance(owner) == old(economy.GetBalance(owner)) + (price - tax)
            && clicked.inventory[..] == Take(before, shop.soldItem, shop.quantity)
            && MatchingUnits(clicked.inventory[..], shop.soldItem) == MatchingUnits(before, shop.soldItem) - Max(shop.quantity, 0)
            && shop.State() == old(shop.State()).(currentStock := MatchingUnits(clicked.inventory[..], shop.soldItem)))
      && (outcome.StockDiscrepancy? || outcome.Purchased? ==>
            (outcome.Purchased? <==> shop.quantity <= 0 || MatchingUnits(before, shop.soldItem) >= shop.quantity))
  {
    if !rightClickBlock || clicked == null {
      return Ignored, None;
    }
    var shop := registry.GetShopAtLocation(clicked.location);
    if shop == null {
      return Ignored, None;
    }
    LookupFindsThatBlock(registry, clicked.location);

    if shop.ownerUUID == player.id {
      return OwnerManaging, Some(false);
    }
    cancelled := Some(true);

    if shop.currentStock <= 0 {
      return ShopInactive, cancelled;
    }
    var totalCost := shop.price;
    if !economy.Has(player.id, totalCost) {
      return InsufficientFunds, cancelled;
    }
    if !hasRoom {
      return InventoryFull, cancelled;
    }

    var withdrawalSuccess := economy.Withdraw(player.id, totalCost);
    if !withdrawalSuccess {
      return WithdrawFailed, cancelled;
    }

    var owner := OfflinePlayer(server, shop.ownerUUID);
    var taxAmount := economy.CalculateTax(owner, totalCost);
    var ownerReceiveAmount := totalCost - taxAmount;
    var ownerDepositSuccess := economy.Deposit(shop.ownerUUID, ownerReceiveAmount);
    if !ownerDepositSuccess {
      var refunded := economy.Deposit(player.id, totalCost);
      return OwnerDepositFailed(refunded), cancelled;
    }

    ghost var before := clicked.inventory[..];
    var removedCount := RemoveMatching(clicked.inventory, shop.soldItem, shop.quantity);
    TakeUnits(before, shop.soldItem, shop.quantity);
    if removedCount < shop.quantity {
      var refunded := economy.Deposit(player.id, totalCost);
      var clawedBack := economy.Withdraw(shop.ownerUUID, ownerReceiveAmount);
      return StockDiscrepancy(removedCount, refunded, clawedBack), cancelled;
    }

    var _ := registry.UpdateShopStock(shop, clicked);
    return Purchased(taxAmount, ownerReceiveAmount), cancelled;
  }
}
