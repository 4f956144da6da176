/**
  `ShopListener`: the block and inventory events that protect a shop chest
  and keep its cached stock current.

  The block an event concerns is given as a `Chest?`: null when it is not a
  chest (its state is not a `Chest`, or the inventory's holder is not one).
 */
module ShopListener {
  import opened Wrappers
  import opened Players
  import opened Locations
  import opened Items
  import opened ChestShops
  import opened Shops

  /** How a block break ended. */
  datatype BreakOutcome =
    | NotAShop        // not a chest, or no shop is registered there
    | BreakRefused    // neither the owner nor an admin holding `admin.removeshop`
    | ShopRemoved
    | RemovalFailed   // authorised, but `removeShop` found no entry

  /** Only the owner, or an admin holding `vortexchestshop.admin.removeshop`, may break a shop chest. */
  predicate MayBreak(shop: ChestShop, player: Player)
  {
    shop.ownerUUID == player.id || player.perms.adminRemoveShop
  }

  /**
    `onBlockBreak`. `block` is the broken block, null when it is not a
    chest. An unauthorised break is cancelled and leaves the registry alone;
    an authorised one removes the shop's entry. `cancelled` true means the
    handler calls `setCancelled(true)`; false means it leaves the event
    alone (it never calls `setCancelled(false)`).
   */
  method OnBlockBreak(registry: ShopManager, block: Chest?, player: Player)
    returns (outcome: BreakOutcome, cancelled: bool)
    requires registry.Valid()
    modifies registry
    ensures registry.Valid()
    ensures outcome == NotAShop <==> old(ShopAtBlock(registry, block)) == null
    ensures outcome == BreakRefused <==>
      old(ShopAtBlock(registry, block)) != null && !MayBreak(old(ShopAtBlock(registry, block)), player)
    ensures cancelled <==> outcome == BreakRefused
    ensures outcome != RemovalFailed
    ensures outcome == ShopRemoved ==>
      registry.activeShops == old(registry.activeShops) - {Serialize(block.location)} &&
      old(ShopAtBlock(registry, block)) !in registry.activeShops.Values
    ensures outcome != ShopRemoved ==> registry.activeShops == old(registry.activeShops)
  {
    if block == null {
      return NotAShop, false;
    }
    var shop := registry.GetShopAtLocation(block.location);
    if shop == null {
      return NotAShop, false;
    }
    if !MayBreak(shop, player) {
      return BreakRefused, true;
    }
    var removed := registry.RemoveShop(block.location);
    if removed {
      outcome := ShopRemoved;
    } else {
      outcome := RemovalFailed;
    }
    cancelled := false;
  }

  /**
    `onBlockPlace`: placing a chest where a shop is registered is cancelled;
    nothing else is. `cancelled` false means the event is left alone.
   */
  method OnBlockPlace(registry: ShopManager, placed: Chest?) returns (cancelled: bool)
    ensures cancelled <==> placed != null && Serialize(placed.location) in registry.activeShops
  {
    cancelled := ShopAtBlock(registry, placed) != null;
  }

  /**
    `onInventoryClose`: closing a shop chest's inventory reconciles the
    shop's stock with the chest. The owner is told the new stock
    (`notified`); anyone else is told nothing.
   */
  method OnInventoryClose(registry: ShopManager, holder: Chest?, player: Player)
    returns (notified: Option<int>)
    requires registry.Valid()
    modifies registry, ShopAtBlock(registry, holder)
    ensures registry.Valid() && registry.activeShops == old(registry.activeShops)
    ensures old(ShopAtBlock(registry, holder)) == null ==> notified == None
    ensures old(ShopAtBlock(registry, holder)) != null ==>
      var shop := old(ShopAtBlock(registry, holder));
      && shop.State() == old(shop.State()).(currentStock := MatchingUnits(holder.inventory[..], shop.soldItem))
      && (notified.Some? <==> player.id == shop.ownerUUID)
      && (notified.Some? ==> notified.value == MatchingUnits(holder.inventory[..], shop.soldItem))
  {
    if holder == null {
      return None;
    }
    var shop := registry.GetShopAtLocation(holder.location);
    if shop == null {
      return None;
    }
    LookupFindsThatBlock(registry, holder.location);
    var _ := registry.UpdateShopStock(shop, holder);
    if player.id == shop.ownerUUID {
      notified := Some(shop.currentStock);
    } else {
      notified := None;
    }
  }

  /**
    `onInventoryOpen`: opening a shop chest is cancelled for everyone but its
    owner. `cancelled` false means the event is left alone.
   */
  method OnInventoryOpen(registry: ShopManager, holder: Chest?, player: Player) returns (cancelled: bool)
    ensures cancelled <==>
      holder != null && Serialize(holder.location) in registry.activeShops &&
      registry.activeShops[Serialize(holder.location)].ownerUUID != player.id
  {
    if holder == null {
      return false;
    }
    var shop := registry.GetShopAtLocation(holder.location);
    cancelled := shop != null && shop.ownerUUID != player.id;
  }
}
