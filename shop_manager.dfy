/**
  `ShopManager`: the registry of active shops keyed by location, the
  per-owner quota, and stock reconciliation against the chest's contents.
 */
module Shops {
  import opened Wrappers
  import opened Players
  import opened Locations
  import opened Items
  import opened ChestShops

  // ---------------------------------------------------------------------------
  // Quota: the tiered permission scan
  // ---------------------------------------------------------------------------

  /** The highest tier number `getPlayerShopLimit` probes. */
  const MaxTier := 200

  /** The highest granted tier in `lo..hi`, if any. */
  function HighestIn(tiers: set<int>, lo: int, hi: int): (r: Option<int>)
    ensures r.Some? ==> r.value in tiers && lo <= r.value <= hi
    ensures r.Some? ==> forall t :: t in tiers && lo <= t <= hi ==> t <= r.value
    ensures r.None? ==> forall t :: t in tiers ==> !(lo <= t <= hi)
    decreases if lo <= hi then hi - lo + 1 else 0
  {
    if lo > hi then None
    else match HighestIn(tiers, lo + 1, hi)
      case Some(t) => Some(t)
      case None => if lo in tiers then Some(lo) else None
  }

  function MaxWith(base: int, tier: Option<int>): int
  {
    match tier
    case None => base
    case Some(t) => Max(base, t)
  }

  /**
    The shop limit the scan arrives at: the highest premium tier in 0..200
    when there is one, whatever f2p tiers are granted; otherwise the
    configured base raised to the highest f2p tier in 0..200.
   */
  function ShopLimit(base: int, perms: Permissions): (limit: int)
    ensures (exists t :: t in perms.premiumSlots && 0 <= t <= MaxTier) ==>
      && limit in perms.premiumSlots && 0 <= limit <= MaxTier
      && forall t :: t in perms.premiumSlots && 0 <= t <= MaxTier ==> t <= limit
    ensures (forall t :: t in perms.premiumSlots ==> !(0 <= t <= MaxTier)) ==>
      && base <= limit
      && (limit == base || (limit in perms.f2pSlots && 0 <= limit <= MaxTier))
      && forall t :: t in perms.f2pSlots && 0 <= t <= MaxTier ==> t <= limit
  {
    match HighestIn(perms.premiumSlots, 0, MaxTier)
    case Some(p) => p
    case None => MaxWith(base, HighestIn(perms.f2pSlots, 0, MaxTier))
  }

  /** A premium grant below the base still sets the limit, even below a larger f2p grant. */
  lemma PremiumTierOverridesLargerF2p()
    ensures ShopLimit(5, Permissions({2}, {50}, false, false)) == 2
  {
    assert HighestIn({2}, 0, MaxTier) == Some(2);
  }

  // ---------------------------------------------------------------------------
  // Counting a player's shops
  // ---------------------------------------------------------------------------

  /** The keys of the shops `owner` owns. */
  function OwnedKeys(shops: map<string, ChestShop>, owner: Uuid): set<string>
  {
    set k | k in shops && shops[k].ownerUUID == owner
  }

  /** `getPlayerShopCount`: the number of registry entries whose owner is `owner`. */
  function OwnedCount(shops: map<string, ChestShop>, owner: Uuid): nat
  {
    |OwnedKeys(shops, owner)|
  }

  /** A player owns no more shops than the registry holds. */
  lemma OwnedCountBounded(shops: map<string, ChestShop>, owner: Uuid)
    ensures OwnedCount(shops, owner) <= |shops|
  {
    assert OwnedKeys(shops, owner) <= shops.Keys;
    SubsetCardinality(OwnedKeys(shops, owner), shops.Keys);
  }

  /** A player's count is zero exactly when no registered shop is theirs. */
  lemma OwnedCountZero(shops: map<string, ChestShop>, owner: Uuid)
    ensures OwnedCount(shops, owner) == 0 <==> forall k :: k in shops ==> shops[k].ownerUUID != owner
  {
    if OwnedCount(shops, owner) != 0 {
      var k :| k in OwnedKeys(shops, owner);
      assert k in shops && shops[k].ownerUUID == owner;
    } else {
      forall k | k in shops ensures shops[k].ownerUUID != owner {
        assert k !in OwnedKeys(shops, owner);
      }
    }
  }

  lemma {:induction false} SubsetCardinality<T>(a: set<T>, b: set<T>)
    requires a <= b
    ensures |a| <= |b|
    decreases |b|
  {
    if a != {} {
      var x :| x in a;
      SubsetCardinality(a - {x}, b - {x});
    }
  }

  /** Adding a shop under a fresh key adds one to its owner's count and nothing to anyone else's. */
  lemma OwnedCountPut(shops: map<string, ChestShop>, k: string, shop: ChestShop, owner: Uuid)
    requires k !in shops
    ensures OwnedCount(shops[k := shop], owner) == OwnedCount(shops, owner) + (if shop.ownerUUID == owner then 1 else 0)
  {
    if shop.ownerUUID == owner {
      assert OwnedKeys(shops[k := shop], owner) == OwnedKeys(shops, owner) + {k};
    } else {
      assert OwnedKeys(shops[k := shop], owner) == OwnedKeys(shops, owner);
    }
  }

  /** Removing a key takes one from the count of the owner of the shop it held, and nothing from anyone else's. */
  lemma OwnedCountRemove(shops: map<string, ChestShop>, k: string, owner: Uuid)
    ensures OwnedCount(shops - {k}, owner) ==
      OwnedCount(shops, owner) - (if k in shops && shops[k].ownerUUID == owner then 1 else 0)
  {
    if k in shops && shops[k].ownerUUID == owner {
      assert OwnedKeys(shops, owner) == OwnedKeys(shops - {k}, owner) + {k};
    } else {
      assert OwnedKeys(shops - {k}, owner) == OwnedKeys(shops, owner);
    }
  }

  // ---------------------------------------------------------------------------
  // The registry
  // ---------------------------------------------------------------------------

  /** What a stock reconciliation did: left the stock alone, wrote a new value, or removed a shop whose chest is gone. */
  datatype StockOutcome = StockUnchanged | StockUpdated | ContainerGone

  class ShopManager {
    const config: Config
    var activeShops: map<string, ChestShop>

    /** Every shop is filed under the key of its own location. */
    ghost predicate Valid()
      reads this
    {
      forall k :: k in activeShops ==> Serialize(activeShops[k].location) == k
    }

    constructor (config: Config)
      ensures Valid() && this.config == config && activeShops == map[]
    {
      this.config := config;
      activeShops := map[];
    }

    /** `getShopAtLocation`: the shop filed under the location's key, or null. */
    function GetShopAtLocation(l: Location): (s: ChestShop?)
      reads this
      ensures s != null <==> Serialize(l) in activeShops
      ensures s != null ==> s == activeShops[Serialize(l)]
    {
      if Serialize(l) in activeShops then activeShops[Serialize(l)] else null
    }

    /** `getPlayerShopCount`: how many registered shops `owner` owns; zero exactly when they own none. */
    function PlayerShopCount(owner: Uuid): (n: nat)
      reads this
      ensures n <= |activeShops|
      ensures n == 0 <==> forall k :: k in activeShops ==> activeShops[k].ownerUUID != owner
    {
      OwnedCountBounded(activeShops, owner);
      OwnedCountZero(activeShops, owner);
      OwnedCount(activeShops, owner)
    }

    /** `getPlayerShopLimit`: scans tiers 200 down to 0; a premium tier ends the scan, an f2p tier only raises the limit. */
    method GetPlayerShopLimit(player: Player) returns (limit: int)
      ensures limit == ShopLimit(config.f2pMaxShops, player.perms)
    {
      var premium, f2p := player.perms.premiumSlots, player.perms.f2pSlots;
      limit := config.f2pMaxShops;
      var i := MaxTier;
      while i >= 0
        invariant -1 <= i <= MaxTier
        invariant HighestIn(premium, i + 1, MaxTier) == None
        invariant limit == MaxWith(config.f2pMaxShops, HighestIn(f2p, i + 1, MaxTier))
      {
        if i in premium {
          limit := i;
          assert HighestIn(premium, 0, MaxTier) == Some(i);
          break;
        }
        if i in f2p {
          if i > limit {
            limit := i;
          }
        }
        i := i - 1;
      }
    }

    /** `canCreateShop`: the player's count is below their limit. */
    method CanCreateShop(player: Player) returns (ok: bool)
      ensures ok <==> PlayerShopCount(player.id) < ShopLimit(config.f2pMaxShops, player.perms)
    {
      var currentShops := PlayerShopCount(player.id);
      var maxShops := GetPlayerShopLimit(player);
      ok := currentShops < maxShops;
    }

    /** `removeShop`: deletes the location's key; true exactly when it was present. */
    method RemoveShop(l: Location) returns (removed: bool)
      requires Valid()
      modifies this
      ensures Valid()
      ensures removed <==> Serialize(l) in old(activeShops)
      ensures activeShops == old(activeShops) - {Serialize(l)}
    {
      var key := Serialize(l);
      if key in activeShops {
        activeShops := activeShops - {key};
        return true;
      }
      return false;
    }

    /**
      `updateShopStock`: `block` is the block at the shop's location, null
      when it is no longer a chest. On a chest the stock becomes the number
      of similar units inside, written only when it differs; otherwise the
      shop's location is removed from the registry.
     */
    method UpdateShopStock(shop: ChestShop, block: Chest?) returns (outcome: StockOutcome)
      requires Valid()
      requires block != null ==> block.location == shop.location
      modifies this, shop
      ensures Valid()
      ensures block != null ==>
        && activeShops == old(activeShops)
        && shop.State() == old(shop.State()).(currentStock := MatchingUnits(block.inventory[..], shop.soldItem))
        && (outcome == StockUnchanged <==> old(shop.currentStock) == MatchingUnits(block.inventory[..], shop.soldItem))
        && outcome != ContainerGone
      ensures block == null ==>
        && outcome == ContainerGone
        && activeShops == old(activeShops) - {Serialize(shop.location)}
        && shop.State() == old(shop.State())
    {
      if block != null {
        var inv := block.inventory;
        var currentStock := 0;
        var i := 0;
        while i < inv.Length
          invariant 0 <= i <= inv.Length
          invariant currentStock == MatchingUnits(inv[..i], shop.soldItem)
          modifies {}
        {
          var item := inv[i];
          if IsSimilar(item, shop.soldItem) {
            currentStock := currentStock + item.value.amount;
          }
          assert inv[..i + 1] == inv[..i] + [item];
          MatchingUnitsAppend(inv[..i], [item], shop.soldItem);
          i := i + 1;
        }
        assert inv[..i] == inv[..];
        if shop.currentStock != currentStock {
          shop.SetCurrentStock(currentStock);
          outcome := StockUpdated;
        } else {
          outcome := StockUnchanged;
        }
      } else {
        var _ := RemoveShop(shop.location);
        outcome := ContainerGone;
      }
    }

    /**
      `createShop`: refuses an occupied location first, then a player at
      their limit; otherwise files a new shop under the location's key and
      reconciles its stock. `newId` is the fresh random UUID; `block` is the
      block at `location`, null when it is not a chest, in which case the
      reconciliation removes the shop again.
     */
    method CreateShop(player: Player, location: Location, item: Descriptor, price: real, quantity: int,
                      newId: Uuid, block: Chest?) returns (shop: ChestShop?)
      requires Valid()
      requires block != null ==> block.location == location
      modifies this
      ensures Valid()
      ensures shop != null <==>
        Serialize(location) !in old(activeShops) &&
        old(PlayerShopCount(player.id)) < ShopLimit(config.f2pMaxShops, player.perms)
      ensures shop == null ==> activeShops == old(activeShops)
      ensures shop != null ==>
        && fresh(shop)
        && shop.State() == ShopState(newId, player.id, location, item, price, quantity,
                                     if block != null then MatchingUnits(block.inventory[..], item) else 0,
                                     config.defaultDisplayEnabled)
        && (block == null ==> activeShops == old(activeShops))
        && (block != null ==> activeShops == old(activeShops)[Serialize(location) := shop])
        && (block != null ==> PlayerShopCount(player.id) == old(PlayerShopCount(player.id)) + 1)
        && PlayerShopCount(player.id) <= ShopLimit(config.f2pMaxShops, player.perms)
    {
      if GetShopAtLocation(location) != null {
        return null;
      }
      var allowed := CanCreateShop(player);
      if !allowed {
        return null;
      }
      shop := new ChestShop(newId, player.id, location, item, price, quantity, config.defaultDisplayEnabled);
      ghost var before := activeShops;
      activeShops := activeShops[Serialize(location) := shop];
      OwnedCountPut(before, Serialize(location), shop, player.id);
      var _ := UpdateShopStock(shop, block);
    }
  }

  /** The shop registered at a chest block, or null (also when there is no chest). */
  function ShopAtBlock(registry: ShopManager, block: Chest?): (s: ChestShop?)
    reads registry
    ensures s != null ==> block != null && s in registry.activeShops.Values
  {
    if block == null then null else registry.GetShopAtLocation(block.location)
  }

  /**
    Property check, not a plugin operation: a reconciliation repeated with no
    change to the chest writes nothing the second time.
   */
  method ReconcileTwice(registry: ShopManager, shop: ChestShop, block: Chest)
    returns (first: StockOutcome, second: StockOutcome)
    requires registry.Valid() && block.location == shop.location
    modifies registry, shop
    ensures registry.Valid() && second == StockUnchanged
    ensures shop.State() == old(shop.State()).(currentStock := MatchingUnits(block.inventory[..], shop.soldItem))
  {
    first := registry.UpdateShopStock(shop, block);
    second := registry.UpdateShopStock(shop, block);
  }

  /** A lookup at a block's location finds the shop standing exactly there. */
  lemma LookupFindsThatBlock(registry: ShopManager, l: Location)
    requires registry.Valid() && l.world.Some?
    requires registry.GetShopAtLocation(l) != null
    ensures registry.GetShopAtLocation(l).location == l
  {
    var s := registry.GetShopAtLocation(l);
    SerializeInjective(s.location, l);
  }
}
