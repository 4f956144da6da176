# VortexChestShop core in Dafny

VortexChestShop is a Minecraft server plugin. It turns chests into player shops. A shop record says who owns the shop, where its chest is, what it sells, the price of one lot and how many units make a lot. `ShopManager` keeps the registry of active shops, keyed by the `world,x,y,z` string of each chest's location. The same class enforces a per-owner quota read from tiered permissions, and it reconciles each shop's cached stock with what its chest holds. `PlayerListener` runs the buy sequence when someone other than the owner right-clicks a shop chest:

- withdraw the price from the buyer;
- deposit the price less tax to the owner;
- take the units out of the chest;
- compensate with refunds and claw-backs when a step fails.

`ShopListener` guards shop chests against breaking, re-placing and direct opening. It also re-counts the stock when a shop chest's inventory is closed. `EconomyManager` fronts the server's economy provider and computes the transaction tax.

Modules, one per file:

- `Wrappers` (`wrappers.dfy`): `Option`, `Min`, `Max`.
- `Players` (`players.dfy`): UUIDs, players and the permissions the plugin queries. `Server` (who is online) stands for `Bukkit.getOfflinePlayer`. `Config` holds the `shop-settings` values and their defaults.
- `Locations` (`locations.dfy`): locations, the registry key and its parser. The Java helpers the key format uses are written out:
  - `%d` on an `int`;
  - `Integer.parseInt`, with the 32-bit range;
  - `String.split(",")`, which drops trailing empty fields.
- `Items` (`items.dfy`): item descriptors and stacks, chest slots, the stock count `MatchingUnits`, and `Take`, the specification of the removal loop. Also the `Chest` block class, whose slot array the buy lowers in place.
- `Economy` (`economy.dfy`): `Provider`, the economy provider viewed as a balance map, and `EconomyManager` with its null-provider guards and tax rule.
- `ChestShops` (`chest_shop.dfy`): the `ChestShop` class and its setters.
- `Shops` (`shop_manager.dfy`): the `ShopManager` class, the tier scan and its declarative limit `ShopLimit`, and owner counting.
- `PlayerListener` (`player_listener.dfy`): the removal loop and the buy sequence.
- `ShopListener` (`shop_listener.dfy`): the four block and inventory handlers.

The model keeps the source's behaviour, including the parts that look unintended:

- A premium tier found by the descending scan sets the limit even when it is below a larger f2p tier already seen.
- The buy's stock guard only asks whether the cached stock is positive. It never compares the stock with the lot size.
- The results of the refund and claw-back calls are ignored. The outcome records them so the contract can say what each combination does to the balances.
- On a stock discrepancy, the units already taken from the chest are not put back.

## Model

| member | source | states |
|---|---|---|
| ChestShops.ChestShop.constructor | src/main/java/com/vortex/vortexchestshop/models/ChestShop.java:34-43 | id, owner, location, item, price, quantity and display flag are stored as given; the stock starts at 0 |
| ChestShops.ChestShop.SetSoldItem | src/main/java/com/vortex/vortexchestshop/models/ChestShop.java:92-93 | only `soldItem` changes; every other field keeps its value |
| ChestShops.ChestShop.SetPrice | src/main/java/com/vortex/vortexchestshop/models/ChestShop.java:105-106 | only `price` changes |
| ChestShops.ChestShop.SetQuantity | src/main/java/com/vortex/vortexchestshop/models/ChestShop.java:118-119 | only `quantity` changes |
| ChestShops.ChestShop.SetCurrentStock | src/main/java/com/vortex/vortexchestshop/models/ChestShop.java:132-133 | only `currentStock` changes |
| ChestShops.ChestShop.SetDisplayEnabled | src/main/java/com/vortex/vortexchestshop/models/ChestShop.java:148-149 | only `displayEnabled` changes |
| Locations.Serialize | src/main/java/com/vortex/vortexchestshop/managers/ShopManager.java:321-331 | the key `world,x,y,z`, or the empty string for a location whose world is null; its properties are stated by `SerializeShape`, `SerializeInjective`, `NullWorldsShareKey` and the round trip `DeserializeSerialize` |
| Locations.SerializeShape | src/main/java/com/vortex/vortexchestshop/managers/ShopManager.java:321-331 | the key is empty exactly when the world is null; otherwise it starts with the world name and a comma |
| Locations.FormatInt | src/main/java/com/vortex/vortexchestshop/managers/ShopManager.java:326-330 | a formatted coordinate is non-empty and holds no comma, so it stays one key field |
| Locations.ParseInt | src/main/java/com/vortex/vortexchestshop/managers/ShopManager.java:353-355 | a parse succeeds only on non-empty text; the value is a 32-bit int |
| Locations.ParseFormat | src/main/java/com/vortex/vortexchestshop/managers/ShopManager.java:326-355 | `parseInt` of a `%d`-formatted int gives back that int, negatives and both range ends included |
| Locations.FormatIntInjective | src/main/java/com/vortex/vortexchestshop/managers/ShopManager.java:326-330 | different coordinates are formatted differently |
| Locations.Deserialize | src/main/java/com/vortex/vortexchestshop/managers/ShopManager.java:338-361 | a location is returned exactly when the text is non-empty, splits into 4 fields, names a world the server resolves and has 3 coordinates `parseInt` accepts; otherwise None; the result's world is the resolved world and its x, y, z are the parsed fields |
| Locations.JavaSplit | src/main/java/com/vortex/vortexchestshop/managers/ShopManager.java:340 | `split(",")`: text without a comma is its own single field; no field holds a comma; when the text holds a comma, a trailing empty field never survives |
| Locations.DeserializeSerialize | src/main/java/com/vortex/vortexchestshop/managers/ShopManager.java:321-361 | parsing a key restores the world and block x, y, z, when the world name has no comma and resolves to itself |
| Locations.SerializeInjective | src/main/java/com/vortex/vortexchestshop/managers/ShopManager.java:321-331 | two locations with a world share a key only when they are equal, so one key names one block |
| Locations.NullWorldsShareKey | src/main/java/com/vortex/vortexchestshop/managers/ShopManager.java:322-325 | every location with a null world gets the same empty key |
| Locations.TrailingCommaAccepted | src/main/java/com/vortex/vortexchestshop/managers/ShopManager.java:340-341 | because `split` drops trailing empty fields, a key with a stray trailing comma still parses to the same location |
| Locations.SplitAtComma | src/main/java/com/vortex/vortexchestshop/managers/ShopManager.java:340 | the fields of `a,b` are the fields of `a` followed by the fields of `b` |
| Locations.JoinSplit | src/main/java/com/vortex/vortexchestshop/managers/ShopManager.java:340 | joining the fields of a string with commas gives the string back |
| Players.OfflinePlayer | src/main/java/com/vortex/vortexchestshop/listeners/PlayerListener.java:101-105 | the owner looked up by UUID is online exactly when the server lists them, with the permissions listed there |
| Items.IsSimilar | src/main/java/com/vortex/vortexchestshop/managers/ShopManager.java:189 | a slot matches the sold item when it holds a stack of the same good, whatever its amount (`item != null && item.isSimilar(...)`, also at `PlayerListener.java:120`); the stock count and the removal are stated over it |
| Items.MatchingUnits | src/main/java/com/vortex/vortexchestshop/managers/ShopManager.java:185-192 | the stock of a good in a chest: no similar stack holds more units than the total; its sum laws are `MatchingUnitsAppend` and `MatchingUnitsIgnoresOthers` |
| Items.Take | src/main/java/com/vortex/vortexchestshop/listeners/PlayerListener.java:118-130 | the chest after the removal loop, slot for slot: the same number of slots; what it leaves and takes is stated by `TakeShape`, `TakeUnits` and `TakeNothing` |
| Items.MatchingUnitsIgnoresOthers | src/main/java/com/vortex/vortexchestshop/managers/ShopManager.java:187-191 | empty slots and slots of another good add nothing to the stock |
| Items.MatchingUnitsAppend | src/main/java/com/vortex/vortexchestshop/managers/ShopManager.java:187-191 | the stock of two runs of slots is the sum of their stocks |
| Items.TakeNothing | src/main/java/com/vortex/vortexchestshop/listeners/PlayerListener.java:121-122 | when nothing is still missing, the removal leaves every slot as it was |
| Items.TakeShape | src/main/java/com/vortex/vortexchestshop/listeners/PlayerListener.java:119-130 | the removal keeps every slot in place: other goods and empty slots are unchanged, and a similar stack keeps its good and never grows |
| Items.TakeUnits | src/main/java/com/vortex/vortexchestshop/listeners/PlayerListener.java:118-130 | the removal takes exactly min(quantity, units present) units, none when the quantity is not positive |
| Economy.EconomyManager.GetBalance | src/main/java/com/vortex/vortexchestshop/managers/EconomyManager.java:80-86 | 0 with no provider, otherwise the provider's balance |
| Economy.EconomyManager.Has | src/main/java/com/vortex/vortexchestshop/managers/EconomyManager.java:31-37 | false with no provider, otherwise whether the balance covers the amount |
| Economy.EconomyManager.Deposit | src/main/java/com/vortex/vortexchestshop/managers/EconomyManager.java:45-55 | false with no provider; otherwise the provider's success flag; on success the balance rises by the amount, on failure it is unchanged; nobody else's balance changes |
| Economy.EconomyManager.Withdraw | src/main/java/com/vortex/vortexchestshop/managers/EconomyManager.java:63-73 | as `Deposit`, with the amount taken off |
| Economy.EconomyManager.constructor | src/main/java/com/vortex/vortexchestshop/managers/EconomyManager.java:17-23 | stores the provider found at start-up, possibly null, which every guard then tests |
| Economy.EconomyManager.CalculateTax | src/main/java/com/vortex/vortexchestshop/managers/EconomyManager.java:94-112 | an online owner with `premium.tax.reduced` pays amount × premium rate; an online owner without it, and any offline owner, pay amount × f2p rate |
| Economy.TaxIsFraction | src/main/java/com/vortex/vortexchestshop/managers/EconomyManager.java:101-111 | with both rates in [0, 1) and a positive amount, 0 ≤ tax < amount and the owner's share is positive |
| Economy.DefaultRatesAreFractions | src/main/java/com/vortex/vortexchestshop/managers/EconomyManager.java:101-103 | the default rates, 0.02 and 0.05, lie in [0, 1) |
| Economy.DefaultTaxOnHundred | src/main/java/com/vortex/vortexchestshop/managers/EconomyManager.java:103-111 | at the default f2p rate a sale at 100 pays 5 tax and leaves 95 for the owner |
| Shops.ShopLimit | src/main/java/com/vortex/vortexchestshop/managers/ShopManager.java:145-173 | with a premium tier in 0..200, the limit is the highest such tier; with none, it is the base raised to the highest f2p tier in 0..200 |
| Shops.ShopManager.GetPlayerShopLimit | src/main/java/com/vortex/vortexchestshop/managers/ShopManager.java:145-173 | the descending scan with its early exit on a premium tier returns `ShopLimit` |
| Shops.PremiumTierOverridesLargerF2p | src/main/java/com/vortex/vortexchestshop/managers/ShopManager.java:154-158 | premium tier 2 with f2p tier 50 and base 5 gives limit 2 |
| Shops.ShopManager.PlayerShopCount | src/main/java/com/vortex/vortexchestshop/managers/ShopManager.java:118-122 | the count of shops with that owner is at most the registry's size, and zero exactly when no shop is theirs |
| Shops.OwnedCountBounded | src/main/java/com/vortex/vortexchestshop/managers/ShopManager.java:118-122 | no owner has more shops than the registry holds |
| Shops.OwnedCountZero | src/main/java/com/vortex/vortexchestshop/managers/ShopManager.java:118-122 | the count is zero exactly when no entry has that owner |
| Shops.OwnedCountPut | src/main/java/com/vortex/vortexchestshop/managers/ShopManager.java:72 | filing a shop under a fresh key adds one to its owner's count and nothing to anyone else's |
| Shops.OwnedCountRemove | src/main/java/com/vortex/vortexchestshop/managers/ShopManager.java:92 | removing a key takes one off the count of the owner of the shop it held, and nothing off anyone else's |
| Shops.ShopManager.CanCreateShop | src/main/java/com/vortex/vortexchestshop/managers/ShopManager.java:129-133 | true exactly when the player's count is below their limit |
| Shops.ShopManager.constructor | src/main/java/com/vortex/vortexchestshop/managers/ShopManager.java:30-33 | the registry starts empty (and so trivially well-keyed) |
| Shops.ShopManager.GetShopAtLocation | src/main/java/com/vortex/vortexchestshop/managers/ShopManager.java:109-111 | non-null exactly when the location's key is registered, and then the shop under that key |
| Shops.ShopAtBlock | src/main/java/com/vortex/vortexchestshop/listeners/ShopListener.java:41-44 | a shop is found only at a chest, and it is a registered one |
| Shops.LookupFindsThatBlock | src/main/java/com/vortex/vortexchestshop/managers/ShopManager.java:109-111 | the shop found at a block's location stands at exactly that location, so `updateShopStock` looks at the chest that was clicked or closed |
| Shops.ShopManager.RemoveShop | src/main/java/com/vortex/vortexchestshop/managers/ShopManager.java:89-102 | true exactly when the key was present; the key is gone afterwards and every other entry is untouched |
| Shops.ShopManager.UpdateShopStock | src/main/java/com/vortex/vortexchestshop/managers/ShopManager.java:180-204 | on a chest: the stock becomes the number of similar units inside, no other field changes, it is written only when it differs, and the registry is unchanged; with no chest: the shop's key is removed and the shop is untouched |
| Shops.ReconcileTwice | src/main/java/com/vortex/vortexchestshop/managers/ShopManager.java:193-197 | a second reconciliation with the chest unchanged writes nothing |
| Shops.ShopManager.CreateShop | src/main/java/com/vortex/vortexchestshop/managers/ShopManager.java:44-82 | null with the registry unchanged when the key is taken or the owner is at the limit; otherwise a fresh shop with the caller's owner, item, price and quantity and the chest's counted stock, filed under the location's key, with the owner's count up by one and still within the limit; with no chest at the location the reconciliation removes it again |
| PlayerListener.RemoveMatching | src/main/java/com/vortex/vortexchestshop/listeners/PlayerListener.java:118-130 | the slots become `Take` of the old slots, and the count removed is min(quantity, matching units) |
| PlayerListener.OnPlayerInteract | src/main/java/com/vortex/vortexchestshop/listeners/PlayerListener.java:29-162 | each guard ends the click exactly when it should, in source order, and nothing moves before the withdrawal; after it, each outcome's effect on both balances, the chest and the shop is stated, including the refund and claw-back whose results are ignored |
| ShopListener.OnBlockBreak | src/main/java/com/vortex/vortexchestshop/listeners/ShopListener.java:33-65 | not a shop: nothing happens; neither owner nor `admin.removeshop`: cancelled, registry unchanged; otherwise the location's key is removed, and the broken shop is no longer registered |
| ShopListener.MayBreak | src/main/java/com/vortex/vortexchestshop/listeners/ShopListener.java:50 | a shop chest may be broken by its owner or by a holder of `vortexchestshop.admin.removeshop`; `OnBlockBreak` refuses exactly the other breaks |
| ShopListener.OnBlockPlace | src/main/java/com/vortex/vortexchestshop/listeners/ShopListener.java:72-88 | placing is cancelled exactly when a chest is placed at a registered key |
| ShopListener.OnInventoryClose | src/main/java/com/vortex/vortexchestshop/listeners/ShopListener.java:95-115 | closing a shop chest sets that shop's stock to the chest's count and leaves the registry alone; only the owner is told the new stock |
| ShopListener.OnInventoryOpen | src/main/java/com/vortex/vortexchestshop/listeners/ShopListener.java:122-142 | opening is cancelled exactly when the chest is a shop and the opener is not its owner |

## Left out

- Messages, colour codes, logging and the formatting of amounts (`%,.2f`) are presentation only.
- Loading and saving shops to the YAML configuration (`loadShops`, `saveShops`, `saveShop`, `deleteShop`) is file I/O. Configuration values are a `Config` value, with the plugin's defaults in `Defaults`.
- Floating item displays and holograms are cosmetic entity and library calls, and so are the display updates the setters trigger. The setters are plain field updates. The periodic stock sweep in `FloatingItemDisplayManager` is not modelled; each reconciliation it runs is `UpdateShopStock`.
- The `/shop` command dispatch (`ShopCommand`) is not part of this model. Its price, quantity and amount-of-one checks are its own and are not carried into `CreateShop`. The sold item is a descriptor without an amount.
- `ItemStack.isSimilar` is modelled as equality of item descriptors (type and metadata, the amount ignored), because the server's item comparison cannot be seen.
- `hasPermission` is modelled as membership in the player's granted tier sets and flags.
- The economy provider (Vault) only shows up through its effect on balances. Whether a deposit or withdrawal succeeds is the provider's decision, so the model leaves it unconstrained. `has` is taken to mean that the balance covers the amount.
- OnPlayerInteract: the buyer-inventory check (`firstEmpty` / `containsAtLeast`) is the input `hasRoom`, and handing the units to the buyer (`addItem`) is not modelled. Both are inventory-capacity rules of the server.
- Serialize: a null `Location` (the first half of the guard at ShopManager.java:322) is not modelled; a location here always exists, and every caller passes a block's location.
- OnPlayerInteract: treats the units the removal loop takes as committed to the chest, and the `chest.update()` that follows (PlayerListener.java:142) as having no effect on its contents. The chest is a block-state snapshot taken at :116; whether `update()` writes that snapshot back over the lowered stacks depends on the server API, which is not part of this model.
- `Bukkit.getWorld` is a map from the names the server resolves to the names of the loaded worlds. The block at a location is an input `Chest?`, null when it is not a chest. A double chest's inventory (a holder that is not a single chest) counts as not a chest.
- `Locations.ParseInt`: ASCII digits only. `Integer.parseInt` also accepts other Unicode decimal digits, which `%d` never writes under the default locale.
- `Locations.FormatInt`: writes ASCII digits, as `%d` does under the default locale. A locale with other digits is not modelled.
- Money and tax rates are `real`. Java `double` rounding is not modelled.
- Concurrency: the registry is a `ConcurrentHashMap`, but every operation here runs on the server thread and is modelled as sequential.
