/** Players, the permissions the plugin queries, and the plugin's configuration. */
module Players {

  /** A player's UUID; only equality matters. */
  datatype Uuid = Uuid(bits: nat)

  /**
    The permissions the plugin asks about, as granted tier numbers and flags:
    `vortexchestshop.premium.slots.<n>` for each n in `premiumSlots`,
    `vortexchestshop.player.maxshops.f2p.<n>` for each n in `f2pSlots`,
    `vortexchestshop.premium.tax.reduced` and `vortexchestshop.admin.removeshop`.
   */
  datatype Permissions = Permissions(
    premiumSlots: set<int>,
    f2pSlots: set<int>,
    taxReduced: bool,
    adminRemoveShop: bool)

  const NoPermissions := Permissions({}, {}, false, false)

  /** A player as the server reports them: online or not, and (when online) their permissions. */
  datatype Player = Player(id: Uuid, online: bool, perms: Permissions)

  /** The players currently online, with their permissions. */
  datatype Server = Server(online: map<Uuid, Permissions>)

  /** `Bukkit.getOfflinePlayer(id)`: offline players have no permissions the plugin can query. */
  function OfflinePlayer(server: Server, id: Uuid): (p: Player)
    ensures p.id == id && p.online == (id in server.online)
    ensures p.online ==> p.perms == server.online[id]
  {
    if id in server.online then Player(id, true, server.online[id]) else Player(id, false, NoPermissions)
  }

  /** The `shop-settings` keys of `config.yml` that the plugin reads. */
  datatype Config = Config(
    f2pMaxShops: int,             // shop-settings.f2p-max-shops
    premiumTax: real,             // shop-settings.premium-transaction-tax
    f2pTax: real,                 // shop-settings.f2p-transaction-tax
    defaultDisplayEnabled: bool)  // shop-settings.default-floating-display-enabled

  /** The values used when a key is missing from the configuration. */
  const Defaults := Config(5, 0.02, 0.05, true)

  /** Both tax rates lie in [0, 1). */
  predicate RatesAreFractions(c: Config)
  {
    0.0 <= c.premiumTax < 1.0 && 0.0 <= c.f2pTax < 1.0
  }
}
