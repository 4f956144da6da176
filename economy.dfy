/**
  `EconomyManager`: the plugin's guarded front to the server's economy
  provider, and the transaction tax rule.

  The provider (Vault's `Economy`) is external: it keeps the balances and
  decides whether each deposit or withdrawal succeeds. The model fixes only
  what a success or a failure does to the balances.
 */
module Economy {
  import opened Players

  /** The server's economy provider: balances, and transactions that may be refused. */
  class Provider {
    var balances: map<Uuid, real>

    constructor (balances: map<Uuid, real>)
      ensures this.balances == balances
    {
      this.balances := balances;
    }

    /** A player without an account has balance 0. */
    function Balance(p: Uuid): real
      reads this
    {
      if p in balances then balances[p] else 0.0
    }

    /** `Economy.has`: the balance covers the amount. */
    function Has(p: Uuid, amount: real): (r: bool)
      reads this
      ensures r <==> Balance(p) >= amount
    {
      Balance(p) >= amount
    }

    /** `Economy.depositPlayer`: on success the amount is added; a refused deposit changes nothing. */
    method DepositPlayer(p: Uuid, amount: real) returns (ok: bool)
      modifies this
      ensures ok ==> balances == old(balances)[p := old(Balance(p)) + amount]
      ensures !ok ==> balances == old(balances)
    {
      ok :| true;
      if ok {
        balances := balances[p := Balance(p) + amount];
      }
    }

    /** `Economy.withdrawPlayer`: on success the amount is taken; a refused withdrawal changes nothing. */
    method WithdrawPlayer(p: Uuid, amount: real) returns (ok: bool)
      modifies this
      ensures ok ==> balances == old(balances)[p := old(Balance(p)) - amount]
      ensures !ok ==> balances == old(balances)
    {
      ok :| true;
      if ok {
        balances := balances[p := Balance(p) - amount];
      }
    }
  }

  class EconomyManager {
    /** The provider found at start-up; null when none is installed. */
    const economy: Provider?
    const config: Config

    constructor (economy: Provider?, config: Config)
      ensures this.economy == economy && this.config == config
    {
      this.economy := economy;
      this.config := config;
    }

    /** `getBalance`: the provider's balance, or 0 when there is no provider. */
    function GetBalance(p: Uuid): (r: real)
      reads economy
      ensures economy == null ==> r == 0.0
      ensures economy != null ==> r == economy.Balance(p)
    {
      if economy == null then 0.0 else economy.Balance(p)
    }

    /** `has`: false when there is no provider, otherwise the provider's answer. */
    function Has(p: Uuid, amount: real): (r: bool)
      reads economy
      ensures economy == null ==> !r
      ensures economy != null ==> (r <==> GetBalance(p) >= amount)
    {
      economy != null && economy.Has(p, amount)
    }

    /** `deposit`: false when there is no provider, otherwise exactly the provider's success flag. */
    method Deposit(p: Uuid, amount: real) returns (ok: bool)
      modifies economy
      ensures economy == null ==> !ok
      ensures ok ==> GetBalance(p) == old(GetBalance(p)) + amount
      ensures !ok ==> GetBalance(p) == old(GetBalance(p))
      ensures forall q :: q != p ==> GetBalance(q) == old(GetBalance(q))
    {
      if economy == null {
        return false;
      }
      ok := economy.DepositPlayer(p, amount);
    }

    /** `withdraw`: false when there is no provider, otherwise exactly the provider's success flag. */
    method Withdraw(p: Uuid, amount: real) returns (ok: bool)
      modifies economy
      ensures economy == null ==> !ok
      ensures ok ==> GetBalance(p) == old(GetBalance(p)) - amount
      ensures !ok ==> GetBalance(p) == old(GetBalance(p))
      ensures forall q :: q != p ==> GetBalance(q) == old(GetBalance(q))
    {
      if economy == null {
        return false;
      }
      ok := economy.WithdrawPlayer(p, amount);
    }

    /** The rate `calculateTax` applies: the premium rate needs an online owner holding `premium.tax.reduced`. */
    function TaxRate(owner: Player): real
    {
      if owner.online && owner.perms.taxReduced then config.premiumTax else config.f2pTax
    }

    /** `calculateTax`: the amount times the owner's rate. */
    function CalculateTax(owner: Player, amount: real): (tax: real)
      ensures owner.online && owner.perms.taxReduced ==> tax == amount * config.premiumTax
      ensures owner.online && !owner.perms.taxReduced ==> tax == amount * config.f2pTax
      ensures !owner.online ==> tax == amount * config.f2pTax
    {
      amount * TaxRate(owner)
    }
  }

  /** With rates in [0, 1) and a positive amount, the tax is a fraction of it and the owner's share is positive. */
  lemma TaxIsFraction(m: EconomyManager, owner: Player, amount: real)
    requires RatesAreFractions(m.config) && amount > 0.0
    ensures 0.0 <= m.CalculateTax(owner, amount) < amount
    ensures amount - m.CalculateTax(owner, amount) > 0.0
  {
    var r := m.TaxRate(owner);
    assert 0.0 <= r < 1.0;
    assert amount * r < amount * 1.0;
  }

  /** The default rates are fractions: 2% premium, 5% otherwise. */
  lemma DefaultRatesAreFractions()
    ensures RatesAreFractions(Defaults)
  {
  }

  /** Under the default rates a sale of 100 by an owner without reduced tax pays 5 tax and leaves 95 for the owner. */
  lemma DefaultTaxOnHundred(m: EconomyManager, owner: Player)
    requires m.config == Defaults && !(owner.online && owner.perms.taxReduced)
    ensures m.CalculateTax(owner, 100.0) == 5.0
    ensures 100.0 - m.CalculateTax(owner, 100.0) == 95.0
  {
  }
}
