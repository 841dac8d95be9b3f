/** The basic vault registry contract: a global counter hands out vault ids,
    each vault records its creator, a name, an ordered list of users and an
    EGLD balance, and `distribute` pays the balance out to the users in equal
    integer shares. */
module BasicVault {
  import opened Elrond

  /** One stored vault record. */
  datatype Vault = Vault(id: nat, creator: Address, name: string, users: seq<Address>, amount: nat)

  /** One `direct_egld` transfer the contract emits. */
  datatype Payment = Payment(to: Address, amount: nat)

  /** Why an endpoint aborts: the four `require!` messages, and the failure to
      decode a vault record from a storage key that holds nothing. */
  datatype Error =
    | TokenMustBeEgld     // "The token must be egld"
    | SupplySomeEgld      // "Supply some egld in the vault"
    | NotVaultOwner       // "Not vault owner"
    | NoAddresses         // "No addresses to distribute to"
    | NoFunds             // "No funds available"
    | VaultUndecodable    // `vaults(id).get()` on an id that was never stored

  /** The payments of one distribution, in list order: `perUser` to each user.
      There is one payment per user (`PayoutsAt` says which). */
  function Payouts(users: seq<Address>, perUser: nat): (r: seq<Payment>)
    ensures |r| == |users|
  {
    if users == [] then []
    else Payouts(users[..|users| - 1], perUser) + [Payment(users[|users| - 1], perUser)]
  }

  /** The sum of the amounts of a sequence of payments. */
  function Total(ps: seq<Payment>): (r: nat)
  {
    if ps == [] then 0 else Total(ps[..|ps| - 1]) + ps[|ps| - 1].amount
  }

  lemma MulSucc(p: nat, k: nat)
    ensures p * k + p == p * (k + 1)
  {
  }

  lemma MulMonotone(a: nat, b: nat, p: nat)
    requires a <= b
    ensures a * p <= b * p
  {
  }

  /** One more share still fits in the balance while users remain. */
  lemma ShareFits(i: nat, n: nat, amount: nat)
    requires i < n
    ensures i * (amount / n) + amount / n == (i + 1) * (amount / n) <= amount
  {
    MulMonotone(i + 1, n, amount / n);
    DivSplit(amount, n);
  }

  lemma DivSplit(amount: nat, n: nat)
    requires n > 0
    ensures n * (amount / n) + amount % n == amount
    ensures (amount / n) * n + amount % n == amount
  {
  }

  /** The total of a log is the sum of the totals of its parts. */
  lemma {:induction false} TotalConcat(xs: seq<Payment>, ys: seq<Payment>)
    ensures Total(xs + ys) == Total(xs) + Total(ys)
  {
    if ys != [] {
      assert (xs + ys)[..|xs + ys| - 1] == xs + ys[..|ys| - 1];
      TotalConcat(xs, ys[..|ys| - 1]);
    } else {
      assert xs + ys == xs;
    }
  }

  /** A distribution pays each user exactly once, in the order of the list. */
  lemma {:induction false} PayoutsAt(users: seq<Address>, perUser: nat)
    ensures |Payouts(users, perUser)| == |users|
    ensures forall k :: 0 <= k < |users| ==> Payouts(users, perUser)[k] == Payment(users[k], perUser)
  {
    if users != [] {
      PayoutsAt(users[..|users| - 1], perUser);
    }
  }

  /** A distribution pays out `perUser` times the number of users, duplicates included. */
  lemma {:induction false} PayoutsTotal(users: seq<Address>, perUser: nat)
    ensures Total(Payouts(users, perUser)) == perUser * |users|
  {
    if users != [] {
      var init := users[..|users| - 1];
      var ps := Payouts(users, perUser);
      PayoutsTotal(init, perUser);
      PayoutsAt(users, perUser);
      assert ps[..|ps| - 1] == Payouts(init, perUser);
      assert Total(ps) == perUser * |init| + perUser;
      MulSucc(perUser, |init|);
    }
  }

  /** Splitting `amount` by floor division among the users pays out at most
      `amount`, and what is left over is exactly `amount % |users|`. */
  lemma DistributionSplit(users: seq<Address>, amount: nat)
    requires |users| > 0
    ensures Total(Payouts(users, amount / |users|)) + amount % |users| == amount
    ensures Total(Payouts(users, amount / |users|)) <= amount
  {
    PayoutsTotal(users, amount / |users|);
  }

  /** Because `distribute` never writes the decremented balance back, the same
      record can be distributed again: once the vault holds at least one unit
      per user, two distributions together pay out more than the vault holds. */
  lemma RepeatedDistributionOverpays(users: seq<Address>, amount: nat)
    requires 0 < |users| <= amount
    ensures 2 * Total(Payouts(users, amount / |users|)) > amount
  {
    var n, perUser := |users|, amount / |users|;
    PayoutsTotal(users, perUser);
    assert perUser >= 1;
    assert perUser * n >= n;
    assert amount == perUser * n + amount % n;
  }

  /** The payout loop of `distribute`: it walks the users in order, takes
      `perUser` off the in-memory balance and emits one payment per user.
      It returns the in-memory balance left at the end and the payments made. */
  method PayEach(users: seq<Address>, amount: nat) returns (remaining: nat, sent: seq<Payment>)
    requires |users| > 0
    ensures sent == Payouts(users, amount / |users|)
    ensures Total(sent) + remaining == amount
    ensures remaining == amount % |users|
  {
    var n, perUser := |users|, amount / |users|;
    remaining, sent := amount, [];
    var i := 0;
    while i < n
      invariant 0 <= i <= n
      invariant sent == Payouts(users[..i], perUser)
      invariant remaining + i * perUser == amount
    {
      ShareFits(i, n, amount);
      remaining := remaining - perUser;
      sent := sent + [Payment(users[i], perUser)];
      assert users[..i + 1][..i] == users[..i];
      i := i + 1;
    }
    assert users[..i] == users;
    PayoutsTotal(users, perUser);
    DivSplit(amount, n);
  }

  /** The contract's storage (`totalVaults`, `vaults`) and the log of transfers it has made. */
  class VaultRegistry {
    var totalVaults: nat
    var vaults: map<nat, Vault>
    var payments: seq<Payment>

    /** Every stored vault sits under its own id, and every id is below the
        counter, so the next id handed out is free. */
    ghost predicate Valid()
      reads this
    {
      forall k :: k in vaults ==> k < totalVaults && vaults[k].id == k
    }

    /** Fresh storage before the first deployment: an empty counter, no vaults. */
    constructor ()
      ensures Valid()
      ensures totalVaults == 0 && vaults == map[] && payments == []
    {
      totalVaults, vaults, payments := 0, map[], [];
    }

    /** `init` stores 0 in the counter only if the slot is empty. A u64 zero is
        encoded as the empty value, so an empty slot reads as 0 and the
        counter a reader sees never changes, on the first deployment or a later one. */
    method Init()
      requires Valid()
      modifies this`totalVaults
      ensures Valid()
      ensures totalVaults == old(totalVaults)
    {
      if totalVaults == 0 {
        totalVaults := 0;
      }
    }

    /** `createVault`: the payment must be EGLD and non-zero; the vault gets the
        current counter value as its id, the caller as creator, no users and
        the payment as balance, and the counter moves on by one. */
    method CreateVault(caller: Address, token: TokenId, initialAmount: nat, name: string)
      returns (r: Result<nat, Error>)
      requires Valid()
      modifies this`totalVaults, this`vaults
      ensures Valid()
      ensures !IsEgld(token) ==> r == Err(TokenMustBeEgld)
      ensures IsEgld(token) && initialAmount == 0 ==> r == Err(SupplySomeEgld)
      ensures r.Err? ==> totalVaults == old(totalVaults) && vaults == old(vaults)
      ensures r.Ok? <==> IsEgld(token) && initialAmount > 0
      ensures r.Ok? ==>
        && r.value == old(totalVaults)
        && r.value !in old(vaults)
        && vaults == old(vaults)[r.value := Vault(r.value, caller, name, [], initialAmount)]
        && totalVaults == old(totalVaults) + 1
    {
      if !IsEgld(token) {
        return Err(TokenMustBeEgld);
      }
      if initialAmount == 0 {
        return Err(SupplySomeEgld);
      }
      var vault := Vault(totalVaults, caller, name, [], initialAmount);
      vaults := vaults[vault.id := vault];
      totalVaults := totalVaults + 1;
      r := Ok(vault.id);
    }

    /** `addUser`: only the vault's creator may append a user; the user is
        appended at the end, even if already present. */
    method AddUser(caller: Address, vaultId: nat, newUser: Address) returns (r: Outcome<Error>)
      requires Valid()
      modifies this`vaults
      ensures Valid()
      ensures vaultId !in old(vaults) ==> r == Fail(VaultUndecodable)
      ensures vaultId in old(vaults) && caller != old(vaults)[vaultId].creator ==> r == Fail(NotVaultOwner)
      ensures r.Fail? ==> vaults == old(vaults)
      ensures r.Pass? <==> vaultId in old(vaults) && caller == old(vaults)[vaultId].creator
      ensures r.Pass? ==>
        vaults == old(vaults)[vaultId := old(vaults)[vaultId].(users := old(vaults)[vaultId].users + [newUser])]
    {
      if vaultId !in vaults {
        return Fail(VaultUndecodable);
      }
      var vault := vaults[vaultId];
      if caller != vault.creator {
        return Fail(NotVaultOwner);
      }
      vault := vault.(users := vault.users + [newUser]);
      vaults := vaults[vaultId := vault];
      r := Pass;
    }

    /** `addAmount`: an EGLD, non-zero top-up by the vault's creator adds exactly
        the payment to the balance. */
    method AddAmount(caller: Address, token: TokenId, amount: nat, vaultId: nat) returns (r: Outcome<Error>)
      requires Valid()
      modifies this`vaults
      ensures Valid()
      ensures !IsEgld(token) ==> r == Fail(TokenMustBeEgld)
      ensures IsEgld(token) && amount == 0 ==> r == Fail(SupplySomeEgld)
      ensures IsEgld(token) && amount > 0 && vaultId !in old(vaults) ==> r == Fail(VaultUndecodable)
      ensures IsEgld(token) && amount > 0 && vaultId in old(vaults) && caller != old(vaults)[vaultId].creator
        ==> r == Fail(NotVaultOwner)
      ensures r.Fail? ==> vaults == old(vaults)
      ensures r.Pass? <==> IsEgld(token) && amount > 0 && vaultId in old(vaults) && caller == old(vaults)[vaultId].creator
      ensures r.Pass? ==>
        vaults == old(vaults)[vaultId := old(vaults)[vaultId].(amount := old(vaults)[vaultId].amount + amount)]
    {
      if !IsEgld(token) {
        return Fail(TokenMustBeEgld);
      }
      if amount == 0 {
        return Fail(SupplySomeEgld);
      }
      if vaultId !in vaults {
        return Fail(VaultUndecodable);
      }
      var vault := vaults[vaultId];
      if caller != vault.creator {
        return Fail(NotVaultOwner);
      }
      vault := vault.(amount := vault.amount + amount);
      vaults := vaults[vaultId := vault];
      r := Pass;
    }

    /** `distribute`: anyone may call it; a vault with users and a non-zero
        balance pays `amount / |users|` to each user in list order. The
        decremented balance lives only in a local copy, so the stored record,
        balance included, is left as it was. */
    method Distribute(vaultId: nat) returns (r: Outcome<Error>)
      requires Valid()
      modifies this`payments
      ensures Valid()
      ensures vaultId !in vaults ==> r == Fail(VaultUndecodable)
      ensures vaultId in vaults && vaults[vaultId].users == [] ==> r == Fail(NoAddresses)
      ensures vaultId in vaults && vaults[vaultId].users != [] && vaults[vaultId].amount == 0 ==> r == Fail(NoFunds)
      ensures r.Fail? ==> payments == old(payments)
      ensures r.Pass? <==> vaultId in vaults && vaults[vaultId].users != [] && vaults[vaultId].amount != 0
      ensures r.Pass? ==>
        payments == old(payments) + Payouts(vaults[vaultId].users, vaults[vaultId].amount / |vaults[vaultId].users|)
    {
      if vaultId !in vaults {
        return Fail(VaultUndecodable);
      }
      var vault := vaults[vaultId];
      if |vault.users| == 0 {
        return Fail(NoAddresses);
      }
      if vault.amount == 0 {
        return Fail(NoFunds);
      }
      var remaining, sent := PayEach(vault.users, vault.amount);
      vault := vault.(amount := remaining);
      payments := payments + sent;
      r := Pass;
    }
  }

  /** Successive vaults get successive ids, and a rejected payment allocates nothing. */
  method CreateVaultExample(alice: Address, bob: Address)
    returns (first: Result<nat, Error>, second: Result<nat, Error>, rejected: Result<nat, Error>, count: nat)
    ensures first == Ok(0) && second == Ok(1)
    ensures rejected == Err(TokenMustBeEgld)
    ensures count == 2
  {
    var registry := new VaultRegistry();
    registry.Init();
    first := registry.CreateVault(alice, EGLD, 5, "a");
    second := registry.CreateVault(bob, EGLD, 7, "b");
    rejected := registry.CreateVault(alice, "USDC-c76f1f", 9, "c");
    count := registry.totalVaults;
  }

  /** Two vaults are funded with 100 each, so the contract holds 200 EGLD. The
      first, with three users, pays 33 to each user; its stored balance stays
      100, so a second call pays the same again. The 198 paid in all exceed
      the first vault's deposit, and the second vault's deposit covers the
      difference: the stored records still read 100 and 100 while only 2 EGLD
      are left in the contract. */
  method DistributeTwiceExample(creator: Address, other: Address, a: Address, b: Address, c: Address)
    returns (first: Outcome<Error>, second: Outcome<Error>, paid: seq<Payment>, stored: nat, storedOther: nat)
    ensures first == Pass && second == Pass
    ensures paid == [Payment(a, 33), Payment(b, 33), Payment(c, 33), Payment(a, 33), Payment(b, 33), Payment(c, 33)]
    ensures Total(paid) == 198 && stored == 100 && storedOther == 100
    ensures Total(paid) > stored && Total(paid) <= stored + storedOther
  {
    var registry := new VaultRegistry();
    registry.Init();
    var id := registry.CreateVault(creator, EGLD, 100, "pool");
    var reserve := registry.CreateVault(other, EGLD, 100, "reserve");
    assert registry.vaults[0] == Vault(0, creator, "pool", [], 100);
    var added := registry.AddUser(creator, 0, a);
    added := registry.AddUser(creator, 0, b);
    added := registry.AddUser(creator, 0, c);
    assert registry.vaults[0] == Vault(0, creator, "pool", [a, b, c], 100);
    assert registry.vaults[1] == Vault(1, other, "reserve", [], 100);
    assert registry.payments == [];
    first := registry.Distribute(0);
    assert registry.payments == Payouts([a, b, c], 33);
    second := registry.Distribute(0);
    paid := registry.payments;
    stored := registry.vaults[0].amount;
    storedOther := registry.vaults[1].amount;
    assert paid == Payouts([a, b, c], 33) + Payouts([a, b, c], 33);
    TwoPayoutsOfThree(a, b, c, 33);
  }

  /** Two distributions of `perUser` among three users, written out. */
  lemma TwoPayoutsOfThree(a: Address, b: Address, c: Address, perUser: nat)
    ensures var once := Payouts([a, b, c], perUser);
      && once + once == [Payment(a, perUser), Payment(b, perUser), Payment(c, perUser),
                         Payment(a, perUser), Payment(b, perUser), Payment(c, perUser)]
      && Total(once + once) == 6 * perUser
  {
    assert [a][..0] == [];
    assert Payouts([a], perUser) == [Payment(a, perUser)];
    assert [a, b][..1] == [a];
    assert Payouts([a, b], perUser) == [Payment(a, perUser), Payment(b, perUser)];
    assert [a, b, c][..2] == [a, b];
    PayoutsTotal([a, b, c], perUser);
    TotalConcat(Payouts([a, b, c], perUser), Payouts([a, b, c], perUser));
  }

  /** Two successive `distribute` calls on a stored vault holding at least one
      unit per user both commit, leave every stored record as it was, and add
      more to the payment log than the vault's balance: the second call pays
      out again a balance the first one already spent. */
  method RepeatedDistribution(registry: VaultRegistry, vaultId: nat) returns (first: Outcome<Error>, second: Outcome<Error>)
    requires registry.Valid()
    requires vaultId in registry.vaults
    requires 0 < |registry.vaults[vaultId].users| <= registry.vaults[vaultId].amount
    modifies registry`payments
    ensures registry.Valid()
    ensures first == Pass && second == Pass
    ensures registry.vaults == old(registry.vaults) && registry.totalVaults == old(registry.totalVaults)
    ensures Total(registry.payments) > Total(old(registry.payments)) + registry.vaults[vaultId].amount
  {
    var users, amount := registry.vaults[vaultId].users, registry.vaults[vaultId].amount;
    first := registry.Distribute(vaultId);
    second := registry.Distribute(vaultId);
    var once := Payouts(users, amount / |users|);
    assert registry.payments == old(registry.payments) + once + once;
    TotalConcat(old(registry.payments) + once, once);
    TotalConcat(old(registry.payments), once);
    RepeatedDistributionOverpays(users, amount);
  }
}
