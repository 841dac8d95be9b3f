/** The yield vault contract: one vault instance with governance roles, fee
    rates, a deposit limit, debt and locked-profit bookkeeping, and a share
    token that is issued asynchronously by the ESDT system contract. */
module YVault {
  import opened Elrond

  /** Fixed-point scale of the degradation rate (10^18). */
  const DEGRADATION_COEFFICIENT: nat := 1_000_000_000_000_000_000
  /** Declared by the contract and never used by it. */
  const MANAGEMENT_FEE: nat := 200
  /** 100% in basis points. */
  const MAX_BPS: nat := 10_000
  /** The performance fee `init` stores. */
  const INITIAL_PERFORMANCE_FEE: nat := 10_000
  /** The degradation rate `init` stores: 10^18 * 46 * 10^6. */
  const INITIAL_DEGRADATION: nat := DEGRADATION_COEFFICIENT * 46 * 1_000_000

  /** Why an endpoint or a valuation aborts. */
  datatype Error =
    | OnlyOwner               // `#[only_owner]`: the caller is not the owner
    | PaymentNotEgld          // `#[payable("EGLD")]`: another token was attached
    | WrongRewardsAddress     // "Wrong address for rewards"
    | DegradationCheckFailed  // the `require!` of setLockedProfitDegradation (empty message)
    | FeeAboveMaxBps          // "fee must be <= MAX_BPS"
    | TokenAlreadyIssued      // "Token already issued!"
    | VaultTokenNotIssued     // "Vault token not issued!"
    | SubtractionUnderflow    // a `BigUint` subtraction whose result would be negative

  /** The share-token issuance request handed to the ESDT system contract
      (`register_meta_esdt`); the token properties are fixed by the contract. */
  datatype IssueRequest = IssueRequest(issueCost: nat, name: string, ticker: string)

  /** The request granting `address` the Mint and Burn roles on `token` (`set_special_roles`). */
  datatype RoleRequest = RoleRequest(address: Address, token: TokenId)

  /** One `send().direct` transfer. */
  datatype Transfer = Transfer(to: Address, token: TokenId, amount: nat)

  /** What the issuance callback receives. */
  datatype AsyncResult = AsyncOk(tokenId: TokenId) | AsyncErr(message: string)

  /** `_total_assets`: the contract's balance of its base token plus the debt
      lent out to strategies. */
  function TotalAssets(held: nat, totalDebt: nat): (r: nat)
    ensures held <= r && totalDebt <= r
    ensures r - held == totalDebt
  {
    held + totalDebt
  }

  /** `_calculate_locked_profit`, over the stored locked profit, degradation
      rate and last report time, written as the contract computes it. The
      elapsed time is a `BigUint` subtraction, which aborts when `now` lies
      before the last report. Since the ratio is divided by the coefficient
      only when it is below the coefficient, the quotient is always 0: the
      locked profit does not decay linearly, it is all locked until the ratio
      reaches 10^18 and then all released. */
  function LockedProfitValue(lockedProfit: nat, degradation: nat, lastReport: nat, now: nat): (r: Result<nat, Error>)
    ensures now < lastReport ==> r == Err(SubtractionUnderflow)
    ensures now >= lastReport ==>
      r == Ok(if (now - lastReport) * degradation < DEGRADATION_COEFFICIENT then lockedProfit else 0)
  {
    if now < lastReport then Err(SubtractionUnderflow)
    else
      var lockedFundsRatio := (now - lastReport) * degradation;
      if lockedFundsRatio < DEGRADATION_COEFFICIENT then
        assert lockedFundsRatio / DEGRADATION_COEFFICIENT == 0;
        Ok(lockedProfit * (1 - lockedFundsRatio / DEGRADATION_COEFFICIENT))
      else
        Ok(0)
  }

  /** `_free_funds`: total assets minus the locked profit, a `BigUint`
      subtraction that aborts rather than clamping. Free funds exist exactly
      when the locked profit can be computed and does not exceed the total
      assets; they are then what is left of the total assets once the locked
      profit is taken off. */
  function FreeFunds(held: nat, totalDebt: nat, lockedProfit: nat, degradation: nat, lastReport: nat, now: nat)
    : (r: Result<nat, Error>)
    ensures var locked := LockedProfitValue(lockedProfit, degradation, lastReport, now);
      r.Ok? <==> locked.Ok? && locked.value <= held + totalDebt
    ensures var locked := LockedProfitValue(lockedProfit, degradation, lastReport, now);
      r.Ok? ==> r.value + locked.value == held + totalDebt
  {
    var total := TotalAssets(held, totalDebt);
    match LockedProfitValue(lockedProfit, degradation, lastReport, now)
    case Err(e) => Err(e)
    case Ok(locked) => if locked > total then Err(SubtractionUnderflow) else Ok(total - locked)
  }

  /** The locked profit never exceeds the stored locked profit, and it is all
      of it at the moment of the last report. */
  lemma LockedProfitBounds(lockedProfit: nat, degradation: nat, lastReport: nat, now: nat)
    ensures LockedProfitValue(lockedProfit, degradation, lastReport, now).Ok? <==> lastReport <= now
    ensures LockedProfitValue(lockedProfit, degradation, lastReport, now).Ok? ==>
      LockedProfitValue(lockedProfit, degradation, lastReport, now).value <= lockedProfit
    ensures LockedProfitValue(lockedProfit, degradation, lastReport, lastReport) == Ok(lockedProfit)
  {
  }

  /** As time passes the locked profit can only go down. */
  lemma LockedProfitNonIncreasing(lockedProfit: nat, degradation: nat, lastReport: nat, earlier: nat, later: nat)
    requires lastReport <= earlier <= later
    ensures LockedProfitValue(lockedProfit, degradation, lastReport, earlier).Ok?
    ensures LockedProfitValue(lockedProfit, degradation, lastReport, later).Ok?
    ensures LockedProfitValue(lockedProfit, degradation, lastReport, later).value
         <= LockedProfitValue(lockedProfit, degradation, lastReport, earlier).value
  {
  }

  /** With the rate `init` stores, one time unit after the last report the
      ratio already exceeds the coefficient: all profit is released at once. */
  lemma LockedProfitReleasedAfterInitialRate(lockedProfit: nat, lastReport: nat, now: nat)
    requires lastReport < now
    ensures LockedProfitValue(lockedProfit, INITIAL_DEGRADATION, lastReport, now) == Ok(0)
  {
  }

  /** The vault's storage mappers, and the logs of the requests and transfers it has made. */
  class YieldVault {
    var token: TokenId
    var vaultToken: TokenId         // "" while no share token is stored
    var vaultTokenName: string
    var symbol: string
    var management: Address
    var guardian: Address
    var rewards: Address
    var lockedProfit: nat
    var lockedProfitDegradation: nat
    var depositLimit: nat
    var performanceFee: nat
    var managementFee: nat
    var totalDebt: nat
    var activation: nat
    var lastReport: nat

    var issueRequests: seq<IssueRequest>
    var roleRequests: seq<RoleRequest>
    var transfers: seq<Transfer>

    /** Both fee rates are at most 100%. */
    ghost predicate Valid()
      reads this
    {
      performanceFee <= MAX_BPS && managementFee <= MAX_BPS
    }

    /** `init`: stores the base token, symbol and the three roles, a 100%
        performance fee, the deployment time as activation and last report,
        and the initial degradation rate, then asks for the share token
        exactly as `createVaultToken` does. Mappers it does not set read as zero or empty. */
    constructor Init(token: TokenId, issueCost: nat, vaultTokenName: string, vaultTokenTicker: string,
                     management: Address, guardian: Address, rewards: Address, symbolOverride: string, now: nat)
      ensures Valid()
      ensures this.token == token && symbol == symbolOverride
      ensures this.management == management && this.guardian == guardian && this.rewards == rewards
      ensures performanceFee == INITIAL_PERFORMANCE_FEE && managementFee == 0
      ensures lastReport == now && activation == now
      ensures lockedProfitDegradation == INITIAL_DEGRADATION && lockedProfitDegradation > DEGRADATION_COEFFICIENT
      ensures lockedProfit == 0 && depositLimit == 0 && totalDebt == 0
      ensures vaultToken == "" && this.vaultTokenName == vaultTokenName
      ensures issueRequests == [IssueRequest(issueCost, vaultTokenName, vaultTokenTicker)]
      ensures roleRequests == [] && transfers == []
    {
      this.token := token;
      symbol := symbolOverride;
      this.management := management;
      this.guardian := guardian;
      this.rewards := rewards;
      performanceFee := INITIAL_PERFORMANCE_FEE;
      lastReport := now;
      activation := now;
      lockedProfitDegradation := DEGRADATION_COEFFICIENT * 46 * 1_000_000;
      lockedProfit, depositLimit, managementFee, totalDebt := 0, 0, 0, 0;
      vaultToken := "";
      roleRequests, transfers := [], [];
      // The share-token request of `create_vault_token`: the deployer is the
      // owner and no share token is stored yet, so its guards pass.
      this.vaultTokenName := vaultTokenName;
      issueRequests := [IssueRequest(issueCost, vaultTokenName, vaultTokenTicker)];
    }

    /** `createVaultToken`: an owner-only, EGLD-paid request for the share
        token, refused once a share token is stored. It records the name and
        issues the request; the token id arrives later, in `IssueCallback`. */
    method CreateVaultToken(caller: Address, owner: Address, paymentToken: TokenId, issueCost: nat,
                            name: string, ticker: string) returns (r: Outcome<Error>)
      requires Valid()
      modifies this`vaultTokenName, this`issueRequests
      ensures Valid()
      ensures !IsEgld(paymentToken) ==> r == Fail(PaymentNotEgld)
      ensures IsEgld(paymentToken) && caller != owner ==> r == Fail(OnlyOwner)
      ensures IsEgld(paymentToken) && caller == owner && vaultToken != "" ==> r == Fail(TokenAlreadyIssued)
      ensures r.Pass? <==> IsEgld(paymentToken) && caller == owner && vaultToken == ""
      ensures r.Pass? ==> vaultTokenName == name && issueRequests == old(issueRequests) + [IssueRequest(issueCost, name, ticker)]
      ensures r.Fail? ==> vaultTokenName == old(vaultTokenName) && issueRequests == old(issueRequests)
    {
      if !IsEgld(paymentToken) {
        return Fail(PaymentNotEgld);
      }
      if caller != owner {
        return Fail(OnlyOwner);
      }
      if vaultToken != "" {
        return Fail(TokenAlreadyIssued);
      }
      vaultTokenName := name;
      issueRequests := issueRequests + [IssueRequest(issueCost, name, ticker)];
      r := Pass;
    }

    /** `issue_callback`. On success the returned id is stored and the Mint and
        Burn roles are requested for the contract's own address; an empty id
        fails the "not issued" check and aborts. On failure the EGLD paid back
        by the system contract, if any, is sent to the owner and no share token
        is stored. */
    method IssueCallback(result: AsyncResult, owner: Address, scAddress: Address,
                         paymentToken: TokenId, paymentAmount: nat) returns (r: Outcome<Error>)
      requires Valid()
      modifies this`vaultToken, this`roleRequests, this`transfers
      ensures Valid()
      ensures r.Fail? <==> result.AsyncOk? && result.tokenId == ""
      ensures r.Fail? ==> r.error == VaultTokenNotIssued
      ensures r.Fail? ==> vaultToken == old(vaultToken) && roleRequests == old(roleRequests) && transfers == old(transfers)
      ensures result.AsyncOk? && r.Pass? ==>
        && vaultToken == result.tokenId
        && roleRequests == old(roleRequests) + [RoleRequest(scAddress, result.tokenId)]
        && transfers == old(transfers)
      ensures result.AsyncErr? ==>
        && vaultToken == old(vaultToken)
        && roleRequests == old(roleRequests)
        && transfers == old(transfers)
             + (if IsEgld(paymentToken) && paymentAmount > 0 then [Transfer(owner, paymentToken, paymentAmount)] else [])
    {
      match result
      case AsyncOk(tokenId) =>
        if tokenId == "" {
          return Fail(VaultTokenNotIssued);
        }
        vaultToken := tokenId;
        roleRequests := roleRequests + [RoleRequest(scAddress, vaultToken)];
        r := Pass;
      case AsyncErr(_) =>
        if IsEgld(paymentToken) && paymentAmount > 0 {
          transfers := transfers + [Transfer(owner, paymentToken, paymentAmount)];
        }
        r := Pass;
    }

    /** `setSymbol`. */
    method SetSymbol(caller: Address, owner: Address, name: string) returns (r: Outcome<Error>)
      requires Valid()
      modifies this`symbol
      ensures Valid()
      ensures r == (if caller == owner then Pass else Fail(OnlyOwner))
      ensures symbol == (if r.Pass? then name else old(symbol))
    {
      if caller != owner {
        return Fail(OnlyOwner);
      }
      symbol := name;
      r := Pass;
    }

    /** `setManagement`. */
    method SetManagement(caller: Address, owner: Address, address: Address) returns (r: Outcome<Error>)
      requires Valid()
      modifies this`management
      ensures Valid()
      ensures r == (if caller == owner then Pass else Fail(OnlyOwner))
      ensures management == (if r.Pass? then address else old(management))
    {
      if caller != owner {
        return Fail(OnlyOwner);
      }
      management := address;
      r := Pass;
    }

    /** `setRewards`: the rewards destination may be neither the contract's
        own address nor the zero address. */
    method SetRewards(caller: Address, owner: Address, scAddress: Address, newRewards: Address)
      returns (r: Outcome<Error>)
      requires Valid()
      modifies this`rewards
      ensures Valid()
      ensures caller != owner ==> r == Fail(OnlyOwner)
      ensures caller == owner && (newRewards == scAddress || IsZero(newRewards)) ==> r == Fail(WrongRewardsAddress)
      ensures r.Pass? <==> caller == owner && newRewards != scAddress && !IsZero(newRewards)
      ensures rewards == (if r.Pass? then newRewards else old(rewards))
    {
      if caller != owner {
        return Fail(OnlyOwner);
      }
      if newRewards == scAddress || IsZero(newRewards) {
        return Fail(WrongRewardsAddress);
      }
      rewards := newRewards;
      r := Pass;
    }

    /** `setLockedProfitDegradation`: the guard compares the rate already
        stored, not the new one, with the coefficient; any new rate is stored
        when the guard passes. */
    method SetLockedProfitDegradation(caller: Address, owner: Address, degradation: nat) returns (r: Outcome<Error>)
      requires Valid()
      modifies this`lockedProfitDegradation
      ensures Valid()
      ensures caller != owner ==> r == Fail(OnlyOwner)
      ensures caller == owner && old(lockedProfitDegradation) > DEGRADATION_COEFFICIENT ==> r == Fail(DegradationCheckFailed)
      ensures r.Pass? <==> caller == owner && old(lockedProfitDegradation) <= DEGRADATION_COEFFICIENT
      ensures lockedProfitDegradation == (if r.Pass? then degradation else old(lockedProfitDegradation))
    {
      if caller != owner {
        return Fail(OnlyOwner);
      }
      if lockedProfitDegradation > DEGRADATION_COEFFICIENT {
        return Fail(DegradationCheckFailed);
      }
      lockedProfitDegradation := degradation;
      r := Pass;
    }

    /** `setDepositLimit`. */
    method SetDepositLimit(caller: Address, owner: Address, limit: nat) returns (r: Outcome<Error>)
      requires Valid()
      modifies this`depositLimit
      ensures Valid()
      ensures r == (if caller == owner then Pass else Fail(OnlyOwner))
      ensures depositLimit == (if r.Pass? then limit else old(depositLimit))
    {
      if caller != owner {
        return Fail(OnlyOwner);
      }
      depositLimit := limit;
      r := Pass;
    }

    /** `setPerformanceFee`: at most `MAX_BPS`. */
    method SetPerformanceFee(caller: Address, owner: Address, fee: nat) returns (r: Outcome<Error>)
      requires Valid()
      modifies this`performanceFee
      ensures Valid()
      ensures caller != owner ==> r == Fail(OnlyOwner)
      ensures caller == owner && fee > MAX_BPS ==> r == Fail(FeeAboveMaxBps)
      ensures r.Pass? <==> caller == owner && fee <= MAX_BPS
      ensures performanceFee == (if r.Pass? then fee else old(performanceFee))
    {
      if caller != owner {
        return Fail(OnlyOwner);
      }
      if fee > MAX_BPS {
        return Fail(FeeAboveMaxBps);
      }
      performanceFee := fee;
      r := Pass;
    }

    /** `setManagementFee`: at most `MAX_BPS`. */
    method SetManagementFee(caller: Address, owner: Address, fee: nat) returns (r: Outcome<Error>)
      requires Valid()
      modifies this`managementFee
      ensures Valid()
      ensures caller != owner ==> r == Fail(OnlyOwner)
      ensures caller == owner && fee > MAX_BPS ==> r == Fail(FeeAboveMaxBps)
      ensures r.Pass? <==> caller == owner && fee <= MAX_BPS
      ensures managementFee == (if r.Pass? then fee else old(managementFee))
    {
      if caller != owner {
        return Fail(OnlyOwner);
      }
      if fee > MAX_BPS {
        return Fail(FeeAboveMaxBps);
      }
      managementFee := fee;
      r := Pass;
    }

    /** `setGuardian`. */
    method SetGuardian(caller: Address, owner: Address, address: Address) returns (r: Outcome<Error>)
      requires Valid()
      modifies this`guardian
      ensures Valid()
      ensures r == (if caller == owner then Pass else Fail(OnlyOwner))
      ensures guardian == (if r.Pass? then address else old(guardian))
    {
      if caller != owner {
        return Fail(OnlyOwner);
      }
      guardian := address;
      r := Pass;
    }

    /** The `totalAssets` view: the balance the contract holds of its stored
        base token, plus the total debt. At every time at which the free funds
        are defined they are at most this total, and they and the locked
        profit make it up exactly; with no locked profit stored, the free
        funds are the whole total from the last report on. */
    method TotalAssetsView(balanceOf: TokenId -> nat) returns (r: nat)
      ensures r == balanceOf(token) + totalDebt
      ensures forall now: nat ::
        var free := FreeFunds(balanceOf(token), totalDebt, lockedProfit, lockedProfitDegradation, lastReport, now);
        free.Ok? ==>
          && free.value <= r
          && free.value + LockedProfitValue(lockedProfit, lockedProfitDegradation, lastReport, now).value == r
      ensures lockedProfit == 0 ==> forall now: nat :: lastReport <= now ==>
        FreeFunds(balanceOf(token), totalDebt, lockedProfit, lockedProfitDegradation, lastReport, now) == Ok(r)
    {
      r := TotalAssets(balanceOf(token), totalDebt);
    }

    /** `_calculate_locked_profit` over the stored locked profit, rate and last
        report, at block time `now`: defined from the last report on, and
        never more than the stored locked profit. */
    method LockedProfitView(now: nat) returns (r: Result<nat, Error>)
      ensures r == LockedProfitValue(lockedProfit, lockedProfitDegradation, lastReport, now)
      ensures r.Ok? <==> lastReport <= now
      ensures r.Ok? ==> r.value <= lockedProfit
      ensures lockedProfit == 0 && lastReport <= now ==> r == Ok(0)
    {
      r := LockedProfitValue(lockedProfit, lockedProfitDegradation, lastReport, now);
    }

    /** `_free_funds` at block time `now`: the total assets minus the locked
        profit, aborting when either aborts or the subtraction would go
        negative. On success the free funds and the locked profit add up to the
        total assets. */
    method FreeFundsView(balanceOf: TokenId -> nat, now: nat) returns (r: Result<nat, Error>)
      ensures r == FreeFunds(balanceOf(token), totalDebt, lockedProfit, lockedProfitDegradation, lastReport, now)
      ensures now < lastReport ==> r == Err(SubtractionUnderflow)
      ensures r.Ok? ==> r.value <= balanceOf(token) + totalDebt
      ensures r.Ok? ==>
        r.value + LockedProfitValue(lockedProfit, lockedProfitDegradation, lastReport, now).value
          == balanceOf(token) + totalDebt
      ensures lockedProfit == 0 && lastReport <= now ==> r == Ok(balanceOf(token) + totalDebt)
    {
      var total := TotalAssetsView(balanceOf);
      var locked := LockedProfitView(now);
      match locked
      case Err(e) =>
        r := Err(e);
      case Ok(l) =>
        if l > total {
          r := Err(SubtractionUnderflow);
        } else {
          r := Ok(total - l);
        }
    }
  }

  /** Right after `init` the stored rate is above the coefficient, so the
      degradation setter aborts for the owner whatever rate is offered. */
  method DegradationSetterAfterInit(owner: Address, roles: Address, degradation: nat, now: nat)
    returns (r: Outcome<Error>, stored: nat)
    ensures r == Fail(DegradationCheckFailed)
    ensures stored == INITIAL_DEGRADATION
  {
    var vault := new YieldVault.Init("WEGLD-bd4d79", 50, "VaultShare", "VSH", roles, roles, roles, "yvWEGLD", now);
    r := vault.SetLockedProfitDegradation(owner, owner, degradation);
    stored := vault.lockedProfitDegradation;
  }

  /** Right after `init` no profit is locked, so from the deployment time on
      the free funds are the whole of the total assets, which are the
      contract's balance of the base token (no debt yet). Before the
      deployment time both valuations abort. */
  method FreeFundsAfterInit(token: TokenId, balanceOf: TokenId -> nat, roles: Address, deployedAt: nat, now: nat)
    returns (total: nat, locked: Result<nat, Error>, free: Result<nat, Error>)
    ensures total == balanceOf(token)
    ensures deployedAt <= now ==> locked == Ok(0) && free == Ok(total)
    ensures now < deployedAt ==> locked == Err(SubtractionUnderflow) && free == Err(SubtractionUnderflow)
  {
    var vault := new YieldVault.Init(token, 50, "VaultShare", "VSH", roles, roles, roles, "yvWEGLD", deployedAt);
    total := vault.TotalAssetsView(balanceOf);
    locked := vault.LockedProfitView(now);
    free := vault.FreeFundsView(balanceOf, now);
  }

  /** The fee bound is inclusive: 10001 is refused and leaves the fee as it
      was, 10000 is accepted. */
  method PerformanceFeeBoundary(owner: Address, roles: Address, now: nat)
    returns (tooHigh: Outcome<Error>, feeAfterRefusal: nat, atMax: Outcome<Error>, feeAfterAccept: nat)
    ensures tooHigh == Fail(FeeAboveMaxBps) && feeAfterRefusal == INITIAL_PERFORMANCE_FEE
    ensures atMax == Pass && feeAfterAccept == MAX_BPS
  {
    var vault := new YieldVault.Init("WEGLD-bd4d79", 50, "VaultShare", "VSH", roles, roles, roles, "yvWEGLD", now);
    tooHigh := vault.SetPerformanceFee(owner, owner, 10_001);
    feeAfterRefusal := vault.performanceFee;
    atMax := vault.SetPerformanceFee(owner, owner, 10_000);
    feeAfterAccept := vault.performanceFee;
  }

  /** The share token is requested at deployment; while the answer is pending
      a second request still passes the guard, and once a token id is stored
      further requests are refused. */
  method IssuanceExample(owner: Address, roles: Address, scAddress: Address, now: nat)
    returns (pending: Outcome<Error>, callback: Outcome<Error>, afterIssue: Outcome<Error>, requests: nat, stored: TokenId)
    ensures pending == Pass && callback == Pass && afterIssue == Fail(TokenAlreadyIssued)
    ensures requests == 2 && stored == "VSH-a1b2c3"
  {
    var vault := new YieldVault.Init("WEGLD-bd4d79", 50, "VaultShare", "VSH", roles, roles, roles, "yvWEGLD", now);
    pending := vault.CreateVaultToken(owner, owner, EGLD, 50, "VaultShare", "VSH");
    callback := vault.IssueCallback(AsyncOk("VSH-a1b2c3"), owner, scAddress, EGLD, 0);
    afterIssue := vault.CreateVaultToken(owner, owner, EGLD, 50, "VaultShare", "VSH");
    requests := |vault.issueRequests|;
    stored := vault.vaultToken;
  }
}
