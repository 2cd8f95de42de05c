/** Withdrawals: the decision, the transfer it makes, and whole runs of them. */
module Funding {
  import opened Text
  import opened DecimalAmount
  import AmountText
  import Numerals

  const MIN_GAS_HEADROOM_WEI := 100000000000000

  datatype Asset = Usdt | Bnb

  datatype Error =
    | UnsupportedMode
    | UnsupportedAsset
    | BadDestination
    | NotNumeric
    | NotPositive
    | NoHeadroom
    | InsufficientUsdt
    | InsufficientBnb

  datatype Decision = Send(asset: Asset, amount: nat) | Refuse(error: Error)

  datatype Balances = Balances(bnb: int, usdt: int)

  // Everything, or the text that was typed.
  datatype Request = All | Exactly(typed: string)

  function AssetOf(name: string): Option<Asset> {
    if Lower(name) == "usdt" then Some(Usdt) else if Lower(name) == "bnb" then Some(Bnb) else None
  }

  // The typed amount in wei, None when Decimal() raises.
  function WeiOf(typed: string): Option<nat> {
    ParseAmountToWei(AmountText.ReadDecimal(typed))
  }

  // What withdraw_all asks for.
  function Available(b: Balances, asset: Asset): int {
    match asset
    case Usdt => b.usdt
    case Bnb => if b.bnb - MIN_GAS_HEADROOM_WEI >= 0 then b.bnb - MIN_GAS_HEADROOM_WEI else 0
  }

  // The checks on a number of wei.
  function DecideWei(b: Balances, asset: Asset, amount: int): Decision {
    if amount <= 0 then Refuse(NotPositive)
    else if b.bnb <= MIN_GAS_HEADROOM_WEI then Refuse(NoHeadroom)
    else if asset == Usdt then
      if b.usdt < amount then Refuse(InsufficientUsdt) else Send(Usdt, amount)
    else
      if b.bnb - MIN_GAS_HEADROOM_WEI < amount then Refuse(InsufficientBnb) else Send(Bnb, amount)
  }

  function Decide(b: Balances, asset: Asset, request: Request): Decision {
    match request
    case All => DecideWei(b, asset, Available(b, asset))
    case Exactly(typed) =>
      match WeiOf(typed)
      case None => Refuse(NotNumeric)
      case Some(wei) => DecideWei(b, asset, wei)
  }

  // How the transfer of an accepted withdrawal goes: a call that raises may still have moved the
  // amount, and may have cost gas.
  datatype Transfer = Confirmed(gas: nat) | Raised(moved: bool, gas: nat)

  function MovedBy(d: Decision, t: Transfer): nat {
    if d.Send? && (t.Confirmed? || t.moved) then d.amount else 0
  }

  // The balances after a decision: the transfer moves its amount and costs its gas in BNB.
  function Settled(b: Balances, d: Decision, t: Transfer): Balances {
    match d
    case Refuse(_) => b
    case Send(Usdt, _) => Balances(b.bnb - t.gas, b.usdt - MovedBy(d, t))
    case Send(Bnb, _) => Balances(b.bnb - MovedBy(d, t) - t.gas, b.usdt)
  }

  class Wallet {
    const mandated: bool
    var balances: Balances
    var transfers: seq<Decision>

    constructor (mandated: bool, balances: Balances)
      ensures this.mandated == mandated && this.balances == balances && transfers == []
    {
      this.mandated, this.balances, transfers := mandated, balances, [];
    }

    /** Either one transfer of exactly the decided amount, which may itself raise, or an error and no
        transfer. */
    method Withdraw(name: string, request: Request, destinationOk: bool, t: Transfer)
      returns (d: Decision, raised: bool)
      modifies this
      ensures d == if mandated then Refuse(UnsupportedMode)
                   else if AssetOf(name) == None then Refuse(UnsupportedAsset)
                   else if !destinationOk then Refuse(BadDestination)
                   else Decide(old(balances), AssetOf(name).value, request)
      ensures raised <==> d.Send? && t.Raised?
      ensures balances == Settled(old(balances), d, t)
      ensures transfers == old(transfers) + if d.Send? then [d] else []
    {
      if mandated {
        return Refuse(UnsupportedMode), false;
      }
      var asset := AssetOf(name);
      if asset == None {
        return Refuse(UnsupportedAsset), false;
      }
      if !destinationOk {
        return Refuse(BadDestination), false;
      }
      var bnbBalance, usdtBalance := balances.bnb, balances.usdt;
      var amountWei: int;
      if request.All? {
        amountWei := if asset.value == Usdt then usdtBalance else Max(bnbBalance - MIN_GAS_HEADROOM_WEI, 0);
      } else {
        var parsed := WeiOf(request.typed);
        if parsed == None {
          return Refuse(NotNumeric), false;
        }
        amountWei := parsed.value;
      }
      if amountWei <= 0 {
        return Refuse(NotPositive), false;
      }
      if bnbBalance <= MIN_GAS_HEADROOM_WEI {
        return Refuse(NoHeadroom), false;
      }
      if asset.value == Usdt {
        if usdtBalance < amountWei {
          return Refuse(InsufficientUsdt), false;
        }
      } else {
        if bnbBalance - MIN_GAS_HEADROOM_WEI < amountWei {
          return Refuse(InsufficientBnb), false;
        }
      }
      d := Send(asset.value, amountWei);
      TransferOut(d, t);
      raised := t.Raised?;
    }

    // What a transfer call does to the chain, whether it raises or not.
    method TransferOut(d: Decision, t: Transfer)
      requires d.Send?
      modifies this
      ensures balances == Settled(old(balances), d, t) && transfers == old(transfers) + [d]
    {
      balances := Settled(balances, d, t);
      transfers := transfers + [d];
    }
  }

  function Max(a: int, b: int): int {
    if a >= b then a else b
  }

  // ---------- what a transfer does ----------

  /** A transfer moves its amount, also when it raises after moving it, and nothing else but its gas,
      which is paid in BNB; a refused withdrawal moves nothing. */
  lemma TransferMoves(b: Balances, a: nat, gas: nat, error: Error)
    ensures Settled(b, Send(Usdt, a), Confirmed(gas)) == Balances(b.bnb - gas, b.usdt - a)
    ensures Settled(b, Send(Bnb, a), Confirmed(gas)) == Balances(b.bnb - gas - a, b.usdt)
    ensures forall asset :: Settled(b, Send(asset, a), Raised(true, gas)) == Settled(b, Send(asset, a), Confirmed(gas))
    ensures forall asset :: Settled(b, Send(asset, a), Raised(false, gas)) == Balances(b.bnb - gas, b.usdt)
    ensures forall t :: Settled(b, Refuse(error), t) == b
  {
  }

  // ---------- from what is typed to what is sent ----------

  /** The two assets, in any mix of letter cases; every other name is refused. */
  lemma AssetNames(name: string)
    ensures AssetOf(name) == Some(Usdt) <==> SameText(name, "usdt")
    ensures AssetOf(name) == Some(Bnb) <==> SameText(name, "bnb")
  {
    assert Lower("usdt") == "usdt" && Lower("bnb") == "bnb";
    CaseForms(name, "usdt");
    CaseForms(name, "bnb");
  }

  /** A typed amount of tokens is sent to the wei, up to eighteen places behind the point, exactly when
      it is positive, there is BNB above the headroom, and the balance, for BNB less the headroom,
      covers it. */
  lemma TypedWithdrawal(b: Balances, asset: Asset, n: nat, f: string)
    requires AllDigits(f) && |NatText(n)| + |f| <= 28
    ensures AllDigits(Numerals.Places18(f))
    ensures var wei := 1000000000000000000 * n + DigitsValue(Numerals.Places18(f));
            var d := Decide(b, asset, Exactly(NatText(n) + "." + f));
            && (d.Send? ==> d == Send(asset, wei))
            && (d.Send? <==> && 0 < wei && b.bnb > MIN_GAS_HEADROOM_WEI
                             && wei <= if asset == Usdt then b.usdt else b.bnb - MIN_GAS_HEADROOM_WEI)
  {
    hide DigitsValue, NatText, Numerals.Places18, ParseAmountToWei, AmountText.ReadDecimal;
    Numerals.TypedAmount(n, f);
  }

  /** The headroom is what "0.0001" is worth. */
  lemma HeadroomTyped()
    ensures WeiOf("0.0001") == Some(MIN_GAS_HEADROOM_WEI)
  {
    hide DigitsValue, AllDigits, NatText, Numerals.Places18, ParseAmountToWei, AmountText.ReadDecimal;
    HeadroomText();
    Numerals.TypedAmount(0, "0001");
    HeadroomPlaces();
  }

  lemma HeadroomText()
    ensures AllDigits("0001") && NatText(0) + "." + "0001" == "0.0001" && |NatText(0)| == 1
  {
  }

  lemma HeadroomPlaces()
    ensures AllDigits(Numerals.Places18("0001")) && DigitsValue(Numerals.Places18("0001")) == MIN_GAS_HEADROOM_WEI
  {
    hide DigitsValue, Times10;
    var zeros := Numerals.Zeros(14);
    assert |zeros| == 14;
    assert Numerals.Places18("0001") == "0001" + zeros;
    Numerals.ZerosValue(14);
    OneInFourDigits();
    Numerals.DigitsAppend("0001", zeros);
    HundredTrillion();
  }

  lemma OneInFourDigits()
    ensures AllDigits("0001") && DigitsValue("0001") == 1
  {
    assert "0001"[..3] == "000" && "000"[..2] == "00" && "00"[..1] == "0" && "0"[..0] == "";
    assert DigitsValue("0") == 0 && DigitsValue("00") == 0 && DigitsValue("000") == 0;
  }

  lemma HundredTrillion()
    ensures Times10(1, 14) == 100000000000000
  {
    assert Times10(1, 7) == 10000000 && Times10(10000000, 7) == 100000000000000;
    Times10Add(1, 7, 7);
  }

  // ---------- withdraw_all is the best explicit withdrawal ----------

  /** withdraw_all is refused exactly when every explicit amount is, and otherwise sends the
      greatest amount an explicit withdrawal would be allowed to send. */
  lemma AllIsGreatest(b: Balances, asset: Asset)
    ensures Decide(b, asset, All).Send? <==> exists a: nat :: DecideWei(b, asset, a).Send?
    ensures Decide(b, asset, All).Send? ==>
              && DecideWei(b, asset, Decide(b, asset, All).amount) == Decide(b, asset, All)
              && forall a: nat :: DecideWei(b, asset, a).Send? <==> 0 < a <= Decide(b, asset, All).amount
    ensures forall typed :: Decide(b, asset, Exactly(typed)).Send? ==>
              && Decide(b, asset, All).Send?
              && Decide(b, asset, Exactly(typed)).amount <= Decide(b, asset, All).amount
  {
    hide WeiOf;
    var all := Available(b, asset);
    if Decide(b, asset, All).Send? {
      assert DecideWei(b, asset, all as nat).Send?;
    }
    forall a: nat | DecideWei(b, asset, a).Send?
      ensures Decide(b, asset, All).Send? && a <= all
    {
    }
  }

  // ---------- runs ----------

  datatype Event =
    | Withdrawal(asset: Asset, request: Request, transfer: Transfer)
    | Deposit(asset: Asset, amount: nat)

  /** The balances, and totals of what moved. */
  datatype Ledger = Ledger(now: Balances, sentBnb: nat, sentUsdt: nat, gas: nat, inBnb: nat, inUsdt: nat)

  function Step(l: Ledger, e: Event): Ledger {
    match e
    case Deposit(Bnb, a) => l.(now := Balances(l.now.bnb + a, l.now.usdt), inBnb := l.inBnb + a)
    case Deposit(Usdt, a) => l.(now := Balances(l.now.bnb, l.now.usdt + a), inUsdt := l.inUsdt + a)
    case Withdrawal(asset, request, t) =>
      var d := Decide(l.now, asset, request);
      var settled := l.(now := Settled(l.now, d, t));
      match d
      case Refuse(_) => l
      case Send(Usdt, _) => settled.(sentUsdt := l.sentUsdt + MovedBy(d, t), gas := l.gas + t.gas)
      case Send(Bnb, _) => settled.(sentBnb := l.sentBnb + MovedBy(d, t), gas := l.gas + t.gas)
  }

  function RunFrom(l: Ledger, events: seq<Event>): Ledger {
    if events == [] then l else Step(RunFrom(l, events[..|events| - 1]), events[|events| - 1])
  }

  function Opening(b: Balances): Ledger {
    Ledger(b, 0, 0, 0, 0, 0)
  }

  // What the deposits of a run add up to.
  function Deposited(events: seq<Event>, asset: Asset): nat {
    if events == [] then 0
    else
      var e := events[|events| - 1];
      Deposited(events[..|events| - 1], asset) + if e.Deposit? && e.asset == asset then e.amount else 0
  }

  // What its withdrawals moved, each decided on the balances it met.
  function MovedIn(b: Balances, events: seq<Event>, asset: Asset): nat {
    if events == [] then 0
    else
      var init, e := events[..|events| - 1], events[|events| - 1];
      MovedIn(b, init, asset)
      + if e.Withdrawal? && e.asset == asset then
          MovedBy(Decide(RunFrom(Opening(b), init).now, asset, e.request), e.transfer)
        else 0
  }

  // The gas of its accepted withdrawals.
  function GasIn(b: Balances, events: seq<Event>): nat {
    if events == [] then 0
    else
      var init, e := events[..|events| - 1], events[|events| - 1];
      GasIn(b, init)
      + if e.Withdrawal? && Decide(RunFrom(Opening(b), init).now, e.asset, e.request).Send? then e.transfer.gas else 0
  }

  /** Over any run of withdrawals and deposits nothing is created or lost: the balances, what the
      withdrawals moved and the gas add up to the opening balances and the deposits. */
  lemma {:induction false} RunConserves(b: Balances, events: seq<Event>)
    ensures var l := RunFrom(Opening(b), events);
            && l.now.bnb + MovedIn(b, events, Bnb) + GasIn(b, events) == b.bnb + Deposited(events, Bnb)
            && l.now.usdt + MovedIn(b, events, Usdt) == b.usdt + Deposited(events, Usdt)
            && l.sentBnb == MovedIn(b, events, Bnb) && l.sentUsdt == MovedIn(b, events, Usdt)
            && l.gas == GasIn(b, events)
            && l.inBnb == Deposited(events, Bnb) && l.inUsdt == Deposited(events, Usdt)
  {
    hide WeiOf;
    if events != [] {
      RunConserves(b, events[..|events| - 1]);
      SentAsAsked(RunFrom(Opening(b), events[..|events| - 1]).now, events[|events| - 1]);
    }
  }

  // What is sent is of the asset that was asked for.
  lemma SentAsAsked(b: Balances, e: Event)
    ensures e.Withdrawal? && Decide(b, e.asset, e.request).Send? ==> Decide(b, e.asset, e.request).asset == e.asset
  {
    hide WeiOf;
  }

  // ---------- the headroom ----------

  /** The headroom check leaves out gas. An accepted withdrawal leaves the headroom if and only if
      its gas fits in what the balance has above the headroom and the amount moved. Of the explicit
      BNB amounts exactly those up to the withdraw-all amount less the gas do, so a confirmed
      withdraw-all does if and only if gas is free. */
  lemma HeadroomAfterGas(b: Balances, asset: Asset, request: Request, t: Transfer)
    requires Decide(b, asset, request).Send?
    ensures var d := Decide(b, asset, request);
            Settled(b, d, t).bnb >= MIN_GAS_HEADROOM_WEI
            <==> t.gas <= b.bnb - MIN_GAS_HEADROOM_WEI - if asset == Bnb then MovedBy(d, t) else 0
    ensures asset == Bnb && request == All && t.Confirmed? ==>
              var all := Decide(b, asset, request);
              && (Settled(b, all, t).bnb >= MIN_GAS_HEADROOM_WEI <==> t.gas == 0)
              && forall a: nat :: KeepsHeadroomAfter(b, a, t) <==> 0 < a <= all.amount - t.gas
  {
    hide WeiOf;
  }

  // An explicit BNB withdrawal is accepted and leaves the headroom.
  predicate KeepsHeadroomAfter(b: Balances, amount: nat, t: Transfer) {
    var d := DecideWei(b, Bnb, amount);
    d.Send? && Settled(b, d, t).bnb >= MIN_GAS_HEADROOM_WEI
  }

  // The gas of the next event fits above the headroom, as far as can be seen before it.
  predicate GasFits(b: Balances, e: Event) {
    match e
    case Deposit(_, _) => true
    case Withdrawal(asset, request, t) =>
      var d := Decide(b, asset, request);
      d.Send? ==> t.gas <= b.bnb - MIN_GAS_HEADROOM_WEI - if asset == Bnb then MovedBy(d, t) else 0
  }

  function BalanceAt(b: Balances, events: seq<Event>, k: nat): Balances
    requires k <= |events|
  {
    RunFrom(Opening(b), events[..k]).now
  }

  // At every point of the run.
  ghost predicate KeepsHeadroom(b: Balances, events: seq<Event>) {
    forall k: nat :: k <= |events| ==> BalanceAt(b, events, k).bnb >= MIN_GAS_HEADROOM_WEI
  }

  ghost predicate EachGasFits(b: Balances, events: seq<Event>) {
    forall k: nat :: k < |events| ==> GasFits(BalanceAt(b, events, k), events[k])
  }

  /** The headroom survives a whole run, at every point of it, if and only if it is there at the
      start and the gas of every accepted withdrawal fits above it. */
  lemma {:induction false} HeadroomSurvivesIff(b: Balances, events: seq<Event>)
    ensures KeepsHeadroom(b, events) <==> b.bnb >= MIN_GAS_HEADROOM_WEI && EachGasFits(b, events)
  {
    hide BalanceAt, GasFits;
    if events == [] {
      StartsAt(b, events);
    } else {
      var n, init := |events| - 1, events[..|events| - 1];
      HeadroomSurvivesIff(b, init);
      forall k: nat | k <= n
        ensures BalanceAt(b, events, k) == BalanceAt(b, init, k)
      {
        SamePrefix(b, events, k);
      }
      assert KeepsHeadroom(b, events)
             <==> KeepsHeadroom(b, init) && BalanceAt(b, events, n + 1).bnb >= MIN_GAS_HEADROOM_WEI;
      assert EachGasFits(b, events) <==> EachGasFits(b, init) && GasFits(BalanceAt(b, events, n), events[n]);
      if KeepsHeadroom(b, init) {
        LastStep(b, events);
      }
    }
  }

  lemma StartsAt(b: Balances, events: seq<Event>)
    ensures BalanceAt(b, events, 0) == b
  {
  }

  lemma SamePrefix(b: Balances, events: seq<Event>, k: nat)
    requires k < |events|
    ensures BalanceAt(b, events, k) == BalanceAt(b, events[..|events| - 1], k)
  {
    assert events[..|events| - 1][..k] == events[..k];
  }

  lemma LastStep(b: Balances, events: seq<Event>)
    requires events != [] && BalanceAt(b, events, |events| - 1).bnb >= MIN_GAS_HEADROOM_WEI
    ensures BalanceAt(b, events, |events|).bnb >= MIN_GAS_HEADROOM_WEI
            <==> GasFits(BalanceAt(b, events, |events| - 1), events[|events| - 1])
  {
    hide WeiOf;
    assert events[..|events|] == events;
  }

  predicate GasAtMost(events: seq<Event>, fee: nat) {
    forall i :: 0 <= i < |events| && events[i].Withdrawal? ==> events[i].transfer.gas <= fee
  }

  /** With gas of at most one fee, a wallet that starts with the headroom never falls below it by
      more than that fee, because below it nothing is accepted; USDT never goes negative. */
  lemma {:induction false} RunKeepsHeadroom(b: Balances, events: seq<Event>, fee: nat)
    requires b.bnb >= MIN_GAS_HEADROOM_WEI && b.usdt >= 0 && GasAtMost(events, fee)
    ensures var l := RunFrom(Opening(b), events);
            && l.now.bnb >= MIN_GAS_HEADROOM_WEI - fee && l.now.usdt >= 0
            && (l.now.bnb <= MIN_GAS_HEADROOM_WEI ==>
                  forall asset, request :: Decide(l.now, asset, request).Refuse?)
  {
    hide WeiOf;
    if events != [] {
      RunKeepsHeadroom(b, events[..|events| - 1], fee);
    }
  }

  predicate AddsBnb(e: Event) {
    e.Deposit? && e.asset == Bnb && e.amount > 0
  }

  /** After a confirmed BNB withdraw-all every later withdrawal, of either asset, is refused until
      BNB is deposited. */
  lemma {:induction false} WithdrawAllLocksWallet(l: Ledger, gas: nat, events: seq<Event>)
    requires Decide(l.now, Bnb, All).Send?
    requires forall i :: 0 <= i < |events| ==> !AddsBnb(events[i])
    ensures var t := RunFrom(Step(l, Withdrawal(Bnb, All, Confirmed(gas))), events);
            && t.now.bnb == MIN_GAS_HEADROOM_WEI - gas
            && forall asset, request :: Decide(t.now, asset, request).Refuse?
  {
    hide WeiOf;
    if events != [] {
      WithdrawAllLocksWallet(l, gas, events[..|events| - 1]);
      assert !AddsBnb(events[|events| - 1]);
    }
  }
}
