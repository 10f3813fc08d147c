/** Tiered mint pricing and the `mint` call it feeds (src/hooks/useMinting.ts).
    Both prices are parameters: the full price is configured as 90,000 PLS in wei,
    the discounted price is read from a configuration entry that does not exist. */
module Minting {

  import opened Opt
  import opened Chain
  import opened HolderEligibility

  /** `CONTRACT_CONFIG.mintPrice`: 90,000 PLS expressed in wei (18 decimals). */
  const ConfiguredMintPrice: int := 90000 * 1000000000000000000

  function Min(a: int, b: int): int {
    if a <= b then a else b
  }

  function Max0(a: int): nat {
    if a > 0 then a else 0
  }

  /** How many of the requested packs are free, discounted and charged in full. */
  datatype Allocation = Allocation(free: int, discounted: int, full: int)

  /** The tier may take free packs, and has some left. */
  predicate FreeEligible(tier: Tier, freePacks: int) {
    tier == Whale && freePacks > 0
  }

  /** The tier may take discounted packs, and has some left. */
  predicate DiscountEligible(tier: Tier, discountedPacks: int) {
    (tier == Whale || tier == Holder) && discountedPacks > 0
  }

  /** The allocation `calculateMintPrice` makes: free packs first, then discounted
      packs out of what remains, then full price for the rest. */
  function Allocate(tier: Tier, freePacks: int, discountedPacks: int, amount: int): (a: Allocation)
    // every bucket is non-negative and within its cap, and together they are the order
    ensures 0 <= a.free <= Max0(freePacks)
    ensures 0 <= a.discounted <= Max0(discountedPacks)
    ensures 0 <= a.full
    ensures a.free + a.discounted + a.full == Max0(amount)
    // only whales get free packs, only whales and holders get discounted ones
    ensures a.free > 0 ==> tier == Whale
    ensures a.discounted > 0 ==> tier != Public
    // a cheaper bucket is exhausted before a dearer one is used
    ensures a.discounted > 0 && FreeEligible(tier, freePacks) ==> a.free == freePacks
    ensures a.full > 0 && FreeEligible(tier, freePacks) ==> a.free == freePacks
    ensures a.full > 0 && DiscountEligible(tier, discountedPacks) ==> a.discounted == discountedPacks
    // and an eligible bucket is used as far as the order allows
    ensures FreeEligible(tier, freePacks) ==> a.free == Min(freePacks, Max0(amount))
    ensures DiscountEligible(tier, discountedPacks) ==> a.discounted == Min(discountedPacks, Max0(amount) - a.free)
  {
    var free := if FreeEligible(tier, freePacks) && amount > 0 then Min(freePacks, amount) else 0;
    var rest := amount - free;
    var discounted := if DiscountEligible(tier, discountedPacks) && rest > 0 then Min(discountedPacks, rest) else 0;
    var full := if rest - discounted > 0 then rest - discounted else 0;
    Allocation(free, discounted, full)
  }

  /** The total price of `amount` packs: nothing for the free ones, the discounted
      price for the discounted ones, the full price for the rest. */
  function MintPrice(tier: Tier, freePacks: int, discountedPacks: int, amount: int,
                     discountedPrice: int, mintPrice: int): (total: int)
    // a discount never makes the order cost more than paying full price for every pack
    ensures 0 <= discountedPrice <= mintPrice ==> 0 <= total <= mintPrice * Max0(amount)
  {
    var a := Allocate(tier, freePacks, discountedPacks, amount);
    if 0 <= discountedPrice <= mintPrice then
      PriceBound(discountedPrice, mintPrice, a.discounted, a.full, Max0(amount));
      discountedPrice * a.discounted + mintPrice * a.full
    else
      discountedPrice * a.discounted + mintPrice * a.full
  }

  /** `d` packs at `dp` and `f` packs at `mp >= dp` cost at most `n >= d + f` packs at `mp`. */
  lemma PriceBound(dp: int, mp: int, d: int, f: int, n: int)
    requires 0 <= dp <= mp && 0 <= d && 0 <= f && d + f <= n
    ensures 0 <= dp * d + mp * f <= mp * n
  {
    assert dp * d <= mp * d;
    assert mp * d + mp * f == mp * (d + f);
    assert mp * (d + f) <= mp * n;
  }

  /** The allocation, one guarded step at a time. */
  lemma AllocateSteps(tier: Tier, freePacks: int, discountedPacks: int, amount: int)
    ensures var a := Allocate(tier, freePacks, discountedPacks, amount);
            && a.free == (if FreeEligible(tier, freePacks) && amount > 0 then Min(freePacks, amount) else 0)
            && a.discounted == (if DiscountEligible(tier, discountedPacks) && amount - a.free > 0
                                then Min(discountedPacks, amount - a.free) else 0)
            && a.full == Max0(amount - a.free - a.discounted)
  {
  }

  /** `calculateMintPrice(amount)`, with the same three guarded steps on the locals
      `totalPrice` and `remainingAmount`. */
  method CalculateMintPrice(tier: Tier, freePacks: int, discountedPacks: int, amount: int,
                            discountedPrice: int, mintPrice: int) returns (totalPrice: int)
    ensures totalPrice == MintPrice(tier, freePacks, discountedPacks, amount, discountedPrice, mintPrice)
  {
    AllocateSteps(tier, freePacks, discountedPacks, amount);
    ghost var a := Allocate(tier, freePacks, discountedPacks, amount);
    ghost var free, discounted, full := a.free, a.discounted, a.full;
    assert MintPrice(tier, freePacks, discountedPacks, amount, discountedPrice, mintPrice)
        == discountedPrice * discounted + mintPrice * full;
    totalPrice := 0;
    var remainingAmount := amount;

    if tier == Whale && freePacks > 0 && remainingAmount > 0 {
      var freePacksToUse := Min(freePacks, remainingAmount);
      remainingAmount := remainingAmount - freePacksToUse;
    }
    assert remainingAmount == amount - free;

    if (tier == Whale || tier == Holder) && discountedPacks > 0 && remainingAmount > 0 {
      var discountedAmount := Min(discountedPacks, remainingAmount);
      assert discountedAmount == discounted;
      totalPrice := totalPrice + discountedPrice * discountedAmount;
      remainingAmount := remainingAmount - discountedAmount;
    }
    assert totalPrice == discountedPrice * discounted;
    assert full == Max0(remainingAmount);

    if remainingAmount > 0 {
      totalPrice := totalPrice + mintPrice * remainingAmount;
    }
  }

  /** The contract call `mint` submits. */
  datatype MintCall = MintCall(functionName: string, args: seq<int>, value: int)

  /** `mint()`: nothing without a wallet address; otherwise `mintPacks(mintAmount)`
      carrying the computed price as the transaction value. Whether the wallet then
      accepts the transaction is outside the model. */
  method Mint(address: Option<Address>, mintAmount: int, tier: Tier, freePacks: int, discountedPacks: int,
              discountedPrice: int, mintPrice: int) returns (call: Option<MintCall>)
    ensures !Present(address) ==> call == None
    ensures Present(address) ==>
      call == Some(MintCall("mintPacks", [mintAmount],
                            MintPrice(tier, freePacks, discountedPacks, mintAmount, discountedPrice, mintPrice)))
  {
    if !Present(address) {
      return None;
    }
    var value := CalculateMintPrice(tier, freePacks, discountedPacks, mintAmount, discountedPrice, mintPrice);
    call := Some(MintCall("mintPacks", [mintAmount], value));
  }

  /** The public tier pays the full price for every pack. */
  lemma PublicPaysFullPrice(freePacks: int, discountedPacks: int, amount: int, discountedPrice: int, mintPrice: int)
    ensures MintPrice(Public, freePacks, discountedPacks, amount, discountedPrice, mintPrice) == Max0(amount) * mintPrice
  {
  }

  /** A holder's free-pack count is never used: its price is that of a holder with none. */
  lemma HolderNeverFree(freePacks: int, discountedPacks: int, amount: int, discountedPrice: int, mintPrice: int)
    ensures MintPrice(Holder, freePacks, discountedPacks, amount, discountedPrice, mintPrice)
         == MintPrice(Holder, 0, discountedPacks, amount, discountedPrice, mintPrice)
  {
  }

  /** A whale asking for no more packs than it has free pays nothing. */
  lemma WhaleWithinFreePacksPaysNothing(freePacks: int, discountedPacks: int, amount: int,
                                        discountedPrice: int, mintPrice: int)
    requires 0 < amount <= freePacks
    ensures MintPrice(Whale, freePacks, discountedPacks, amount, discountedPrice, mintPrice) == 0
  {
  }

  /** A non-positive amount costs nothing, whatever the tier. */
  lemma NonPositiveAmountIsFree(tier: Tier, freePacks: int, discountedPacks: int, amount: int,
                                discountedPrice: int, mintPrice: int)
    requires amount <= 0
    ensures MintPrice(tier, freePacks, discountedPacks, amount, discountedPrice, mintPrice) == 0
  {
  }

  /** One more pack lands in exactly one bucket, and the others keep their size. */
  lemma OneMorePack(tier: Tier, freePacks: int, discountedPacks: int, amount: int)
    requires amount >= 0
    ensures var a := Allocate(tier, freePacks, discountedPacks, amount);
            var b := Allocate(tier, freePacks, discountedPacks, amount + 1);
            b == a.(free := a.free + 1) || b == a.(discounted := a.discounted + 1) || b == a.(full := a.full + 1)
  {
  }

  /** With non-negative prices, one more pack costs nothing, the discounted price or
      the full price. */
  lemma OneMorePackPrice(tier: Tier, freePacks: int, discountedPacks: int, amount: int,
                         discountedPrice: int, mintPrice: int)
    requires amount >= 0
    ensures var p := MintPrice(tier, freePacks, discountedPacks, amount, discountedPrice, mintPrice);
            var q := MintPrice(tier, freePacks, discountedPacks, amount + 1, discountedPrice, mintPrice);
            q == p || q == p + discountedPrice || q == p + mintPrice
  {
    OneMorePack(tier, freePacks, discountedPacks, amount);
    var a := Allocate(tier, freePacks, discountedPacks, amount);
    var b := Allocate(tier, freePacks, discountedPacks, amount + 1);
    if b == a.(discounted := a.discounted + 1) {
      MulSucc(discountedPrice, a.discounted);
    } else if b == a.(full := a.full + 1) {
      MulSucc(mintPrice, a.full);
    }
  }

  /** One more unit at a price of `c` adds `c`. */
  lemma MulSucc(c: int, x: int)
    ensures c * (x + 1) == c * x + c
  {
  }

  /** With non-negative prices the total is never negative. */
  lemma MintPriceNonNegative(tier: Tier, freePacks: int, discountedPacks: int, amount: int,
                             discountedPrice: int, mintPrice: int)
    requires discountedPrice >= 0 && mintPrice >= 0
    ensures MintPrice(tier, freePacks, discountedPacks, amount, discountedPrice, mintPrice) >= 0
  {
    var a := Allocate(tier, freePacks, discountedPacks, amount);
    assert discountedPrice * a.discounted >= 0;
    assert mintPrice * a.full >= 0;
  }

  /** With non-negative prices, asking for more packs never costs less. */
  lemma {:induction false} MintPriceMonotone(tier: Tier, freePacks: int, discountedPacks: int, amount: int,
                                             amount': int, discountedPrice: int, mintPrice: int)
    requires discountedPrice >= 0 && mintPrice >= 0
    requires amount <= amount'
    ensures MintPrice(tier, freePacks, discountedPacks, amount, discountedPrice, mintPrice)
         <= MintPrice(tier, freePacks, discountedPacks, amount', discountedPrice, mintPrice)
    decreases amount' - amount
  {
    if amount < 0 {
      NonPositiveAmountIsFree(tier, freePacks, discountedPacks, amount, discountedPrice, mintPrice);
      MintPriceNonNegative(tier, freePacks, discountedPacks, amount', discountedPrice, mintPrice);
    } else if amount < amount' {
      MintPriceMonotone(tier, freePacks, discountedPacks, amount, amount' - 1, discountedPrice, mintPrice);
      OneMorePackPrice(tier, freePacks, discountedPacks, amount' - 1, discountedPrice, mintPrice);
    }
  }

  /** The total in the closed form: free packs cost nothing, then discounted packs
      out of what remains, then the full price for the rest. */
  lemma MintPriceFormula(tier: Tier, freePacks: int, discountedPacks: int, amount: int,
                         discountedPrice: int, mintPrice: int)
    requires amount >= 0
    ensures var f := if FreeEligible(tier, freePacks) then Min(freePacks, amount) else 0;
            var d := if DiscountEligible(tier, discountedPacks) then Min(discountedPacks, amount - f) else 0;
            MintPrice(tier, freePacks, discountedPacks, amount, discountedPrice, mintPrice)
              == discountedPrice * d + mintPrice * (amount - f - d)
  {
  }

  /** `CONTRACT_CONFIG.discountedPrice` as shipped: src/config/contract.ts has no
      such entry, so it reads as `undefined`. */
  const ShippedDiscountedPrice: Option<int> := None

  /** `calculateMintPrice` against the shipped configuration, as written: None stands
      for the TypeError that `BigInt(undefined)` throws once the discount step runs. */
  function ShippedMintPrice(tier: Tier, freePacks: int, discountedPacks: int, amount: int): (r: Option<int>)
    ensures r.None? <==> Allocate(tier, freePacks, discountedPacks, amount).discounted > 0 && ShippedDiscountedPrice.None?
    ensures r.Some? ==> r.value == ConfiguredMintPrice * Allocate(tier, freePacks, discountedPacks, amount).full
  {
    var a := Allocate(tier, freePacks, discountedPacks, amount);
    if a.discounted > 0 then
      match ShippedDiscountedPrice
      case None => None
      case Some(dp) => Some(dp * a.discounted + ConfiguredMintPrice * a.full)
    else Some(ConfiguredMintPrice * a.full)
  }

  /** With the shipped configuration every whale or holder purchase that reaches the
      discount step throws, so `mint` never submits it. */
  lemma ShippedDiscountThrows()
    ensures ShippedMintPrice(Holder, 0, 5, 1) == None
    ensures ShippedMintPrice(Whale, 1, 5, 2) == None
    ensures ShippedMintPrice(Whale, 1, 5, 1) == Some(0)
  {
  }

  /** A whale with its one free pack and five discounted packs left, buying three at
      a discounted price of half the full price, pays for two discounted packs. */
  lemma WhaleThreePacksExample()
    ensures Allocate(Whale, 1, 5, 3) == Allocation(1, 2, 0)
    ensures MintPrice(Whale, 1, 5, 3, 45000, 90000) == 90000
    ensures MintPrice(Whale, 1, 5, 3, ConfiguredMintPrice / 2, ConfiguredMintPrice) == ConfiguredMintPrice
  {
  }

}
