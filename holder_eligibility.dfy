/** The holder tier of the connected wallet, decided from the two address lists
    of `holders.json` (src/hooks/useHolderEligibility.ts). */
module HolderEligibility {

  import opened Opt
  import opened Text
  import opened Chain

  datatype Tier = Whale | Holder | Public

  /** The contents of `holders.json`. */
  datatype HolderLists = HolderLists(whaleHolders: seq<Address>, holders: seq<Address>)

  datatype Eligibility = Eligibility(
    tier: Tier,
    freePacks: nat,
    discountedPacks: nat,
    maxMintAmount: nat,
    isLoading: bool)

  const WhaleFreePacks: nat := 1
  const TierDiscountedPacks: nat := 5
  const DefaultMaxMintAmount: nat := 10

  /** Two addresses that compare equal once both are lower-cased. */
  predicate SameAddress(a: Address, b: Address) {
    Lower(a) == Lower(b)
  }

  /** Some entry of `list` is `address` up to case. */
  predicate ListedIgnoringCase(list: seq<Address>, address: Address) {
    exists i :: 0 <= i < |list| && SameAddress(list[i], address)
  }

  /** `list.map(addr => addr.toLowerCase())`. */
  function LowerAll(list: seq<Address>): (r: seq<string>)
    ensures |r| == |list|
    ensures forall i :: 0 <= i < |list| ==> r[i] == Lower(list[i])
  {
    seq(|list|, i requires 0 <= i < |list| => Lower(list[i]))
  }

  /** The hook's whole result for the wallet state `address` / `isConnected`. */
  function UseHolderEligibility(address: Option<Address>, isConnected: bool, lists: HolderLists): (e: Eligibility)
    ensures e.maxMintAmount == DefaultMaxMintAmount
    ensures e.isLoading == !isConnected
    ensures e.tier == Whale <==>
      Present(address) && ListedIgnoringCase(lists.whaleHolders, address.value)
    ensures e.tier == Holder <==>
      Present(address) && !ListedIgnoringCase(lists.whaleHolders, address.value)
      && ListedIgnoringCase(lists.holders, address.value)
    ensures e.tier == Public <==>
      !Present(address)
      || (!ListedIgnoringCase(lists.whaleHolders, address.value) && !ListedIgnoringCase(lists.holders, address.value))
    ensures e.freePacks == (if e.tier == Whale then WhaleFreePacks else 0)
    ensures e.discountedPacks == (if e.tier == Public then 0 else TierDiscountedPacks)
  {
    var normalized := if address.Some? then Lower(address.value) else "";
    var e0 := Eligibility(Public, 0, 0, DefaultMaxMintAmount, !isConnected);
    if normalized != "" then
      if normalized in LowerAll(lists.whaleHolders) then
        e0.(tier := Whale, freePacks := WhaleFreePacks, discountedPacks := TierDiscountedPacks)
      else if normalized in LowerAll(lists.holders) then
        e0.(tier := Holder, freePacks := 0, discountedPacks := TierDiscountedPacks)
      else e0
    else e0
  }

  /** The whale list wins over the holder list. */
  lemma WhalePrecedence(address: Address, isConnected: bool, lists: HolderLists)
    requires address != ""
    requires ListedIgnoringCase(lists.whaleHolders, address)
    requires ListedIgnoringCase(lists.holders, address)
    ensures UseHolderEligibility(Some(address), isConnected, lists)
         == Eligibility(Whale, 1, 5, 10, !isConnected)
  {
  }

  /** No wallet address means the public tier. */
  lemma NoAddressIsPublic(isConnected: bool, lists: HolderLists)
    ensures UseHolderEligibility(None, isConnected, lists) == Eligibility(Public, 0, 0, 10, !isConnected)
  {
  }

  /** Two addresses that differ only in case are classified alike. */
  lemma CaseInsensitiveAddress(a: Address, b: Address, isConnected: bool, lists: HolderLists)
    requires SameAddress(a, b)
    ensures UseHolderEligibility(Some(a), isConnected, lists) == UseHolderEligibility(Some(b), isConnected, lists)
  {
    assert |a| == |Lower(a)| == |Lower(b)| == |b|;
  }

  /** Upper-casing the connected address does not change its tier. */
  lemma UpperCaseAddress(a: Address, isConnected: bool, lists: HolderLists)
    ensures UseHolderEligibility(Some(Upper(a)), isConnected, lists) == UseHolderEligibility(Some(a), isConnected, lists)
  {
    LowerOfUpper(a);
    CaseInsensitiveAddress(Upper(a), a, isConnected, lists);
  }

  /** Lists whose entries agree pairwise up to case. */
  predicate SameListIgnoringCase(xs: seq<Address>, ys: seq<Address>) {
    |xs| == |ys| && forall i :: 0 <= i < |xs| ==> SameAddress(xs[i], ys[i])
  }

  /** Changing the case of any list entry does not change any classification. */
  lemma CaseInsensitiveLists(address: Option<Address>, isConnected: bool, lists: HolderLists, lists': HolderLists)
    requires SameListIgnoringCase(lists.whaleHolders, lists'.whaleHolders)
    requires SameListIgnoringCase(lists.holders, lists'.holders)
    ensures UseHolderEligibility(address, isConnected, lists) == UseHolderEligibility(address, isConnected, lists')
  {
    assert LowerAll(lists.whaleHolders) == LowerAll(lists'.whaleHolders);
    assert LowerAll(lists.holders) == LowerAll(lists'.holders);
  }

}
