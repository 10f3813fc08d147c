/** The mint panel's decisions (src/components/MintControls.tsx): which tier
    benefits are shown and what the mint button says and does. The tier may be
    missing (falsy), which is modelled as None. */
module MintControls {

  import opened Opt
  import opened Text
  import opened HolderEligibility
  import Minting

  datatype Benefits =
    | NoBenefits
    | WhaleBenefits(freePacks: int, discountedPacks: int)
    | HolderBenefits(discountedPacks: int)

  /** `getBenefitsDisplay()`: whales see both counts, holders the discounted count,
      everyone else (and a missing tier) nothing. */
  function GetBenefitsDisplay(tier: Option<Tier>, freePacks: int, discountedPacks: int): (b: Benefits)
    ensures b.WhaleBenefits? <==> tier == Some(Whale)
    ensures b.HolderBenefits? <==> tier == Some(Holder)
    ensures b.NoBenefits? <==> tier == None || tier == Some(Public)
    ensures b.WhaleBenefits? ==> b == WhaleBenefits(freePacks, discountedPacks)
    ensures b.HolderBenefits? ==> b == HolderBenefits(discountedPacks)
  {
    match tier
    case None => NoBenefits
    case Some(Whale) => WhaleBenefits(freePacks, discountedPacks)
    case Some(Holder) => HolderBenefits(discountedPacks)
    case Some(Public) => NoBenefits
  }

  const ConnectWallet: string := "Connect Wallet"
  const MintingText: string := "Minting..."

  function PackNoun(mintAmount: int): string {
    if mintAmount > 1 then "Packs" else "Pack"
  }

  /** The label offers free packs. */
  predicate OffersFree(tier: Option<Tier>, mintAmount: int, freePacks: int) {
    tier == Some(Whale) && mintAmount <= freePacks
  }

  /** `getMintButtonText()`. */
  function GetMintButtonText(isConnected: bool, mintAmount: int, tier: Option<Tier>, freePacks: int): (text: string)
    ensures !isConnected ==> text == ConnectWallet
    ensures isConnected ==>
      var n := IntToDecimal(mintAmount);
      |text| > 5 + |n| && text[..5] == "Mint " && text[5..5 + |n|] == n && text[5 + |n|] == ' '
  {
    if !isConnected then ConnectWallet
    else if OffersFree(tier, mintAmount, freePacks) then
      MintPrefix(IntToDecimal(mintAmount), " FREE ", PackNoun(mintAmount));
      "Mint " + IntToDecimal(mintAmount) + " FREE " + PackNoun(mintAmount)
    else
      MintPrefix(IntToDecimal(mintAmount), " ", PackNoun(mintAmount));
      "Mint " + IntToDecimal(mintAmount) + " " + PackNoun(mintAmount)
  }

  /** A label built as "Mint " + n + sep + noun, where sep starts with a space,
      begins with "Mint ", then n, then that space. */
  lemma MintPrefix(n: string, sep: string, noun: string)
    requires |sep| >= 1 && sep[0] == ' '
    ensures var text := "Mint " + n + sep + noun;
            |text| > 5 + |n| && text[..5] == "Mint " && text[5..5 + |n|] == n && text[5 + |n|] == ' '
  {
    var head := "Mint " + n;
    var text := head + sep + noun;
    assert text[..5] == head[..5];
    assert text[5..5 + |n|] == head[5..];
    assert text[5 + |n|] == sep[0];
  }

  datatype Action = OnMint | OnConnect

  datatype Button = Button(caption: string, action: Action, disabled: bool)

  /** The mint button: "Minting..." overrides the label while a mint is pending,
      the button is disabled then, and it mints when connected and connects
      otherwise. */
  function MintButton(isConnected: bool, isMinting: bool, mintAmount: int, tier: Option<Tier>, freePacks: int): (b: Button)
    ensures b.disabled == isMinting
    ensures isMinting ==> b.caption == MintingText
    ensures !isMinting ==> b.caption == GetMintButtonText(isConnected, mintAmount, tier, freePacks)
    ensures b.action == if isConnected then OnMint else OnConnect
  {
    Button(if isMinting then MintingText else GetMintButtonText(isConnected, mintAmount, tier, freePacks),
           if isConnected then OnMint else OnConnect,
           isMinting)
  }

  /** Disconnected, the label is "Connect Wallet" whatever else holds. */
  lemma DisconnectedLabel(mintAmount: int, tier: Option<Tier>, freePacks: int)
    ensures GetMintButtonText(false, mintAmount, tier, freePacks) == "Connect Wallet"
  {
  }

  /** Connected, the label ends in "Packs" for more than one pack and in "Pack"
      otherwise. */
  lemma LabelNoun(mintAmount: int, tier: Option<Tier>, freePacks: int)
    ensures var text := GetMintButtonText(true, mintAmount, tier, freePacks);
            |text| >= 5 && (mintAmount > 1 ==> text[|text| - 5..] == "Packs")
            && (mintAmount <= 1 ==> text[|text| - 4..] == "Pack" && text[|text| - 5] == ' ')
  {
  }

  /** No text the label is built from, other than " FREE ", holds an 'F'. */
  lemma NoFInPlainLabel(isConnected: bool, mintAmount: int)
    ensures var text := if !isConnected then ConnectWallet
                         else "Mint " + IntToDecimal(mintAmount) + " " + PackNoun(mintAmount);
            forall k :: 0 <= k < |text| ==> text[k] != 'F'
  {
    var d := IntToDecimal(mintAmount);
    assert forall k :: 0 <= k < |d| ==> d[k] != 'F';
  }

  /** The label says FREE exactly when the wallet is connected, the tier is whale
      and the amount does not exceed the free packs. */
  lemma FreeLabelIff(isConnected: bool, mintAmount: int, tier: Option<Tier>, freePacks: int)
    ensures Contains(GetMintButtonText(isConnected, mintAmount, tier, freePacks), "FREE")
        <==> isConnected && OffersFree(tier, mintAmount, freePacks)
  {
    var text := GetMintButtonText(isConnected, mintAmount, tier, freePacks);
    if isConnected && OffersFree(tier, mintAmount, freePacks) {
      var j := 5 + |IntToDecimal(mintAmount)| + 1;
      assert text[j..j + 4] == "FREE";
      OccurrenceContains(text, "FREE", j);
    } else {
      NoFInPlainLabel(isConnected, mintAmount);
      AbsentFirstChar(text, "FREE");
    }
  }

  /** A label that says FREE for at least one pack is backed by a zero price. */
  lemma FreeLabelMeansZeroPrice(mintAmount: int, tier: Option<Tier>, freePacks: int, discountedPacks: int,
                                discountedPrice: int, mintPrice: int)
    requires mintAmount >= 1
    requires Contains(GetMintButtonText(true, mintAmount, tier, freePacks), "FREE")
    ensures tier.Some?
    ensures Minting.MintPrice(tier.value, freePacks, discountedPacks, mintAmount, discountedPrice, mintPrice) == 0
  {
    FreeLabelIff(true, mintAmount, tier, freePacks);
    Minting.WhaleWithinFreePacksPaysNothing(freePacks, discountedPacks, mintAmount, discountedPrice, mintPrice);
  }

}
