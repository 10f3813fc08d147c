/** The collection statistics (src/components/CollectionStats.tsx): the number of
    burned packs, counted from the contract's TransferSingle events, and the three
    stat values shown. */
module CollectionStats {

  import opened Opt
  import opened Text
  import opened Chain

  const ZeroAddress: Address := "0x0000000000000000000000000000000000000000"
  const FirstPackId: nat := 1
  const LastPackId: nat := 222

  /** `TransferSingle(operator, from, to, id, value)` as `getLogs` decodes it. */
  datatype TransferSingle = TransferSingle(operator: Address, from: Address, to: Address, id: nat, value: nat)

  /** An event the filter keeps: a transfer to the zero address of a pack id. */
  predicate IsPackBurn(e: TransferSingle) {
    e.to == ZeroAddress && FirstPackId <= e.id <= LastPackId
  }

  /** `burnEvents.filter(IsPackBurn).length`. */
  function BurnedPacks(events: seq<TransferSingle>): (n: nat)
    ensures n <= |events|
  {
    if events == [] then 0
    else BurnedPacks(events[..|events| - 1]) + (if IsPackBurn(events[|events| - 1]) then 1 else 0)
  }

  /** The positions of the events the count keeps. */
  function BurnPositions(events: seq<TransferSingle>): set<int> {
    set i | 0 <= i < |events| && IsPackBurn(events[i])
  }

  /** The count is the number of events that are pack burns: one per event, not one
      per distinct id. */
  lemma {:induction false} BurnedPacksCountsEvents(events: seq<TransferSingle>)
    ensures BurnedPacks(events) == |BurnPositions(events)|
  {
    if events != [] {
      var n := |events| - 1;
      var init := events[..n];
      BurnedPacksCountsEvents(init);
      assert BurnPositions(events) == BurnPositions(init) + (if IsPackBurn(events[n]) then {n} else {});
    }
  }

  /** The count of a concatenation is the sum of the counts. */
  lemma {:induction false} BurnedPacksConcat(xs: seq<TransferSingle>, ys: seq<TransferSingle>)
    ensures BurnedPacks(xs + ys) == BurnedPacks(xs) + BurnedPacks(ys)
    decreases |ys|
  {
    if ys == [] {
      assert xs + ys == xs;
    } else {
      var init := ys[..|ys| - 1];
      BurnedPacksConcat(xs, init);
      assert (xs + ys)[..|xs + ys| - 1] == xs + init;
    }
  }

  /** An event sent anywhere but the zero address, or carrying an id outside
      1..222 (a card id, say), never changes the count, wherever it stands. */
  lemma NonBurnNeverCounts(xs: seq<TransferSingle>, e: TransferSingle, ys: seq<TransferSingle>)
    requires e.to != ZeroAddress || e.id < FirstPackId || e.id > LastPackId
    ensures BurnedPacks(xs + [e] + ys) == BurnedPacks(xs + ys)
  {
    BurnedPacksConcat(xs + [e], ys);
    BurnedPacksConcat(xs, [e]);
    BurnedPacksConcat(xs, ys);
    assert [e][..0] == [];
  }

  /** Two burns of the same pack id count twice. */
  lemma RepeatedBurnCountsTwice(e: TransferSingle)
    requires IsPackBurn(e)
    ensures BurnedPacks([e, e]) == 2
  {
    assert [e, e][..1] == [e];
    assert [e][..0] == [];
  }

  /** `CONTRACT_CONFIG.totalPacks`. */
  const ConfiguredTotalPacks: nat := 222

  /** The `totalPacks` that `useContractData` hands over:
      `Number(totalPacks || CONTRACT_CONFIG.totalPacks)`. A missing read and a read
      of `0n` are both falsy, so both become 222. */
  function HookTotalPacks(read: Option<nat>): (n: nat)
    ensures n >= 1
    ensures read.Some? && read.value > 0 ==> n == read.value
    ensures read.None? || read == Some(0) ==> n == ConfiguredTotalPacks
  {
    match read
    case Some(v) => if v != 0 then v else ConfiguredTotalPacks
    case None => ConfiguredTotalPacks
  }

  datatype Stats = Stats(totalSupply: string, minted: string, burnedPacks: string)

  /** The three values shown, given the hook's `totalPacks`:
      `totalPacks?.toString() || "222"`, the constant "222/222", and the burned
      count. The hook's value is always a number, so its decimal text is never
      empty and the `"222"` fallback never applies. */
  function CollectionStatsValues(totalPacks: nat, events: seq<TransferSingle>): (s: Stats)
    ensures s.minted == "222/222"
    ensures s.totalSupply == NatToDecimal(totalPacks)
    ensures s.burnedPacks == NatToDecimal(BurnedPacks(events))
  {
    var supply := NatToDecimal(totalPacks);
    Stats(if supply != "" then supply else "222", "222/222", NatToDecimal(BurnedPacks(events)))
  }

  /** From the contract read to the text shown: a positive read is shown in decimal,
      and a missing read or a read of 0 shows "222". */
  lemma TotalSupplyShown(read: Option<nat>, events: seq<TransferSingle>)
    ensures var shown := CollectionStatsValues(HookTotalPacks(read), events).totalSupply;
            && (read.Some? && read.value > 0 ==> shown == NatToDecimal(read.value))
            && (read.None? || read == Some(0) ==> shown == "222")
  {
  }

}
