/** Card discovery (src/components/OpenedCards.tsx): the state of the collection
    view, the ascending ownership scan from `lastFoundCardId` to 888 and the reset
    that starts it over from the first card id. */
module OpenedCards {

  import opened Opt
  import opened Chain

  const FirstCardId: nat := 223
  const LastCardId: nat := 888

  datatype OpenedCard = OpenedCard(id: nat, image: Option<string>, name: Option<string>)

  /** `checkCardOwnership(tokenId)`: a failed read counts as not owned. */
  function CheckCardOwnership(balanceOf: BalanceOracle, tokenId: nat): (owned: bool)
    ensures balanceOf(tokenId).None? ==> !owned
    ensures balanceOf(tokenId).Some? ==> (owned <==> balanceOf(tokenId).value > 0)
  {
    match balanceOf(tokenId)
    case None => false
    case Some(balance) => balance > 0
  }

  /** `fetchCardMetadata(tokenId)`: the URI is fetched as it is read (no `{id}`
      substitution and no check of `response.ok`); a failed read, an empty URI, a
      failed request or a body that is not JSON give null. */
  function FetchCardMetadata(tokenId: nat, uriOf: UriOracle, fetch: FetchOracle): (card: Option<OpenedCard>)
    ensures card.Some? ==> card.value.id == tokenId
    ensures card.Some? <==>
      && uriOf(tokenId).Some? && uriOf(tokenId).value != ""
      && fetch(uriOf(tokenId).value).Some? && fetch(uriOf(tokenId).value).value.body.Some?
    ensures card.Some? ==>
      var json := fetch(uriOf(tokenId).value).value.body.value;
      card.value.image == json.image && card.value.name == json.name
  {
    match uriOf(tokenId)
    case None => None
    case Some(uri) =>
      if uri == "" then None
      else
        match fetch(uri)
        case None => None
        case Some(response) =>
          match response.body
          case None => None
          case Some(json) => Some(OpenedCard(tokenId, json.image, json.name))
  }

  /** An id the card scan appends: owned, and with metadata. */
  function CardFound(balanceOf: BalanceOracle, uriOf: UriOracle, fetch: FetchOracle): nat -> bool {
    (id: nat) => CheckCardOwnership(balanceOf, id) && FetchCardMetadata(id, uriOf, fetch).Some?
  }

  /** The cards for `ids`, skipping ids without metadata. */
  function CardsOf(ids: seq<nat>, uriOf: UriOracle, fetch: FetchOracle): (r: seq<OpenedCard>)
    ensures |r| <= |ids|
    ensures (forall k :: 0 <= k < |ids| ==> FetchCardMetadata(ids[k], uriOf, fetch).Some?) ==>
      |r| == |ids| && forall k :: 0 <= k < |ids| ==> r[k] == FetchCardMetadata(ids[k], uriOf, fetch).value
  {
    if ids == [] then []
    else
      var last := FetchCardMetadata(ids[|ids| - 1], uriOf, fetch);
      CardsOf(ids[..|ids| - 1], uriOf, fetch) + (if last.Some? then [last.value] else [])
  }

  /** The ids one scan starting at `start` appends, in order. */
  function FoundIds(start: nat, balanceOf: BalanceOracle, uriOf: UriOracle, fetch: FetchOracle): seq<nat> {
    Hits(CardFound(balanceOf, uriOf, fetch), start, LastCardId + 1)
  }

  /** The ids of a list of cards. */
  function CardIds(cards: seq<OpenedCard>): (ids: seq<nat>)
    ensures |ids| == |cards| && forall k :: 0 <= k < |cards| ==> ids[k] == cards[k].id
  {
    seq(|cards|, k requires 0 <= k < |cards| => cards[k].id)
  }

  /** The cards appended by a scan from `start` carry exactly the ids it found. */
  lemma FoundCardsHaveFoundIds(start: nat, balanceOf: BalanceOracle, uriOf: UriOracle, fetch: FetchOracle)
    ensures var ids := FoundIds(start, balanceOf, uriOf, fetch);
            CardIds(CardsOf(ids, uriOf, fetch)) == ids
  {
    HitsSound(CardFound(balanceOf, uriOf, fetch), start, LastCardId + 1);
  }

  /** What one scan appends: exactly the owned ids with metadata in
      [start, 888], strictly increasing. */
  lemma FoundIdsSpec(start: nat, balanceOf: BalanceOracle, uriOf: UriOracle, fetch: FetchOracle)
    ensures var ids := FoundIds(start, balanceOf, uriOf, fetch);
            && (forall x: nat :: x in ids <==>
                  start <= x <= LastCardId && CheckCardOwnership(balanceOf, x)
                  && FetchCardMetadata(x, uriOf, fetch).Some?)
            && (forall k, l :: 0 <= k < l < |ids| ==> ids[k] < ids[l])
  {
    HitsMembership(CardFound(balanceOf, uriOf, fetch), start, LastCardId + 1);
    HitsIncreasing(CardFound(balanceOf, uriOf, fetch), start, LastCardId + 1);
  }

  predicate StrictlyIncreasing(ids: seq<nat>) {
    forall k, l :: 0 <= k < l < |ids| ==> ids[k] < ids[l]
  }

  /** The state the component keeps. */
  class OpenedCardsState {
    var cards: seq<OpenedCard>
    var isLoading: bool
    var lastFoundCardId: nat
    var scanTrigger: nat

    /** The collection holds cards in increasing id order, each below
        `lastFoundCardId`, which never leaves [223, 889]. */
    predicate Valid()
      reads this
    {
      && FirstCardId <= lastFoundCardId <= LastCardId + 1
      && StrictlyIncreasing(CardIds(cards))
      && forall k :: 0 <= k < |cards| ==> FirstCardId <= cards[k].id < lastFoundCardId
    }

    constructor ()
      ensures Valid()
      ensures cards == [] && isLoading && lastFoundCardId == FirstCardId && scanTrigger == 0
    {
      cards := [];
      isLoading := true;
      lastFoundCardId := FirstCardId;
      scanTrigger := 0;
    }

    /** `triggerRescan()`: forget the cards found, start again from the first card id,
        and bump the counter that makes the scan effect run again. */
    method TriggerRescan()
      requires Valid()
      modifies this
      ensures Valid()
      ensures cards == [] && lastFoundCardId == FirstCardId && scanTrigger == old(scanTrigger) + 1
      ensures isLoading == old(isLoading)
    {
      cards := [];
      lastFoundCardId := FirstCardId;
      scanTrigger := scanTrigger + 1;
    }

    /** `scanCards()`: without a connected address nothing changes. Otherwise the ids
        from the `lastFoundCardId` in force when the scan starts up to 888 are
        visited in order; every owned id that has metadata is appended as a card and
        moves `lastFoundCardId` just past it. */
    method ScanCards(address: Option<Address>, isConnected: bool,
                     balanceOf: BalanceOracle, uriOf: UriOracle, fetch: FetchOracle)
      requires Valid()
      modifies this
      ensures Valid()
      ensures scanTrigger == old(scanTrigger)
      ensures !(Present(address) && isConnected) ==>
        cards == old(cards) && isLoading == old(isLoading) && lastFoundCardId == old(lastFoundCardId)
      ensures Present(address) && isConnected ==>
        var found := FoundIds(old(lastFoundCardId), balanceOf, uriOf, fetch);
        && cards == old(cards) + CardsOf(found, uriOf, fetch)
        && lastFoundCardId == (if found == [] then old(lastFoundCardId) else found[|found| - 1] + 1)
        && !isLoading
    {
      if !(Present(address) && isConnected) {
        return;
      }
      isLoading := true;
      var start := lastFoundCardId;
      var found, added, last := ScanRange(start, balanceOf, uriOf, fetch);
      cards := cards + added;
      lastFoundCardId := last;
      isLoading := false;
      AppendKeepsValid(old(cards), start, balanceOf, uriOf, fetch);
    }
  }

  /** The loop of `scanCards`: visit the ids from `start` to 888 in order; each
      owned id with metadata is appended as a card and moves the last-found id just
      past it. */
  method ScanRange(start: nat, balanceOf: BalanceOracle, uriOf: UriOracle, fetch: FetchOracle)
    returns (found: seq<nat>, added: seq<OpenedCard>, last: nat)
    ensures found == FoundIds(start, balanceOf, uriOf, fetch)
    ensures added == CardsOf(found, uriOf, fetch)
    ensures last == if found == [] then start else found[|found| - 1] + 1
  {
    found, added, last := [], [], start;
    var tokenId := start;
    while tokenId <= LastCardId
      invariant start <= tokenId
      invariant if start <= LastCardId + 1 then tokenId <= LastCardId + 1 else tokenId == start
      invariant found == Hits(CardFound(balanceOf, uriOf, fetch), start, tokenId)
      invariant added == CardsOf(found, uriOf, fetch)
      invariant last == if found == [] then start else found[|found| - 1] + 1
    {
      ScanCardsStep(balanceOf, uriOf, fetch, start, found, tokenId);
      var ownsCard := CheckCardOwnership(balanceOf, tokenId);
      if ownsCard {
        var cardMetadata := FetchCardMetadata(tokenId, uriOf, fetch);
        if cardMetadata.Some? {
          added := added + [cardMetadata.value];
          last := tokenId + 1;
          found := found + [tokenId];
        }
      }
      tokenId := tokenId + 1;
    }
    assert Hits(CardFound(balanceOf, uriOf, fetch), start, start) == [];
    assert start > LastCardId + 1 ==> Hits(CardFound(balanceOf, uriOf, fetch), start, LastCardId + 1) == [];
  }

  /** How one visited id changes what the card scan has collected. */
  lemma ScanCardsStep(balanceOf: BalanceOracle, uriOf: UriOracle, fetch: FetchOracle,
                      start: nat, found: seq<nat>, tokenId: nat)
    requires start <= tokenId && found == Hits(CardFound(balanceOf, uriOf, fetch), start, tokenId)
    ensures CardFound(balanceOf, uriOf, fetch)(tokenId) ==>
      && Hits(CardFound(balanceOf, uriOf, fetch), start, tokenId + 1) == found + [tokenId]
      && CardsOf(found + [tokenId], uriOf, fetch)
         == CardsOf(found, uriOf, fetch) + [FetchCardMetadata(tokenId, uriOf, fetch).value]
    ensures !CardFound(balanceOf, uriOf, fetch)(tokenId) ==>
      Hits(CardFound(balanceOf, uriOf, fetch), start, tokenId + 1) == found
  {
    HitsStep(CardFound(balanceOf, uriOf, fetch), start, tokenId);
    var found' := found + [tokenId];
    assert found'[..|found'| - 1] == found;
  }

  /** Appending the cards of one scan keeps the collection's invariant. */
  lemma AppendKeepsValid(cards: seq<OpenedCard>, start: nat, balanceOf: BalanceOracle, uriOf: UriOracle, fetch: FetchOracle)
    requires FirstCardId <= start <= LastCardId + 1
    requires StrictlyIncreasing(CardIds(cards))
    requires forall k :: 0 <= k < |cards| ==> FirstCardId <= cards[k].id < start
    ensures var found := FoundIds(start, balanceOf, uriOf, fetch);
            var all := cards + CardsOf(found, uriOf, fetch);
            var last := if found == [] then start else found[|found| - 1] + 1;
            && FirstCardId <= last <= LastCardId + 1
            && StrictlyIncreasing(CardIds(all))
            && forall k :: 0 <= k < |all| ==> FirstCardId <= all[k].id < last
  {
    var found := FoundIds(start, balanceOf, uriOf, fetch);
    var added := CardsOf(found, uriOf, fetch);
    FoundCardsHaveFoundIds(start, balanceOf, uriOf, fetch);
    HitsSound(CardFound(balanceOf, uriOf, fetch), start, LastCardId + 1);
    HitsIncreasing(CardFound(balanceOf, uriOf, fetch), start, LastCardId + 1);
    var all := cards + added;
    assert CardIds(all) == CardIds(cards) + found;
  }

}
