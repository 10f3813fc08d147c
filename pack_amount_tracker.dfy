/** Selecting and opening packs (src/components/PackAmountTracker.tsx). The
    selection is a list of pack ids; the owned packs are the metadata list that the
    pack scan filled. `openPacks` is a transaction whose outcome is given as a
    boolean. */
module PackAmountTracker {

  import opened Opt
  import opened PackMetadata

  // ---------------------------------------------------------------------------
  // The list expressions of the handlers

  /** `ids.filter(x => x !== id)`. */
  function Without(ids: seq<nat>, id: nat): (r: seq<nat>)
    ensures |r| <= |ids|
    ensures forall k :: 0 <= k < |r| ==> r[k] != id
    ensures id !in ids ==> |r| == |ids|
    ensures id in ids ==> |r| < |ids|
  {
    if ids == [] then []
    else Without(ids[..|ids| - 1], id) + (if ids[|ids| - 1] != id then [ids[|ids| - 1]] else [])
  }

  /** `handleTogglePack`'s update: a selected id is removed (every copy of it), an
      unselected one is appended. */
  function Toggle(selected: seq<nat>, packId: nat): (r: seq<nat>)
    ensures packId in r <==> packId !in selected
    ensures packId in selected ==> |r| < |selected|
    ensures packId !in selected ==> |r| == |selected| + 1
  {
    if packId in selected then Without(selected, packId) else selected + [packId]
  }

  /** The ids of a metadata list, in order (`packMetadata.map(pack => pack.id)`). */
  function PackIds(packs: seq<PackMeta>): (ids: seq<nat>)
    ensures |ids| == |packs| && forall k :: 0 <= k < |packs| ==> ids[k] == packs[k].id
  {
    seq(|packs|, k requires 0 <= k < |packs| => packs[k].id)
  }

  /** `packs.filter(pack => !ids.includes(pack.id))`. */
  function RemovePacks(packs: seq<PackMeta>, ids: seq<nat>): (r: seq<PackMeta>)
    ensures |r| <= |packs|
    ensures forall k :: 0 <= k < |r| ==> r[k].id !in ids && r[k] in packs
  {
    if packs == [] then []
    else RemovePacks(packs[..|packs| - 1], ids) + (if packs[|packs| - 1].id !in ids then [packs[|packs| - 1]] else [])
  }

  predicate NoDuplicates(ids: seq<nat>) {
    forall k, l :: 0 <= k < l < |ids| ==> ids[k] != ids[l]
  }

  /** Removing an id keeps exactly the other elements. */
  lemma {:induction false} WithoutMembership(ids: seq<nat>, id: nat)
    ensures forall x :: x in Without(ids, id) <==> x in ids && x != id
  {
    if ids != [] {
      WithoutMembership(ids[..|ids| - 1], id);
      assert ids == ids[..|ids| - 1] + [ids[|ids| - 1]];
    }
  }

  /** Removing an id that is absent changes nothing. */
  lemma {:induction false} WithoutAbsent(ids: seq<nat>, id: nat)
    requires id !in ids
    ensures Without(ids, id) == ids
  {
    if ids != [] {
      WithoutAbsent(ids[..|ids| - 1], id);
      assert ids == ids[..|ids| - 1] + [ids[|ids| - 1]];
    }
  }

  /** Removing an id from a list that ends with it drops that last copy as well. */
  lemma WithoutAppended(ids: seq<nat>, id: nat)
    ensures Without(ids + [id], id) == Without(ids, id)
  {
    assert (ids + [id])[..|ids + [id]| - 1] == ids;
  }

  /** Removing keeps the order of the survivors and does not add copies. */
  lemma {:induction false} WithoutKeepsNoDuplicates(ids: seq<nat>, id: nat)
    requires NoDuplicates(ids)
    ensures NoDuplicates(Without(ids, id))
  {
    if ids != [] {
      var init := ids[..|ids| - 1];
      WithoutKeepsNoDuplicates(init, id);
      WithoutMembership(init, id);
      assert ids[|ids| - 1] !in init;
    }
  }

  /** What a toggle does to membership. */
  lemma ToggleMembership(selected: seq<nat>, packId: nat)
    ensures packId in selected ==> packId !in Toggle(selected, packId)
    ensures packId !in selected ==> Toggle(selected, packId) == selected + [packId]
    ensures forall x :: x != packId ==> (x in Toggle(selected, packId) <==> x in selected)
  {
    WithoutMembership(selected, packId);
  }

  /** Toggling an unselected id twice gives back the very same list. */
  lemma ToggleTwiceAbsent(selected: seq<nat>, packId: nat)
    requires packId !in selected
    ensures Toggle(Toggle(selected, packId), packId) == selected
  {
    assert packId in selected + [packId];
    WithoutAppended(selected, packId);
    WithoutAbsent(selected, packId);
  }

  /** Toggling a selected id twice gives back the same set of ids. */
  lemma ToggleTwicePresent(selected: seq<nat>, packId: nat)
    requires packId in selected
    ensures (set x | x in Toggle(Toggle(selected, packId), packId)) == (set x | x in selected)
  {
    WithoutMembership(selected, packId);
  }

  /** A toggle keeps a duplicate-free selection duplicate-free. */
  lemma ToggleKeepsNoDuplicates(selected: seq<nat>, packId: nat)
    requires NoDuplicates(selected)
    ensures NoDuplicates(Toggle(selected, packId))
  {
    if packId in selected {
      WithoutKeepsNoDuplicates(selected, packId);
    }
  }

  /** Opening removes exactly the packs whose id was sent. */
  lemma {:induction false} RemovePacksMembership(packs: seq<PackMeta>, ids: seq<nat>)
    ensures forall p :: p in RemovePacks(packs, ids) <==> p in packs && p.id !in ids
  {
    if packs != [] {
      RemovePacksMembership(packs[..|packs| - 1], ids);
      assert packs == packs[..|packs| - 1] + [packs[|packs| - 1]];
    }
  }

  /** Removal works piecewise, so the packs that stay keep their relative order. */
  lemma {:induction false} RemovePacksConcat(xs: seq<PackMeta>, ys: seq<PackMeta>, ids: seq<nat>)
    ensures RemovePacks(xs + ys, ids) == RemovePacks(xs, ids) + RemovePacks(ys, ids)
    decreases |ys|
  {
    if ys == [] {
      assert xs + ys == xs;
    } else {
      var init := ys[..|ys| - 1];
      RemovePacksConcat(xs, init, ids);
      assert (xs + ys)[..|xs + ys| - 1] == xs + init;
    }
  }

  /** Removal leaves a list without the sent ids as it is. */
  lemma {:induction false} RemovePacksNoneSent(packs: seq<PackMeta>, ids: seq<nat>)
    requires forall k :: 0 <= k < |packs| ==> packs[k].id !in ids
    ensures RemovePacks(packs, ids) == packs
  {
    if packs != [] {
      RemovePacksNoneSent(packs[..|packs| - 1], ids);
    }
  }

  // ---------------------------------------------------------------------------
  // The component's state and handlers

  /** What a handler asked of the chain: the ids passed to `openPacks`, or nothing. */
  datatype OpenRequest = NoRequest | OpenPacks(ids: seq<nat>)

  class PackTracker {
    var selectedPacks: seq<nat>
    var packMetadata: seq<PackMeta>
    var isOpeningAnimation: bool

    /** The selection never holds an id twice. */
    predicate Valid()
      reads this
    {
      NoDuplicates(selectedPacks)
    }

    /** The component as first rendered, over the packs the scan found. */
    constructor (packs: seq<PackMeta>)
      ensures Valid()
      ensures selectedPacks == [] && packMetadata == packs && !isOpeningAnimation
    {
      selectedPacks := [];
      packMetadata := packs;
      isOpeningAnimation := false;
    }

    /** `handleTogglePack(packId)`. */
    method HandleTogglePack(packId: nat)
      requires Valid()
      modifies this
      ensures Valid()
      ensures selectedPacks == Toggle(old(selectedPacks), packId)
      ensures packMetadata == old(packMetadata) && isOpeningAnimation == old(isOpeningAnimation)
    {
      ToggleKeepsNoDuplicates(selectedPacks, packId);
      selectedPacks := Toggle(selectedPacks, packId);
    }

    /** `handleOpenPack(packId)`: the animation starts and `[packId]` is sent; on
        success that pack leaves the list, the selection is cleared and a card rescan
        is requested. */
    method HandleOpenPack(packId: nat, success: bool) returns (request: OpenRequest, rescan: bool)
      requires Valid()
      modifies this
      ensures Valid()
      ensures request == OpenPacks([packId]) && isOpeningAnimation && rescan == success
      ensures success ==> packMetadata == RemovePacks(old(packMetadata), [packId]) && selectedPacks == []
      ensures !success ==> packMetadata == old(packMetadata) && selectedPacks == old(selectedPacks)
    {
      isOpeningAnimation := true;
      request := OpenPacks([packId]);
      rescan := false;
      if success {
        packMetadata := RemovePacks(packMetadata, [packId]);
        selectedPacks := [];
        rescan := true;
      }
    }

    /** `handleOpenSelected()`: with nothing selected only a notice is shown (no
        request, no change). Otherwise the animation starts and the selection is sent;
        on success the selected packs leave the list, the selection is cleared and a
        card rescan is requested. */
    method HandleOpenSelected(success: bool) returns (request: OpenRequest, rescan: bool)
      requires Valid()
      modifies this
      ensures Valid()
      ensures old(selectedPacks) == [] ==>
        request == NoRequest && !rescan && packMetadata == old(packMetadata)
        && selectedPacks == old(selectedPacks) && isOpeningAnimation == old(isOpeningAnimation)
      ensures old(selectedPacks) != [] ==>
        request == OpenPacks(old(selectedPacks)) && isOpeningAnimation && rescan == success
      ensures old(selectedPacks) != [] && success ==>
        packMetadata == RemovePacks(old(packMetadata), old(selectedPacks)) && selectedPacks == []
      ensures old(selectedPacks) != [] && !success ==>
        packMetadata == old(packMetadata) && selectedPacks == old(selectedPacks)
    {
      if |selectedPacks| == 0 {
        return NoRequest, false;
      }
      isOpeningAnimation := true;
      request := OpenPacks(selectedPacks);
      rescan := false;
      if success {
        packMetadata := RemovePacks(packMetadata, selectedPacks);
        selectedPacks := [];
        rescan := true;
      }
    }

    /** `handleOpenAll()`: the animation starts and every listed pack id is sent; on
        success both lists are emptied and a card rescan is requested. */
    method HandleOpenAll(success: bool) returns (request: OpenRequest, rescan: bool)
      requires Valid()
      modifies this
      ensures Valid()
      ensures request == OpenPacks(PackIds(old(packMetadata))) && isOpeningAnimation && rescan == success
      ensures success ==> packMetadata == [] && selectedPacks == []
      ensures !success ==> packMetadata == old(packMetadata) && selectedPacks == old(selectedPacks)
    {
      var allPackIds := PackIds(packMetadata);
      isOpeningAnimation := true;
      request := OpenPacks(allPackIds);
      rescan := false;
      if success {
        packMetadata := [];
        selectedPacks := [];
        rescan := true;
      }
    }
  }

  /** Removal empties a list whose every id was sent. */
  lemma {:induction false} RemovePacksAllSent(packs: seq<PackMeta>, ids: seq<nat>)
    requires forall k :: 0 <= k < |packs| ==> packs[k].id in ids
    ensures RemovePacks(packs, ids) == []
  {
    if packs != [] {
      RemovePacksAllSent(packs[..|packs| - 1], ids);
    }
  }

  /** Open-all agrees with sending the full id list through the open-selected filter. */
  lemma OpenAllRemovesEverything(packs: seq<PackMeta>)
    ensures RemovePacks(packs, PackIds(packs)) == []
  {
    var ids := PackIds(packs);
    assert forall k :: 0 <= k < |packs| ==> packs[k].id == ids[k];
    RemovePacksAllSent(packs, ids);
  }

}
