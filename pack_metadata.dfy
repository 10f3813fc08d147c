/** Pack discovery (src/hooks/usePackMetadata.ts): the `{id}` substitution of the
    ERC-1155 Multi Token Standard's metadata URI (lower-case hexadecimal, no `0x`,
    left-padded with zeros to 64 characters), the metadata fetch for one pack and
    the scan of pack ids 1 to 222. */
module PackMetadata {

  import opened Opt
  import opened Text
  import opened Chain

  const IdPlaceholder: string := "{id}"
  const PaddedIdWidth: nat := 64
  const FirstPackId: nat := 1
  const LastPackId: nat := 222

  // ---------------------------------------------------------------------------
  // Hexadecimal rendering and parsing

  predicate IsLowerHex(c: char) {
    '0' <= c <= '9' || 'a' <= c <= 'f'
  }

  function HexDigit(d: nat): (c: char)
    requires d < 16
    ensures IsLowerHex(c)
  {
    "0123456789abcdef"[d]
  }

  function HexDigitValue(c: char): (d: nat)
    requires IsLowerHex(c)
    ensures d < 16
  {
    if '0' <= c <= '9' then c as int - '0' as int else c as int - 'a' as int + 10
  }

  lemma HexDigitValueOfDigit(d: nat)
    requires d < 16
    ensures HexDigitValue(HexDigit(d)) == d
  {
    var digits := "0123456789abcdef";
    assert digits[d] == HexDigit(d);
    if d < 10 {
      assert digits[d] as int == '0' as int + d by {
        assert digits[0] == '0' && digits[1] == '1' && digits[2] == '2' && digits[3] == '3' && digits[4] == '4';
        assert digits[5] == '5' && digits[6] == '6' && digits[7] == '7' && digits[8] == '8' && digits[9] == '9';
      }
    } else {
      assert digits[d] as int == 'a' as int + d - 10 by {
        assert digits[10] == 'a' && digits[11] == 'b' && digits[12] == 'c';
        assert digits[13] == 'd' && digits[14] == 'e' && digits[15] == 'f';
      }
    }
  }

  predicate AllLowerHex(s: string) {
    forall k :: 0 <= k < |s| ==> IsLowerHex(s[k])
  }

  /** `n.toString(16)`: lower-case hexadecimal without prefix and without leading zeros. */
  function ToHex(n: nat): (r: string)
    ensures |r| >= 1 && AllLowerHex(r)
    ensures r[0] == '0' ==> n == 0
    decreases n
  {
    if n < 16 then [HexDigit(n)] else ToHex(n / 16) + [HexDigit(n % 16)]
  }

  /** The number a string of hexadecimal digits denotes. */
  function HexValue(s: string): nat
    requires AllLowerHex(s)
  {
    if s == [] then 0 else HexValue(s[..|s| - 1]) * 16 + HexDigitValue(s[|s| - 1])
  }

  function Zeros(k: nat): (z: string)
    ensures |z| == k && forall i :: 0 <= i < k ==> z[i] == '0'
  {
    seq(k, _ => '0')
  }

  /** `s.padStart(width, '0')`: a string already that long is left as it is. */
  function PadStartZeros(s: string, width: nat): (r: string)
    ensures |r| == if |s| >= width then |s| else width
  {
    if |s| >= width then s else Zeros(width - |s|) + s
  }

  /** The id as it is substituted for `{id}`. */
  function FormattedId(n: nat): string {
    PadStartZeros(ToHex(n), PaddedIdWidth)
  }

  lemma {:induction false} HexRoundTrip(n: nat)
    ensures HexValue(ToHex(n)) == n
    decreases n
  {
    var s := ToHex(n);
    if n < 16 {
      assert s[..|s| - 1] == [];
      HexDigitValueOfDigit(n);
    } else {
      HexRoundTrip(n / 16);
      assert s[..|s| - 1] == ToHex(n / 16);
      HexDigitValueOfDigit(n % 16);
    }
  }

  lemma {:induction false} ZerosValue(k: nat)
    ensures AllLowerHex(Zeros(k)) && HexValue(Zeros(k)) == 0
  {
    if k > 0 {
      assert Zeros(k)[..k - 1] == Zeros(k - 1);
      ZerosValue(k - 1);
    }
  }

  /** Leading zeros do not change the value. */
  lemma {:induction false} LeadingZeros(k: nat, s: string)
    requires AllLowerHex(s)
    ensures AllLowerHex(Zeros(k) + s) && HexValue(Zeros(k) + s) == HexValue(s)
    decreases |s|
  {
    var t := Zeros(k) + s;
    if s == [] {
      assert t == Zeros(k);
      ZerosValue(k);
    } else {
      LeadingZeros(k, s[..|s| - 1]);
      assert t[..|t| - 1] == Zeros(k) + s[..|s| - 1];
    }
  }

  function Pow16(k: nat): (p: nat)
    ensures p >= 1
  {
    if k == 0 then 1 else 16 * Pow16(k - 1)
  }

  /** A number below 16^k has at most k hexadecimal digits. */
  lemma {:induction false} HexLength(n: nat, k: nat)
    requires 1 <= k && n < Pow16(k)
    ensures |ToHex(n)| <= k
    decreases k
  {
    if n >= 16 {
      assert Pow16(1) == 16;
      assert n / 16 < Pow16(k - 1);
      HexLength(n / 16, k - 1);
    }
  }

  /** The formatted id is lower-case hexadecimal without `0x`, at least 64 characters
      long, exactly 64 for every id below 16^64, and parses back to the id. */
  lemma FormattedIdRoundTrip(n: nat)
    ensures AllLowerHex(FormattedId(n))
    ensures |FormattedId(n)| >= PaddedIdWidth
    ensures n < Pow16(PaddedIdWidth) ==> |FormattedId(n)| == PaddedIdWidth
    ensures HexValue(FormattedId(n)) == n
  {
    var h := ToHex(n);
    HexRoundTrip(n);
    if |h| < PaddedIdWidth {
      LeadingZeros(PaddedIdWidth - |h|, h);
    }
    if n < Pow16(PaddedIdWidth) {
      HexLength(n, PaddedIdWidth);
    }
  }

  // ---------------------------------------------------------------------------
  // URI substitution

  /** `i` is where `pat` first occurs in `s`. */
  predicate FirstOccurrence(s: string, pat: string, i: int) {
    OccursAt(s, pat, i) && forall j :: 0 <= j < i ==> !OccursAt(s, pat, j)
  }

  /** `formatUri(uri, tokenId)`: `String.replace` with a string pattern replaces the
      first `{id}` only. */
  function FormatUri(uri: string, tokenId: nat): (r: string)
    ensures (forall j :: !OccursAt(uri, IdPlaceholder, j)) ==> r == uri
    ensures forall i :: FirstOccurrence(uri, IdPlaceholder, i) ==>
      r == uri[..i] + FormattedId(tokenId) + uri[i + |IdPlaceholder|..]
  {
    match IndexOf(uri, IdPlaceholder)
    case None => uri
    case Some(i) => uri[..i] + FormattedId(tokenId) + uri[i + |IdPlaceholder|..]
  }

  /** Two occurrences of `{id}` never overlap. */
  lemma PlaceholdersDisjoint(s: string, i: int, j: int)
    requires OccursAt(s, IdPlaceholder, i) && OccursAt(s, IdPlaceholder, j) && i < j
    ensures j >= i + |IdPlaceholder|
  {
    assert s[j] == '{' by { assert s[j..j + 4][0] == s[j]; }
    assert s[i + 1] == 'i' && s[i + 2] == 'd' && s[i + 3] == '}' by {
      assert s[i..i + 4][1] == s[i + 1] && s[i..i + 4][2] == s[i + 2] && s[i..i + 4][3] == s[i + 3];
    }
  }

  /** Substitution round trip: the text that replaced the first `{id}` is the
      formatted id, it parses back to `tokenId`, and the rest of the URI is kept. */
  lemma SubstitutedIdRoundTrip(uri: string, tokenId: nat, i: int)
    requires FirstOccurrence(uri, IdPlaceholder, i)
    ensures var r := FormatUri(uri, tokenId);
            var w := |FormattedId(tokenId)|;
            i + w <= |r| && r[..i] == uri[..i] && r[i + w..] == uri[i + |IdPlaceholder|..]
            && AllLowerHex(r[i..i + w]) && HexValue(r[i..i + w]) == tokenId
  {
    var r := FormatUri(uri, tokenId);
    var f := FormattedId(tokenId);
    assert r[i..i + |f|] == f;
    FormattedIdRoundTrip(tokenId);
  }

  /** Replacing the text at `i` by `f` moves an occurrence of `pat` that starts
      after the replaced text by the change in length. */
  lemma ShiftedOccurrence(s: string, pat: string, f: string, i: int, j: int)
    requires 0 <= i && i + |pat| <= j && OccursAt(s, pat, j)
    ensures OccursAt(s[..i] + f + s[i + |pat|..], pat, j - |pat| + |f|)
  {
    var r := s[..i] + f + s[i + |pat|..];
    var j' := j - |pat| + |f|;
    var moved, original := r[j'..j' + |pat|], s[j..j + |pat|];
    assert forall m :: 0 <= m < |pat| ==> moved[m] == original[m];
  }

  /** Any other occurrence comes after the first one. */
  lemma FirstComesFirst(s: string, pat: string, i: int, j: int)
    requires FirstOccurrence(s, pat, i) && OccursAt(s, pat, j) && j != i
    ensures i < j
  {
  }

  /** Every later `{id}` survives the substitution, shifted by the length change. */
  lemma LaterPlaceholdersSurvive(uri: string, tokenId: nat, i: int, j: int)
    requires FirstOccurrence(uri, IdPlaceholder, i)
    requires OccursAt(uri, IdPlaceholder, j) && j != i
    ensures OccursAt(FormatUri(uri, tokenId), IdPlaceholder, j - |IdPlaceholder| + |FormattedId(tokenId)|)
  {
    FirstComesFirst(uri, IdPlaceholder, i, j);
    PlaceholdersDisjoint(uri, i, j);
    var f := FormattedId(tokenId);
    assert FormatUri(uri, tokenId) == uri[..i] + f + uri[i + |IdPlaceholder|..];
    ShiftedOccurrence(uri, IdPlaceholder, f, i, j);
  }

  // ---------------------------------------------------------------------------
  // Metadata of one pack

  datatype PackMeta = PackMeta(id: nat, image: Option<string>, name: Option<string>)

  /** `fetchPackMetadata(tokenId)`: read the URI, substitute the id, fetch and parse
      the JSON. A failed read, an empty URI, a failed request, a response that is not
      `ok` and a body that is not JSON all give the bare entry `{ id }`. */
  function FetchPackMetadata(tokenId: nat, uriOf: UriOracle, fetch: FetchOracle): (m: PackMeta)
    ensures m.id == tokenId
    ensures uriOf(tokenId).None? || uriOf(tokenId) == Some("") ==> m == PackMeta(tokenId, None, None)
    ensures uriOf(tokenId).Some? && uriOf(tokenId).value != "" ==>
      var response := fetch(FormatUri(uriOf(tokenId).value, tokenId));
      if response.Some? && response.value.ok && response.value.body.Some?
      then m == PackMeta(tokenId, response.value.body.value.image, response.value.body.value.name)
      else m == PackMeta(tokenId, None, None)
  {
    match uriOf(tokenId)
    case None => PackMeta(tokenId, None, None)
    case Some(uri) =>
      if uri == "" then PackMeta(tokenId, None, None)
      else
        match fetch(FormatUri(uri, tokenId))
        case None => PackMeta(tokenId, None, None)
        case Some(response) =>
          if !response.ok then PackMeta(tokenId, None, None)
          else
            match response.body
            case None => PackMeta(tokenId, None, None)
            case Some(json) => PackMeta(tokenId, json.image, json.name)
  }

  // ---------------------------------------------------------------------------
  // The scan of pack ids

  function BalanceValue(read: Option<nat>): nat {
    match read
    case None => 0
    case Some(b) => b
  }

  /** The sum of the balances read for `ids`. */
  function SumBalances(balanceOf: BalanceOracle, ids: seq<nat>): nat {
    if ids == [] then 0
    else SumBalances(balanceOf, ids[..|ids| - 1]) + BalanceValue(balanceOf(ids[|ids| - 1]))
  }

  /** The metadata entries for `ids`, one per id, in the same order. */
  function MetadataOf(ids: seq<nat>, uriOf: UriOracle, fetch: FetchOracle): (r: seq<PackMeta>)
    ensures |r| == |ids|
    ensures forall k :: 0 <= k < |ids| ==> r[k] == FetchPackMetadata(ids[k], uriOf, fetch)
  {
    if ids == [] then []
    else MetadataOf(ids[..|ids| - 1], uriOf, fetch) + [FetchPackMetadata(ids[|ids| - 1], uriOf, fetch)]
  }

  /** The ids that the pack scan finds. */
  function OwnedPacks(balanceOf: BalanceOracle): seq<nat> {
    Hits(OwnedBy(balanceOf), FirstPackId, LastPackId + 1)
  }

  /** How one visited id changes what the scan has collected. */
  lemma ScanPacksStep(balanceOf: BalanceOracle, uriOf: UriOracle, fetch: FetchOracle, owned: seq<nat>, tokenId: nat)
    requires FirstPackId <= tokenId && owned == Hits(OwnedBy(balanceOf), FirstPackId, tokenId)
    ensures Owns(balanceOf(tokenId)) ==>
      && Hits(OwnedBy(balanceOf), FirstPackId, tokenId + 1) == owned + [tokenId]
      && SumBalances(balanceOf, owned + [tokenId]) == SumBalances(balanceOf, owned) + balanceOf(tokenId).value
      && MetadataOf(owned + [tokenId], uriOf, fetch) == MetadataOf(owned, uriOf, fetch) + [FetchPackMetadata(tokenId, uriOf, fetch)]
    ensures !Owns(balanceOf(tokenId)) ==> Hits(OwnedBy(balanceOf), FirstPackId, tokenId + 1) == owned
  {
    HitsStep(OwnedBy(balanceOf), FirstPackId, tokenId);
    var owned' := owned + [tokenId];
    assert owned'[..|owned'| - 1] == owned;
  }

  /** The loop of `checkAllTokens`: visit ids 1 to 222 in order and, for each one
      whose balance read succeeds with a positive balance, record the id, add its
      balance and fetch its metadata. */
  method ScanPacks(balanceOf: BalanceOracle, uriOf: UriOracle, fetch: FetchOracle)
    returns (owned: seq<nat>, totalOwned: nat, metadata: seq<PackMeta>)
    ensures owned == OwnedPacks(balanceOf)
    ensures forall x: nat :: x in owned <==> FirstPackId <= x <= LastPackId && Owns(balanceOf(x))
    ensures forall k, l :: 0 <= k < l < |owned| ==> owned[k] < owned[l]
    ensures totalOwned == SumBalances(balanceOf, owned)
    ensures metadata == MetadataOf(owned, uriOf, fetch)
  {
    owned, totalOwned, metadata := [], 0, [];
    var tokenId := FirstPackId;
    while tokenId <= LastPackId
      invariant FirstPackId <= tokenId <= LastPackId + 1
      invariant owned == Hits(OwnedBy(balanceOf), FirstPackId, tokenId)
      invariant totalOwned == SumBalances(balanceOf, owned)
      invariant metadata == MetadataOf(owned, uriOf, fetch)
    {
      ScanPacksStep(balanceOf, uriOf, fetch, owned, tokenId);
      var result := balanceOf(tokenId);
      if Owns(result) {
        owned := owned + [tokenId];
        totalOwned := totalOwned + result.value;
        var m := FetchPackMetadata(tokenId, uriOf, fetch);
        metadata := metadata + [m];
      }
      tokenId := tokenId + 1;
    }
    HitsMembership(OwnedBy(balanceOf), FirstPackId, LastPackId + 1);
    HitsIncreasing(OwnedBy(balanceOf), FirstPackId, LastPackId + 1);
  }

  /** Every id found has a positive balance, so the total is at least the number of
      ids found. */
  lemma {:induction false} SumOfOwnedAtLeastCount(balanceOf: BalanceOracle, ids: seq<nat>)
    requires forall k :: 0 <= k < |ids| ==> Owns(balanceOf(ids[k]))
    ensures SumBalances(balanceOf, ids) >= |ids|
  {
    if ids != [] {
      SumOfOwnedAtLeastCount(balanceOf, ids[..|ids| - 1]);
    }
  }

  /** The scan's total is positive exactly when it found some pack. */
  lemma TotalPositiveIffFound(balanceOf: BalanceOracle)
    ensures SumBalances(balanceOf, OwnedPacks(balanceOf)) > 0 <==> OwnedPacks(balanceOf) != []
  {
    HitsSound(OwnedBy(balanceOf), FirstPackId, LastPackId + 1);
    SumOfOwnedAtLeastCount(balanceOf, OwnedPacks(balanceOf));
  }

  /** The "Packs found!" notification: the total and the ids found. */
  datatype PacksFound = PacksFound(totalOwned: nat, ids: seq<nat>)

  /** The state `usePackMetadata` keeps. */
  class PackMetadataHook {
    var packMetadata: seq<PackMeta>
    var isLoading: bool

    constructor ()
      ensures packMetadata == [] && isLoading
    {
      packMetadata := [];
      isLoading := true;
    }

    /** `checkAllTokens()`: no scan without a connected address; otherwise the list is
        reset, refilled with one entry per owned pack, loading ends, and the
        notification is raised only when something was found. */
    method CheckAllTokens(address: Option<Address>, isConnected: bool,
                          balanceOf: BalanceOracle, uriOf: UriOracle, fetch: FetchOracle)
      returns (toast: Option<PacksFound>)
      modifies this
      ensures !(Present(address) && isConnected) ==>
        toast == None && packMetadata == old(packMetadata) && isLoading == old(isLoading)
      ensures Present(address) && isConnected ==>
        var owned := OwnedPacks(balanceOf);
        && packMetadata == MetadataOf(owned, uriOf, fetch)
        && !isLoading
        && toast == (if owned != [] then Some(PacksFound(SumBalances(balanceOf, owned), owned)) else None)
    {
      if !(Present(address) && isConnected) {
        return None;
      }
      packMetadata := [];
      var owned, totalOwned, metadata := ScanPacks(balanceOf, uriOf, fetch);
      packMetadata := packMetadata + metadata;
      TotalPositiveIffFound(balanceOf);
      toast := if totalOwned > 0 then Some(PacksFound(totalOwned, owned)) else None;
      isLoading := false;
    }
  }

}
