/** What the application sees of the chain and of the metadata server, replaced by
    oracle functions: a balance read per token id, a `uri` read per token id and an
    HTTP fetch per URL. Also the ascending scan over a range of token ids that both
    ownership scans perform. */
module Chain {

  import opened Opt

  type Address = string

  /** `balanceOf(address, id)` for the connected address; None when the read throws. */
  type BalanceOracle = nat -> Option<nat>

  /** `uri(id)`; None when the read throws. */
  type UriOracle = nat -> Option<string>

  /** The JSON document a metadata URL serves; absent fields are None. */
  datatype TokenJson = TokenJson(image: Option<string>, name: Option<string>)

  /** What `fetch(url)` gives: the `ok` flag and the body parsed as JSON (None when
      `response.json()` throws or yields no object). */
  datatype Response = Response(ok: bool, body: Option<TokenJson>)

  /** `fetch(url)`; None when the request itself throws. */
  type FetchOracle = string -> Option<Response>

  /** A wallet address that JavaScript treats as truthy: defined and non-empty. */
  predicate Present(address: Option<Address>) {
    address.Some? && address.value != ""
  }

  /** A balance read that proves ownership: it succeeded and is positive. */
  predicate Owns(read: Option<nat>) {
    read.Some? && read.value > 0
  }

  function OwnedBy(balanceOf: BalanceOracle): nat -> bool {
    (id: nat) => Owns(balanceOf(id))
  }

  /** The ids in [lo, hi) that satisfy `p`, in the order an ascending scan meets them. */
  function Hits(p: nat -> bool, lo: nat, hi: nat): (r: seq<nat>)
    ensures |r| <= if hi <= lo then 0 else hi - lo
    decreases hi
  {
    if hi <= lo then []
    else Hits(p, lo, hi - 1) + (if p(hi - 1) then [hi - 1] else [])
  }

  /** Every id a scan collects lies in its range and satisfies `p`. */
  lemma {:induction false} HitsSound(p: nat -> bool, lo: nat, hi: nat)
    ensures forall k :: 0 <= k < |Hits(p, lo, hi)| ==> lo <= Hits(p, lo, hi)[k] < hi && p(Hits(p, lo, hi)[k])
    decreases hi
  {
    if hi > lo {
      HitsSound(p, lo, hi - 1);
    }
  }

  /** A scan collects every id of its range that satisfies `p`. */
  lemma {:induction false} HitsComplete(p: nat -> bool, lo: nat, hi: nat)
    ensures forall x: nat :: lo <= x < hi && p(x) ==> x in Hits(p, lo, hi)
    decreases hi
  {
    if hi > lo {
      HitsComplete(p, lo, hi - 1);
    }
  }

  /** The ids a scan collects are strictly increasing. */
  lemma {:induction false} HitsIncreasing(p: nat -> bool, lo: nat, hi: nat)
    ensures forall k, l :: 0 <= k < l < |Hits(p, lo, hi)| ==> Hits(p, lo, hi)[k] < Hits(p, lo, hi)[l]
    decreases hi
  {
    if hi > lo {
      HitsIncreasing(p, lo, hi - 1);
      HitsSound(p, lo, hi - 1);
    }
  }

  /** Membership in a scan's result, both ways. */
  lemma HitsMembership(p: nat -> bool, lo: nat, hi: nat)
    ensures forall x: nat :: x in Hits(p, lo, hi) <==> lo <= x < hi && p(x)
  {
    HitsSound(p, lo, hi);
    HitsComplete(p, lo, hi);
  }

  /** One more step of the scan: the id `hi` is appended exactly when it satisfies `p`. */
  lemma HitsStep(p: nat -> bool, lo: nat, hi: nat)
    requires lo <= hi
    ensures Hits(p, lo, hi + 1) == Hits(p, lo, hi) + (if p(hi) then [hi] else [])
  {
  }

}
