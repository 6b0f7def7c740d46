/** Global ids of the form `gid://shopify/<Kind>/<N>` and their numeric
    tails, the fifth `/`-separated segment. */
module ProductIds {
  import opened Wrappers
  import opened JsText

  /** `gid://shopify/<kind>/<tail>`. */
  function Gid(kind: string, tail: string): string {
    "gid://shopify/" + kind + "/" + tail
  }

  /** The template `gid://shopify/Product/${id}` the offer route uses. */
  function ProductGid(tail: string): string {
    Gid("Product", tail)
  }

  /** `id.split("/")[4]`: the numeric tail of a global id; `undefined` when
      the id has fewer than five segments. */
  function NumericTail(id: string): (r: Option<string>)
    ensures r.Some? <==> Slashes(id) >= 4
    ensures r.Some? ==> '/' !in r.value
  {
    SegmentAt(id, 4)
  }

  /** The fifth segment of a global id with slash-free kind and tail is the
      tail. */
  lemma TailOfGid(kind: string, tail: string)
    requires '/' !in kind && '/' !in tail
    ensures NumericTail(Gid(kind, tail)) == Some(tail)
  {
    var g := Gid(kind, tail);
    assert g == "gid:" + "/" + ("" + "/" + ("shopify" + "/" + (kind + "/" + tail)));
    SplitSlashFree(tail);
    SplitAfterPiece(kind, tail);
    SplitAfterPiece("shopify", kind + "/" + tail);
    SplitAfterPiece("", "shopify" + "/" + (kind + "/" + tail));
    SplitAfterPiece("gid:", "" + "/" + ("shopify" + "/" + (kind + "/" + tail)));
    assert Split(g) == ["gid:", "", "shopify", kind, tail];
  }

  /** Reducing a stored product gid with a slash-free tail to its tail and
      re-prefixing the tail gives back the stored gid. */
  lemma ProductGidRoundTrip(stored: string, tail: string)
    requires '/' !in tail && stored == ProductGid(tail)
    ensures NumericTail(stored).Some?
    ensures ProductGid(NumericTail(stored).value) == stored
  {
    TailOfGid("Product", tail);
  }

  /** A decimal product id survives the gid round trip. */
  lemma DecimalTailOfProductGid(n: nat)
    ensures NumericTail(ProductGid(NatToString(n))) == Some(NatToString(n))
  {
    var t := NatToString(n);
    TailOfGid("Product", t);
  }
}
