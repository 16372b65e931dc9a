/**
 * The brand list screen: the search filter over the fetched brands and the
 * confirmed delete, which removes the icon file (when the brand has one)
 * before the brand document and refreshes the list afterwards.
 */
module BrandsPage {
  import opened Json
  import opened Text
  import opened Seqs
  import opened Remote
  import BrandService

  const DeletedMessage := "Brand deleted successfully"
  const DeleteFailedMessage := "Failed to delete brand"

  /** The fields of a listed brand the screen reads; `description` may be absent. */
  datatype Brand = Brand(id: string, name: string, description: Option<string>, icon: string)

  /**
   * The search test: the lowercased query occurs in the lowercased name or,
   * when there is one, in the lowercased description (`?.` makes a missing
   * description falsy).
   */
  predicate Matches(brand: Brand, query: string) {
    || Includes(Lower(brand.name), Lower(query))
    || (brand.description.Some? && Includes(Lower(brand.description.value), Lower(query)))
  }

  /** `filterBrands`: the brands that match, in list order. */
  function FilterBrands(brands: seq<Brand>, query: string): (r: seq<Brand>)
    ensures IsSubsequence(r, brands)
    ensures forall b :: b in r <==> b in brands && Matches(b, query)
    ensures forall b :: b in brands && b.description.None? ==>
      (b in r <==> Includes(Lower(b.name), Lower(query)))
  {
    FilterKeeps(brands, b => Matches(b, query));
    FilterIsSubsequence(brands, b => Matches(b, query));
    Filter(brands, b => Matches(b, query))
  }

  /** An empty search keeps every brand. */
  lemma EmptyQueryKeepsAll(brands: seq<Brand>)
    ensures FilterBrands(brands, "") == brands
  {
    forall b | b in brands
      ensures Matches(b, "")
    {
      IncludesEmpty(Lower(b.name));
    }
    FilterAll(brands, b => Matches(b, ""));
  }

  /** The search ignores the case of the query. */
  lemma QueryCaseIgnored(brands: seq<Brand>, query: string)
    ensures FilterBrands(brands, Lower(query)) == FilterBrands(brands, query)
  {
    LowerIdempotent(query);
    FilterSame(brands, b => Matches(b, Lower(query)), b => Matches(b, query));
  }

  /**
   * `handleDelete(brandId, iconId)`: nothing when the prompt is declined;
   * otherwise the icon file is deleted first when `iconId` is truthy, then
   * the brand document, and the list is fetched again. The first rejection
   * ends the sequence with the failure toast, so a failed icon deletion
   * leaves the brand document in place.
   */
  method HandleDelete(env: Env, respond: Call -> Response, confirmed: bool, brandId: string, iconId: string)
    returns (calls: seq<Call>, toast: Option<string>)
    ensures !confirmed ==> calls == [] && toast.None?
    ensures confirmed ==> toast == Some(DeletedMessage) || toast == Some(DeleteFailedMessage)
    ensures StopsAtRejection(respond, calls)
    ensures confirmed ==>
      var deleteIcon := DeleteFile(EnvValue(env, BrandBucketVar), iconId);
      var deleteDocument := DeleteDocument(EnvValue(env, DatabaseVar), BrandService.BrandsCollection, brandId);
      var refresh := ListDocuments(EnvValue(env, DatabaseVar), BrandService.BrandsCollection, []);
      var first := if iconId != "" then [deleteIcon] else [];
      && (iconId != "" && respond(deleteIcon).Rejected? ==>
            calls == [deleteIcon] && toast == Some(DeleteFailedMessage))
      && ((iconId == "" || respond(deleteIcon).Done?) && respond(deleteDocument).Rejected? ==>
            calls == first + [deleteDocument] && toast == Some(DeleteFailedMessage))
      && ((iconId == "" || respond(deleteIcon).Done?) && respond(deleteDocument).Done? ==>
            calls == first + [deleteDocument, refresh] && toast == Some(DeletedMessage))
    ensures forall i :: 0 <= i < |calls| && calls[i].DeleteFile? ==> i == 0 && iconId != ""
    ensures toast == Some(DeletedMessage) <==>
      confirmed && calls != [] && calls[|calls| - 1] == ListDocuments(EnvValue(env, DatabaseVar), BrandService.BrandsCollection, [])
    ensures toast == Some(DeleteFailedMessage) ==> calls != [] && respond(calls[|calls| - 1]).Rejected?
  {
    if !confirmed {
      calls, toast := [], None;
      return;
    }
    var removed: seq<Call> := [];
    if iconId != "" {
      var outcome;
      removed, outcome := BrandService.DeleteIcon(env, respond, iconId);
      if outcome.Failure? {
        calls, toast := removed, Some(DeleteFailedMessage);
        return;
      }
    }
    var deleted, outcome := BrandService.DeleteBrand(env, respond, brandId);
    if outcome.Failure? {
      calls, toast := removed + deleted, Some(DeleteFailedMessage);
      return;
    }
    var refreshed, _ := BrandService.GetBrands(env, respond);
    calls, toast := removed + deleted + refreshed, Some(DeletedMessage);
  }
}
