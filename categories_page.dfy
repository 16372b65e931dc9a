/**
 * The category list screen: the name search over the fetched categories and
 * the confirmed delete, which removes the category document before its
 * icon file and refreshes the list afterwards.
 */
module CategoriesPage {
  import opened Json
  import opened Text
  import opened Seqs
  import opened Remote
  import CategoryService

  const DeletedMessage := "Category deleted successfully"
  const DeleteFailedMessage := "Failed to delete category"

  /** The fields of a listed category the screen reads. */
  datatype Category = Category(id: string, name: string, icon: string)

  /** The search test: the lowercased term occurs in the lowercased name. */
  predicate Matches(category: Category, term: string) {
    Includes(Lower(category.name), Lower(term))
  }

  /** `filteredCategories`: the categories that match, in list order. */
  function FilterCategories(categories: seq<Category>, term: string): (r: seq<Category>)
    ensures IsSubsequence(r, categories)
    ensures forall c :: c in r <==> c in categories && Matches(c, term)
  {
    FilterKeeps(categories, c => Matches(c, term));
    FilterIsSubsequence(categories, c => Matches(c, term));
    Filter(categories, c => Matches(c, term))
  }

  /** An empty search term keeps every category. */
  lemma EmptyTermKeepsAll(categories: seq<Category>)
    ensures FilterCategories(categories, "") == categories
  {
    forall c | c in categories
      ensures Matches(c, "")
    {
      IncludesEmpty(Lower(c.name));
    }
    FilterAll(categories, c => Matches(c, ""));
  }

  /** Nothing is shown exactly when no category name contains the term. */
  lemma NoMatchIff(categories: seq<Category>, term: string)
    ensures FilterCategories(categories, term) == [] <==>
      forall i :: 0 <= i < |categories| ==> !Includes(Lower(categories[i].name), Lower(term))
  {
    FilterEmptyIff(categories, c => Matches(c, term));
  }

  /**
   * `handleDelete(categoryId, iconId)`: nothing when the prompt is
   * declined; otherwise the category document is deleted, then the icon
   * file whatever `iconId` is, and the list is fetched again. The first
   * rejection ends the sequence with the failure toast: a failed document
   * deletion attempts no icon deletion, and a failed icon deletion comes
   * after the document is already gone.
   */
  method HandleDelete(env: Env, respond: Call -> Response, confirmed: bool, categoryId: string, iconId: string)
    returns (calls: seq<Call>, toast: Option<string>)
    ensures !confirmed ==> calls == [] && toast.None?
    ensures StopsAtRejection(respond, calls)
    ensures confirmed ==>
      var deleteDocument := DeleteDocument(EnvValue(env, DatabaseVar), EnvValue(env, CategoryCollectionVar), categoryId);
      var deleteIcon := DeleteFile(EnvValue(env, CategoryBucketVar), iconId);
      var refresh := ListDocuments(EnvValue(env, DatabaseVar), EnvValue(env, CategoryCollectionVar), CategoryService.NewestFirst);
      && (respond(deleteDocument).Rejected? ==>
            calls == [deleteDocument] && toast == Some(DeleteFailedMessage))
      && (respond(deleteDocument).Done? && respond(deleteIcon).Rejected? ==>
            calls == [deleteDocument, deleteIcon] && toast == Some(DeleteFailedMessage))
      && (respond(deleteDocument).Done? && respond(deleteIcon).Done? ==>
            calls == [deleteDocument, deleteIcon, refresh] && toast == Some(DeletedMessage))
  {
    if !confirmed {
      calls, toast := [], None;
      return;
    }
    var deleted, outcome := CategoryService.DeleteCategory(env, respond, categoryId);
    if outcome.Failure? {
      calls, toast := deleted, Some(DeleteFailedMessage);
      return;
    }
    var removed, iconOutcome := CategoryService.DeleteIcon(env, respond, iconId);
    if iconOutcome.Failure? {
      calls, toast := deleted + removed, Some(DeleteFailedMessage);
      return;
    }
    var refreshed, _ := CategoryService.GetAllCategories(env, respond);
    calls, toast := deleted + removed + refreshed, Some(DeletedMessage);
  }
}
