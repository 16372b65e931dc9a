/**
 * The sub-category list screen: the id-to-category map built from the
 * fetched categories, the parent line it drives, and the delete, which has
 * no confirmation prompt and removes the document before its image.
 */
module SubCategoriesPage {
  import opened Json
  import opened Remote
  import CategoryService
  import SubCategoryAddPage

  const DeletedMessage := "Sub-category deleted successfully"
  const DeleteFailedMessage := "Failed to delete sub-category"

  /** A fetched category: its `$id` and its fields. */
  datatype Listed = Listed(id: string, fields: Doc)

  // ---------------------------------------------------------------------------
  // The category map

  /** The map after assigning `map[c.$id] = c` for each category in order. */
  function CategoryMap(categories: seq<Listed>): map<string, Doc>
    decreases |categories|
  {
    if categories == [] then map[]
    else
      var last := categories[|categories| - 1];
      CategoryMap(categories[..|categories| - 1])[last.id := last.fields]
  }

  /** No category after position `i` has the same id. */
  ghost predicate LastWithId(categories: seq<Listed>, i: int)
    requires 0 <= i < |categories|
  {
    forall j :: i < j < |categories| ==> categories[j].id != categories[i].id
  }

  /** The map has a key for exactly the fetched ids. */
  lemma {:induction false} CategoryMapKeys(categories: seq<Listed>)
    ensures forall k :: k in CategoryMap(categories) <==> exists i :: 0 <= i < |categories| && categories[i].id == k
    decreases |categories|
  {
    if categories != [] {
      var n := |categories| - 1;
      var init := categories[..n];
      CategoryMapKeys(init);
      assert CategoryMap(categories) == CategoryMap(init)[categories[n].id := categories[n].fields];
      forall k | k in CategoryMap(categories)
        ensures exists i :: 0 <= i < |categories| && categories[i].id == k
      {
        if k != categories[n].id {
          var i :| 0 <= i < |init| && init[i].id == k;
          assert categories[i].id == k;
        }
      }
      forall k | exists i :: 0 <= i < |categories| && categories[i].id == k
        ensures k in CategoryMap(categories)
      {
        var i :| 0 <= i < |categories| && categories[i].id == k;
        if i < n {
          assert init[i].id == k;
        }
      }
    }
  }

  /** Each key holds the last category carrying that id. */
  lemma {:induction false} CategoryMapLastWins(categories: seq<Listed>)
    ensures forall i :: 0 <= i < |categories| && LastWithId(categories, i) ==>
      categories[i].id in CategoryMap(categories) && CategoryMap(categories)[categories[i].id] == categories[i].fields
    decreases |categories|
  {
    if categories != [] {
      var n := |categories| - 1;
      var init := categories[..n];
      CategoryMapLastWins(init);
      assert CategoryMap(categories) == CategoryMap(init)[categories[n].id := categories[n].fields];
      forall i | 0 <= i < |categories| && LastWithId(categories, i)
        ensures categories[i].id in CategoryMap(categories) && CategoryMap(categories)[categories[i].id] == categories[i].fields
      {
        if i < n {
          assert init[i] == categories[i];
          assert LastWithId(init, i);
          assert categories[n].id != categories[i].id;
        }
      }
    }
  }

  /** `fetchCategories`'s `forEach`: assign every category under its id. */
  method BuildCategoryMap(categories: seq<Listed>) returns (m: map<string, Doc>)
    ensures m == CategoryMap(categories)
    ensures forall k :: k in m <==> exists i :: 0 <= i < |categories| && categories[i].id == k
    ensures forall i :: 0 <= i < |categories| && LastWithId(categories, i) ==>
      categories[i].id in m && m[categories[i].id] == categories[i].fields
  {
    m := map[];
    var i := 0;
    while i < |categories|
      invariant 0 <= i <= |categories|
      invariant m == CategoryMap(categories[..i])
    {
      assert categories[..i + 1][..i] == categories[..i];
      m := m[categories[i].id := categories[i].fields];
      i := i + 1;
    }
    assert categories[..i] == categories;
    CategoryMapKeys(categories);
    CategoryMapLastWins(categories);
  }

  /** The parent line of a row: the parent's name, shown only when the map holds the parent id. */
  function ParentLine(categoryMap: map<string, Doc>, parentCategoryId: string): (line: Option<Value>)
    ensures line.Some? <==> parentCategoryId in categoryMap
    ensures line.Some? ==> line.value == Get(categoryMap[parentCategoryId], "name")
  {
    if parentCategoryId in categoryMap then Some(Get(categoryMap[parentCategoryId], "name")) else None
  }

  /** A parent line appears exactly when some fetched category has the parent id. */
  lemma ParentShownIff(categories: seq<Listed>, parentCategoryId: string)
    ensures ParentLine(CategoryMap(categories), parentCategoryId).Some? <==>
      exists i :: 0 <= i < |categories| && categories[i].id == parentCategoryId
  {
    CategoryMapKeys(categories);
  }

  // ---------------------------------------------------------------------------
  // Delete

  /**
   * `handleDelete(subCategoryId, imageId)`, with no confirmation prompt:
   * the document is deleted, then the image file when `imageId` is truthy,
   * and the list is fetched again. The first rejection ends the sequence
   * with the failure toast.
   */
  method HandleDelete(env: Env, respond: Call -> Response, subCategoryId: string, imageId: string)
    returns (calls: seq<Call>, toast: string)
    ensures StopsAtRejection(respond, calls)
    ensures
      var deleteDocument := DeleteDocument(EnvValue(env, DatabaseVar), EnvValue(env, SubCategoryCollectionVar), subCategoryId);
      var deleteImage := DeleteFile(EnvValue(env, SubCategoryBucketVar), imageId);
      var refresh := ListDocuments(EnvValue(env, DatabaseVar), EnvValue(env, SubCategoryCollectionVar), CategoryService.NewestFirst);
      var second := if imageId != "" then [deleteImage] else [];
      && calls != [] && calls[0] == deleteDocument
      && (respond(deleteDocument).Rejected? ==> calls == [deleteDocument] && toast == DeleteFailedMessage)
      && (respond(deleteDocument).Done? && imageId != "" && respond(deleteImage).Rejected? ==>
            calls == [deleteDocument, deleteImage] && toast == DeleteFailedMessage)
      && (respond(deleteDocument).Done? && (imageId == "" || respond(deleteImage).Done?) ==>
            calls == [deleteDocument] + second + [refresh] && toast == DeletedMessage)
    ensures imageId == "" ==> forall c :: c in calls ==> !c.DeleteFile?
  {
    var deleted, outcome := CategoryService.DeleteSubCategory(env, respond, subCategoryId);
    if outcome.Failure? {
      calls, toast := deleted, DeleteFailedMessage;
      return;
    }
    var removed: seq<Call> := [];
    if imageId != "" {
      var imageOutcome;
      removed, imageOutcome := CategoryService.DeleteSubCategoryImage(env, respond, imageId);
      if imageOutcome.Failure? {
        calls, toast := deleted + removed, DeleteFailedMessage;
        return;
      }
    }
    var refreshed, _ := CategoryService.GetAllSubCategories(env, respond);
    calls, toast := deleted + removed + refreshed, DeletedMessage;
  }

  /** The delete button of a row as written: the image id is read from `imageId`. */
  method DeleteRow(env: Env, respond: Call -> Response, row: Doc) returns (calls: seq<Call>, toast: string)
    ensures "imageId" !in row ==> forall c :: c in calls ==> !c.DeleteFile?
    ensures calls != [] && calls[0].DeleteDocument? && calls[0].documentId == IdText(Get(row, "$id"))
  {
    calls, toast := HandleDelete(env, respond, IdText(Get(row, "$id")), IdText(Get(row, "imageId")));
  }

  /**
   * A sub-category created by the add screen with an uploaded image, as the
   * list returns it (the stored fields plus the backend's own fields, none
   * of which is `imageId`): its image id is stored under `image`, so the
   * row's delete button passes a falsy image id and the image file is never
   * deleted.
   */
  lemma StoredImageNeverDeleted(env: Env, name: string, parentCategoryId: string, description: string,
                                imageId: string, createdAt: string, system: Doc)
    requires imageId != "" && "imageId" !in system
    ensures var row := Spread(CategoryService.SubCategoryDocument(
              SubCategoryAddPage.SubCategoryPayload(env, name, parentCategoryId, description, Some(imageId), createdAt)), system);
      && "imageId" !in row
      && ("image" !in system ==> Get(row, "image") == Str(imageId))
  {
    SubCategoryAddPage.PayloadStoredWhole(env, name, parentCategoryId, description, Some(imageId), createdAt);
  }

  /** The delete button as intended: the image id is read from `image`, where creation stores it. */
  method DeleteRowIntended(env: Env, respond: Call -> Response, row: Doc) returns (calls: seq<Call>, toast: string)
    ensures calls != [] && calls[0].DeleteDocument? && calls[0].documentId == IdText(Get(row, "$id"))
    ensures forall id :: Get(row, "image") == Str(id) && id != "" && respond(calls[0]).Done? ==>
      |calls| >= 2 && calls[1] == DeleteFile(EnvValue(env, SubCategoryBucketVar), id)
  {
    calls, toast := HandleDelete(env, respond, IdText(Get(row, "$id")), IdText(Get(row, "image")));
  }

  /** With the intended reading, deleting a stored sub-category with an image deletes that image. */
  lemma IntendedDeletesStoredImage(env: Env, name: string, parentCategoryId: string, description: string,
                                   imageId: string, createdAt: string, system: Doc)
    requires imageId != "" && "image" !in system
    ensures var row := Spread(CategoryService.SubCategoryDocument(
              SubCategoryAddPage.SubCategoryPayload(env, name, parentCategoryId, description, Some(imageId), createdAt)), system);
      IdText(Get(row, "image")) == imageId
  {
    SubCategoryAddPage.PayloadStoredWhole(env, name, parentCategoryId, description, Some(imageId), createdAt);
  }
}
