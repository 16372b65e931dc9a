/**
 * The category service: icon and sub-category image uploads under a
 * timestamp name, view URLs, the icon-replacing update, the create payloads
 * and the delete requests, each failure rethrown with the operation's prefix.
 */
module CategoryService {
  import opened Json
  import opened Remote
  import opened Text
  import opened Uploads

  const UploadIconPrefix := "Failed to upload icon: "
  const UpdateCategoryPrefix := "Failed to update category: "
  const CreateCategoryPrefix := "Failed to create category: "
  const DeleteCategoryPrefix := "Failed to delete category: "
  const DeleteIconPrefix := "Failed to delete icon: "
  const UploadSubCategoryImagePrefix := "Failed to upload sub-category image: "
  const CreateSubCategoryPrefix := "Failed to create sub-category: "
  const DeleteSubCategoryPrefix := "Failed to delete sub-category: "
  const DeleteSubCategoryImagePrefix := "Failed to delete sub-category image: "
  const GetAllCategoriesPrefix := "Failed to fetch categories: "
  const GetAllSubCategoriesPrefix := "Failed to fetch sub-categories: "

  /** `[Query.orderDesc('createdAt')]`: both category lists ask for the newest documents first. */
  const NewestFirst: seq<Query> := [OrderDesc("createdAt")]

  const CategoryFields: set<string> := {"name", "icon", "iconUrl", "isActive", "createdAt"}
  const SubCategoryFields: set<string> :=
    {"name", "parentCategoryId", "description", "image", "imageUrl", "createdAt"}

  // ---------------------------------------------------------------------------
  // Upload names

  /** `${Math.floor(Date.now() / 1000)}.${file.name.split('.').pop()}`. */
  function TimestampName(nowMs: nat, originalName: string): string {
    DecimalText(nowMs / 1000) + "." + Extension(originalName)
  }

  /**
   * The upload name keeps the original extension and starts with the
   * seconds timestamp, which reads back from its leading digits and is
   * followed directly by the '.'.
   */
  lemma TimestampNameParts(nowMs: nat, originalName: string)
    ensures Extension(TimestampName(nowMs, originalName)) == Extension(originalName)
    ensures LeadingDigits(TimestampName(nowMs, originalName)) == DecimalText(nowMs / 1000)
    ensures DecimalValue(LeadingDigits(TimestampName(nowMs, originalName))) == nowMs / 1000
    ensures TimestampName(nowMs, originalName)[|DecimalText(nowMs / 1000)|] == '.'
  {
    var seconds := nowMs / 1000;
    DigitsDotExtension(DecimalText(seconds), Extension(originalName));
    DecimalRoundTrip(seconds);
  }

  /** Only the extension of the caller's file name survives the rename. */
  lemma TimestampNameIgnoresBase(nowMs: nat, name1: string, name2: string)
    requires Extension(name1) == Extension(name2)
    ensures TimestampName(nowMs, name1) == TimestampName(nowMs, name2)
  {
  }

  // ---------------------------------------------------------------------------
  // View URLs

  /** `getIconUrl(fileId)`: the view URL of `fileId` in the category bucket. */
  function GetIconUrl(env: Env, fileId: string): string {
    BucketFileUrl(env, CategoryBucketVar, fileId)
  }

  /** `getSubCategoryImageUrl(fileId)`: the view URL of `fileId` in the sub-category bucket. */
  function GetSubCategoryImageUrl(env: Env, fileId: string): string {
    BucketFileUrl(env, SubCategoryBucketVar, fileId)
  }

  /** The icon URL has the fixed shape around the id and determines the id. */
  lemma GetIconUrlShape(env: Env, fileId: string, other: string)
    ensures GetIconUrl(env, fileId) ==
      EnvValue(env, EndpointVar) + "/storage/buckets/" + EnvValue(env, CategoryBucketVar)
      + "/files/" + fileId + "/view?project=" + EnvValue(env, ProjectVar)
    ensures GetIconUrl(env, fileId) == GetIconUrl(env, other) <==> fileId == other
  {
    FileViewUrlInjective(EnvValue(env, EndpointVar), EnvValue(env, CategoryBucketVar),
      fileId, other, EnvValue(env, ProjectVar));
  }

  /** The sub-category image URL has the same shape over the sub-category bucket. */
  lemma GetSubCategoryImageUrlShape(env: Env, fileId: string, other: string)
    ensures GetSubCategoryImageUrl(env, fileId) ==
      EnvValue(env, EndpointVar) + "/storage/buckets/" + EnvValue(env, SubCategoryBucketVar)
      + "/files/" + fileId + "/view?project=" + EnvValue(env, ProjectVar)
    ensures GetSubCategoryImageUrl(env, fileId) == GetSubCategoryImageUrl(env, other) <==> fileId == other
    ensures GetSubCategoryImageUrl(env, fileId) == GetIconUrl(env, fileId)
      <==> EnvValue(env, SubCategoryBucketVar) == EnvValue(env, CategoryBucketVar)
  {
    FileViewUrlInjective(EnvValue(env, EndpointVar), EnvValue(env, SubCategoryBucketVar),
      fileId, other, EnvValue(env, ProjectVar));
    FileViewUrlBucket(EnvValue(env, EndpointVar), EnvValue(env, SubCategoryBucketVar),
      EnvValue(env, CategoryBucketVar), fileId, EnvValue(env, ProjectVar));
  }

  // ---------------------------------------------------------------------------
  // Icons

  /**
   * `uploadIcon(file, oldIconId)`: rename the file to `<seconds>.<ext>`,
   * delete the old icon when an id is given (ignoring a failure), then
   * create the file in the category bucket under `fileId`.
   */
  method UploadIcon(env: Env, respond: Call -> Response, file: FileInfo, oldIconId: string,
                    nowMs: nat, fileId: string)
    returns (calls: seq<Call>, r: Result<string>)
    ensures |calls| == (if oldIconId != "" then 2 else 1)
    ensures oldIconId != "" ==> calls[0] == DeleteFile(EnvValue(env, CategoryBucketVar), oldIconId)
    ensures calls[|calls| - 1] == CreateFile(EnvValue(env, CategoryBucketVar), fileId, TimestampName(nowMs, file.name))
    ensures respond(calls[|calls| - 1]).Done? ==> r == Success(fileId)
    ensures respond(calls[|calls| - 1]).Rejected? ==>
      r == Failure(UploadIconPrefix + respond(calls[|calls| - 1]).message)
  {
    var bucket := EnvValue(env, CategoryBucketVar);
    var newFile := Renamed(file, TimestampName(nowMs, file.name));
    var create := CreateFile(bucket, fileId, newFile.name);
    var deletion: seq<Call> := [];
    if oldIconId != "" {
      // A failed deletion is only logged; the upload goes ahead.
      var ignored;
      deletion, ignored := DeleteIcon(env, respond, oldIconId);
    }
    var created, outcome := Invoke(respond, create, UploadIconPrefix);
    calls := deletion + created;
    match outcome
    case Success(_) => r := Success(fileId);
    case Failure(m) => r := Failure(m);
  }

  /** `deleteIcon(iconId)`: delete the file from the category bucket. */
  method DeleteIcon(env: Env, respond: Call -> Response, iconId: string)
    returns (calls: seq<Call>, r: Result<Doc>)
    ensures calls == [DeleteFile(EnvValue(env, CategoryBucketVar), iconId)]
    ensures r.Failure? <==> respond(calls[0]).Rejected?
    ensures r.Failure? ==> r.message == DeleteIconPrefix + respond(calls[0]).message
  {
    calls, r := Invoke(respond, DeleteFile(EnvValue(env, CategoryBucketVar), iconId), DeleteIconPrefix);
  }

  /**
   * The payload `updateCategoryWithIcon` sends after uploading a new icon:
   * the caller's fields with `icon` and `iconUrl` replaced.
   */
  function WithNewIcon(env: Env, data: Doc, newIconId: string): (r: Doc)
    ensures r.Keys == data.Keys + {"icon", "iconUrl"}
    ensures r["icon"] == Str(newIconId) && r["iconUrl"] == Str(GetIconUrl(env, newIconId))
    ensures forall k :: k in data && k != "icon" && k != "iconUrl" ==> r[k] == data[k]
  {
    Spread(data, map["icon" := Str(newIconId), "iconUrl" := Str(GetIconUrl(env, newIconId))])
  }

  /**
   * `updateCategoryWithIcon(categoryId, data, newIconFile, oldIconId)`: with
   * a new icon, upload it first (deleting the old one) and merge its id and
   * URL into the payload; then update the document and return the updated
   * document. Any failure, including the upload's, is rethrown with the
   * update prefix.
   */
  method UpdateCategoryWithIcon(env: Env, respond: Call -> Response, categoryId: string, data: Doc,
                                newIconFile: Option<FileInfo>, oldIconId: string, nowMs: nat, fileId: string)
    returns (calls: seq<Call>, r: Result<Doc>)
    ensures newIconFile.None? ==>
      calls == [UpdateDocument(EnvValue(env, DatabaseVar), EnvValue(env, CategoryCollectionVar), categoryId, data)]
    ensures newIconFile.Some? ==>
      var create := CreateFile(EnvValue(env, CategoryBucketVar), fileId, TimestampName(nowMs, newIconFile.value.name));
      var k := if oldIconId != "" then 1 else 0;
      && |calls| > k && calls[k] == create
      && (oldIconId != "" ==> calls[0] == DeleteFile(EnvValue(env, CategoryBucketVar), oldIconId))
      && (respond(create).Rejected? ==>
            |calls| == k + 1 && r == Failure(UpdateCategoryPrefix + (UploadIconPrefix + respond(create).message)))
      && (respond(create).Done? ==>
            |calls| == k + 2
            && calls[k + 1] == UpdateDocument(EnvValue(env, DatabaseVar), EnvValue(env, CategoryCollectionVar),
                                              categoryId, WithNewIcon(env, data, fileId)))
    ensures r.Success? <==> calls[|calls| - 1].UpdateDocument? && respond(calls[|calls| - 1]).Done?
    ensures r.Success? ==> r.value == respond(calls[|calls| - 1]).doc
    ensures r.Failure? && calls[|calls| - 1].UpdateDocument? ==>
      r.message == UpdateCategoryPrefix + respond(calls[|calls| - 1]).message
  {
    var payload := data;
    calls := [];
    if newIconFile.Some? {
      var uploaded, newIconId := UploadIcon(env, respond, newIconFile.value, oldIconId, nowMs, fileId);
      calls := uploaded;
      if newIconId.Failure? {
        r := Failure(UpdateCategoryPrefix + newIconId.message);
        return;
      }
      payload := WithNewIcon(env, data, newIconId.value);
    }
    var updated, outcome := Invoke(respond,
      UpdateDocument(EnvValue(env, DatabaseVar), EnvValue(env, CategoryCollectionVar), categoryId, payload),
      UpdateCategoryPrefix);
    calls := calls + updated;
    r := outcome;
  }

  // ---------------------------------------------------------------------------
  // Categories

  /** The document `createCategory(data)` writes: five fields copied from `data`. */
  function CategoryDocument(data: Doc): (r: Doc)
    ensures r.Keys == CategoryFields
    ensures forall k :: k in r ==> r[k] == Get(data, k)
  {
    map["name" := Get(data, "name"), "icon" := Get(data, "icon"), "iconUrl" := Get(data, "iconUrl"),
        "isActive" := Get(data, "isActive"), "createdAt" := Get(data, "createdAt")]
  }

  /** `createCategory(data)`: create the projected document under a fresh id and return the stored document. */
  method CreateCategory(env: Env, respond: Call -> Response, data: Doc, documentId: string)
    returns (calls: seq<Call>, r: Result<Doc>)
    ensures calls == [CreateDocument(EnvValue(env, DatabaseVar), EnvValue(env, CategoryCollectionVar),
                                     documentId, CategoryDocument(data))]
    ensures respond(calls[0]).Done? ==> r == Success(respond(calls[0]).doc)
    ensures respond(calls[0]).Rejected? ==> r == Failure(CreateCategoryPrefix + respond(calls[0]).message)
  {
    calls, r := Invoke(respond,
      CreateDocument(EnvValue(env, DatabaseVar), EnvValue(env, CategoryCollectionVar), documentId, CategoryDocument(data)),
      CreateCategoryPrefix);
  }

  /** `deleteCategory(categoryId)`: delete the category document. */
  method DeleteCategory(env: Env, respond: Call -> Response, categoryId: string)
    returns (calls: seq<Call>, r: Result<Doc>)
    ensures calls == [DeleteDocument(EnvValue(env, DatabaseVar), EnvValue(env, CategoryCollectionVar), categoryId)]
    ensures r.Failure? <==> respond(calls[0]).Rejected?
    ensures r.Failure? ==> r.message == DeleteCategoryPrefix + respond(calls[0]).message
  {
    calls, r := Invoke(respond,
      DeleteDocument(EnvValue(env, DatabaseVar), EnvValue(env, CategoryCollectionVar), categoryId),
      DeleteCategoryPrefix);
  }

  // ---------------------------------------------------------------------------
  // Sub-categories

  /** `uploadSubCategoryImage(file)`: the timestamp rename, then one upload to the sub-category bucket. */
  method UploadSubCategoryImage(env: Env, respond: Call -> Response, file: FileInfo, nowMs: nat, fileId: string)
    returns (calls: seq<Call>, r: Result<string>)
    ensures calls == [CreateFile(EnvValue(env, SubCategoryBucketVar), fileId, TimestampName(nowMs, file.name))]
    ensures respond(calls[0]).Done? ==> r == Success(fileId)
    ensures respond(calls[0]).Rejected? ==> r == Failure(UploadSubCategoryImagePrefix + respond(calls[0]).message)
  {
    var newFile := Renamed(file, TimestampName(nowMs, file.name));
    var outcome;
    calls, outcome := Invoke(respond, CreateFile(EnvValue(env, SubCategoryBucketVar), fileId, newFile.name),
                             UploadSubCategoryImagePrefix);
    match outcome
    case Success(_) => r := Success(fileId);
    case Failure(m) => r := Failure(m);
  }

  /** The document `createSubCategory(data)` writes: six fields copied from `data`. */
  function SubCategoryDocument(data: Doc): (r: Doc)
    ensures r.Keys == SubCategoryFields
    ensures forall k :: k in r ==> r[k] == Get(data, k)
  {
    map["name" := Get(data, "name"), "parentCategoryId" := Get(data, "parentCategoryId"),
        "description" := Get(data, "description"), "image" := Get(data, "image"),
        "imageUrl" := Get(data, "imageUrl"), "createdAt" := Get(data, "createdAt")]
  }

  /** `createSubCategory(data)`: create the projected document under a fresh id and return the stored document. */
  method CreateSubCategory(env: Env, respond: Call -> Response, data: Doc, documentId: string)
    returns (calls: seq<Call>, r: Result<Doc>)
    ensures calls == [CreateDocument(EnvValue(env, DatabaseVar), EnvValue(env, SubCategoryCollectionVar),
                                     documentId, SubCategoryDocument(data))]
    ensures respond(calls[0]).Done? ==> r == Success(respond(calls[0]).doc)
    ensures respond(calls[0]).Rejected? ==> r == Failure(CreateSubCategoryPrefix + respond(calls[0]).message)
  {
    calls, r := Invoke(respond,
      CreateDocument(EnvValue(env, DatabaseVar), EnvValue(env, SubCategoryCollectionVar), documentId, SubCategoryDocument(data)),
      CreateSubCategoryPrefix);
  }

  /** `deleteSubCategory(subCategoryId)`: delete the sub-category document. */
  method DeleteSubCategory(env: Env, respond: Call -> Response, subCategoryId: string)
    returns (calls: seq<Call>, r: Result<Doc>)
    ensures calls == [DeleteDocument(EnvValue(env, DatabaseVar), EnvValue(env, SubCategoryCollectionVar), subCategoryId)]
    ensures r.Failure? <==> respond(calls[0]).Rejected?
    ensures r.Failure? ==> r.message == DeleteSubCategoryPrefix + respond(calls[0]).message
  {
    calls, r := Invoke(respond,
      DeleteDocument(EnvValue(env, DatabaseVar), EnvValue(env, SubCategoryCollectionVar), subCategoryId),
      DeleteSubCategoryPrefix);
  }

  /** `deleteSubCategoryImage(imageId)`: delete the file from the sub-category bucket. */
  method DeleteSubCategoryImage(env: Env, respond: Call -> Response, imageId: string)
    returns (calls: seq<Call>, r: Result<Doc>)
    ensures calls == [DeleteFile(EnvValue(env, SubCategoryBucketVar), imageId)]
    ensures r.Failure? <==> respond(calls[0]).Rejected?
    ensures r.Failure? ==> r.message == DeleteSubCategoryImagePrefix + respond(calls[0]).message
  {
    calls, r := Invoke(respond, DeleteFile(EnvValue(env, SubCategoryBucketVar), imageId), DeleteSubCategoryImagePrefix);
  }

  /** `getAllCategories()`: the category documents, newest first by `createdAt`. */
  method GetAllCategories(env: Env, respond: Call -> Response)
    returns (calls: seq<Call>, r: Result<Value>)
    ensures calls == [ListDocuments(EnvValue(env, DatabaseVar), EnvValue(env, CategoryCollectionVar), NewestFirst)]
    ensures respond(calls[0]).Done? ==> r == Success(Get(respond(calls[0]).doc, "documents"))
    ensures respond(calls[0]).Rejected? ==> r == Failure(GetAllCategoriesPrefix + respond(calls[0]).message)
  {
    var outcome;
    calls, outcome := Invoke(respond,
      ListDocuments(EnvValue(env, DatabaseVar), EnvValue(env, CategoryCollectionVar), NewestFirst),
      GetAllCategoriesPrefix);
    match outcome
    case Success(response) => r := Success(Get(response, "documents"));
    case Failure(m) => r := Failure(m);
  }

  /** `getAllSubCategories()`: the sub-category documents, newest first by `createdAt`. */
  method GetAllSubCategories(env: Env, respond: Call -> Response)
    returns (calls: seq<Call>, r: Result<Value>)
    ensures calls == [ListDocuments(EnvValue(env, DatabaseVar), EnvValue(env, SubCategoryCollectionVar), NewestFirst)]
    ensures respond(calls[0]).Done? ==> r == Success(Get(respond(calls[0]).doc, "documents"))
    ensures respond(calls[0]).Rejected? ==> r == Failure(GetAllSubCategoriesPrefix + respond(calls[0]).message)
  {
    var outcome;
    calls, outcome := Invoke(respond,
      ListDocuments(EnvValue(env, DatabaseVar), EnvValue(env, SubCategoryCollectionVar), NewestFirst),
      GetAllSubCategoriesPrefix);
    match outcome
    case Success(response) => r := Success(Get(response, "documents"));
    case Failure(m) => r := Failure(m);
  }
}
