/**
 * The add-sub-category screen: the image selection check, the submit
 * validation, the optional image upload and the sub-category payload, and
 * the form state the handlers update.
 */
module SubCategoryAddPage {
  import opened Json
  import opened Text
  import opened Remote
  import opened Uploads
  import CategoryService

  const NameRequired := "Sub-category name is required"
  const DefaultError := "Failed to create sub-category"
  const ListRoute := "/admin/categories/sub"

  /**
   * `subCategoryData` over the already trimmed text fields: the uploaded
   * image id (or null) and its view URL (or '' when there is no truthy id).
   */
  function SubCategoryPayload(env: Env, name: string, parentCategoryId: string, description: string,
                              imageId: Option<string>, createdAt: string): Doc {
    map["name" := Str(name), "parentCategoryId" := Str(parentCategoryId), "description" := Str(description),
        "image" := if imageId.Some? then Str(imageId.value) else Null,
        "imageUrl" := Str(if imageId.Some? && imageId.value != ""
                          then CategoryService.GetSubCategoryImageUrl(env, imageId.value) else ""),
        "createdAt" := Str(createdAt)]
  }

  /**
   * The service's projection keeps the whole payload: the screen builds
   * exactly the six fields `createSubCategory` forwards. Without an image
   * the stored image is null and its URL empty; with one, the URL is the
   * sub-category bucket's view URL of that id.
   */
  lemma PayloadStoredWhole(env: Env, name: string, parentCategoryId: string, description: string,
                           imageId: Option<string>, createdAt: string)
    ensures var p := SubCategoryPayload(env, name, parentCategoryId, description, imageId, createdAt);
      && CategoryService.SubCategoryDocument(p) == p
      && (imageId.None? ==> p["image"] == Null && p["imageUrl"] == Str(""))
      && (imageId.Some? && imageId.value != "" ==>
            p["image"] == Str(imageId.value)
            && p["imageUrl"] == Str(CategoryService.GetSubCategoryImageUrl(env, imageId.value)))
  {
    var p := SubCategoryPayload(env, name, parentCategoryId, description, imageId, createdAt);
    assert p.Keys == CategoryService.SubCategoryFields;
  }

  /** The create of `handleSubmit`: the payload over the trimmed fields, stored whole. */
  method CreatePayload(env: Env, respond: Call -> Response, name: string, parentCategoryId: string,
                       description: string, imageId: Option<string>, isoNow: string, documentId: string)
    returns (calls: seq<Call>, r: Result<Doc>)
    ensures calls == [CreateDocument(EnvValue(env, DatabaseVar), EnvValue(env, SubCategoryCollectionVar), documentId,
                                     SubCategoryPayload(env, name, parentCategoryId, description, imageId, isoNow))]
    ensures r.Success? <==> respond(calls[0]).Done?
    ensures r.Failure? ==> r.message == CategoryService.CreateSubCategoryPrefix + respond(calls[0]).message
  {
    var payload := SubCategoryPayload(env, name, parentCategoryId, description, imageId, isoNow);
    PayloadStoredWhole(env, name, parentCategoryId, description, imageId, isoNow);
    calls, r := CategoryService.CreateSubCategory(env, respond, payload, documentId);
  }

  /**
   * The part of `handleSubmit` for a selected image: the upload, then the
   * create with the uploaded id; a failed upload stops before the create.
   */
  method UploadAndCreate(env: Env, respond: Call -> Response, name: string, parentCategoryId: string,
                         description: string, imageFile: FileInfo, serviceMs: nat, isoNow: string,
                         fileId: string, documentId: string)
    returns (calls: seq<Call>, r: Result<Doc>)
    ensures var upload := CreateFile(EnvValue(env, SubCategoryBucketVar), fileId,
                                     CategoryService.TimestampName(serviceMs, imageFile.name));
      && 1 <= |calls| <= 2 && calls[0] == upload
      && (respond(upload).Rejected? ==>
            |calls| == 1 && r == Failure(CategoryService.UploadSubCategoryImagePrefix + respond(upload).message))
      && (respond(upload).Done? ==>
            |calls| == 2
            && calls[1] == CreateDocument(EnvValue(env, DatabaseVar), EnvValue(env, SubCategoryCollectionVar),
                 documentId, SubCategoryPayload(env, name, parentCategoryId, description, Some(fileId), isoNow)))
    ensures r.Success? <==> |calls| == 2 && respond(calls[1]).Done?
    ensures r.Failure? && |calls| == 2 ==>
      r.message == CategoryService.CreateSubCategoryPrefix + respond(calls[1]).message
  {
    var uploaded, id := CategoryService.UploadSubCategoryImage(env, respond, imageFile, serviceMs, fileId);
    if id.Failure? {
      calls, r := uploaded, Failure(id.message);
      return;
    }
    var created;
    created, r := CreatePayload(env, respond, name, parentCategoryId, description, Some(id.value), isoNow, documentId);
    calls := uploaded + created;
  }

  /**
   * The body of `handleSubmit` between `setError('')` and `finally`: the
   * name check, the upload only when an image is selected, then the create.
   * An empty parent category is not rejected.
   */
  method SubmitSubCategory(env: Env, respond: Call -> Response, name: string, parentCategoryId: string,
                           description: string, imageFile: Option<FileInfo>, serviceMs: nat,
                           isoNow: string, fileId: string, documentId: string)
    returns (calls: seq<Call>, r: Result<Doc>)
    ensures Trim(name) == [] ==> calls == [] && r == Failure(NameRequired)
    ensures Trim(name) != [] && imageFile.None? ==>
      calls == [CreateDocument(EnvValue(env, DatabaseVar), EnvValue(env, SubCategoryCollectionVar), documentId,
                               SubCategoryPayload(env, Trim(name), Trim(parentCategoryId), Trim(description), None, isoNow))]
    ensures Trim(name) != [] && imageFile.Some? ==>
      var upload := CreateFile(EnvValue(env, SubCategoryBucketVar), fileId,
                               CategoryService.TimestampName(serviceMs, imageFile.value.name));
      && 1 <= |calls| <= 2 && calls[0] == upload
      && (respond(upload).Rejected? ==>
            |calls| == 1 && r == Failure(CategoryService.UploadSubCategoryImagePrefix + respond(upload).message))
      && (respond(upload).Done? ==>
            |calls| == 2
            && calls[1] == CreateDocument(EnvValue(env, DatabaseVar), EnvValue(env, SubCategoryCollectionVar),
                 documentId, SubCategoryPayload(env, Trim(name), Trim(parentCategoryId), Trim(description), Some(fileId), isoNow)))
    ensures r.Success? <==> calls != [] && calls[|calls| - 1].CreateDocument? && respond(calls[|calls| - 1]).Done?
    ensures r.Failure? && calls != [] && calls[|calls| - 1].CreateDocument? ==>
      r.message == CategoryService.CreateSubCategoryPrefix + respond(calls[|calls| - 1]).message
    ensures r.Failure? ==> r.message != ""
  {
    if Trim(name) == [] {
      calls, r := [], Failure(NameRequired);
      return;
    }
    var trimmedName, trimmedParent, trimmedDescription := Trim(name), Trim(parentCategoryId), Trim(description);
    if imageFile.None? {
      calls, r := CreatePayload(env, respond, trimmedName, trimmedParent, trimmedDescription, None, isoNow, documentId);
      return;
    }
    calls, r := UploadAndCreate(env, respond, trimmedName, trimmedParent, trimmedDescription, imageFile.value,
                                serviceMs, isoNow, fileId, documentId);
  }

  /** The create request for the sub-category payload built from these (already trimmed) fields. */
  function CreateRequest(env: Env, name: string, parentCategoryId: string, description: string,
                         imageId: Option<string>, createdAt: string, documentId: string): Call {
    CreateDocument(EnvValue(env, DatabaseVar), EnvValue(env, SubCategoryCollectionVar), documentId,
                   SubCategoryPayload(env, name, parentCategoryId, description, imageId, createdAt))
  }

  /**
   * What one `handleSubmit` does: the requests it sends and the error it
   * leaves shown. A blank name sends nothing; without an image the trimmed
   * payload is created at once; with one the renamed image is uploaded, and
   * only an answered upload is followed by the create with its id. A
   * rejected request shows its prefixed message (never empty, so the
   * default text is not reached); a created sub-category clears the error.
   */
  function SubmitEffect(env: Env, respond: Call -> Response, name: string, parentCategoryId: string,
                        description: string, imageFile: Option<FileInfo>, serviceMs: nat, isoNow: string,
                        fileId: string, documentId: string): (seq<Call>, string)
  {
    var create := CreateRequest(env, Trim(name), Trim(parentCategoryId), Trim(description),
                                if imageFile.None? then None else Some(fileId), isoNow, documentId);
    var shown := if respond(create).Done? then "" else CategoryService.CreateSubCategoryPrefix + respond(create).message;
    if Trim(name) == [] then ([], NameRequired)
    else if imageFile.None? then ([create], shown)
    else
      var upload := CreateFile(EnvValue(env, SubCategoryBucketVar), fileId,
                               CategoryService.TimestampName(serviceMs, imageFile.value.name));
      if respond(upload).Rejected? then
        ([upload], CategoryService.UploadSubCategoryImagePrefix + respond(upload).message)
      else
        ([upload, create], shown)
  }

  /**
   * The `catch` of `handleSubmit`: `''` when the sub-category was created,
   * otherwise the thrown message (or the default text, were it empty).
   */
  method SubmitSubCategoryError(env: Env, respond: Call -> Response, name: string, parentCategoryId: string,
                                description: string, imageFile: Option<FileInfo>, serviceMs: nat,
                                isoNow: string, fileId: string, documentId: string)
    returns (calls: seq<Call>, error: string)
    ensures Trim(name) == [] ==> calls == [] && error == NameRequired
    ensures error == "" <==> calls != [] && calls[|calls| - 1].CreateDocument? && respond(calls[|calls| - 1]).Done?
    ensures (calls, error) == SubmitEffect(env, respond, name, parentCategoryId, description, imageFile, serviceMs,
                                           isoNow, fileId, documentId)
  {
    var outcome;
    calls, outcome := SubmitSubCategory(env, respond, name, parentCategoryId, description, imageFile,
                                        serviceMs, isoNow, fileId, documentId);
    error := if outcome.Success? then "" else if outcome.message == "" then DefaultError else outcome.message;
    if |calls| == 2 {
      assert calls == [calls[0], calls[1]];
    } else if |calls| == 1 {
      assert calls == [calls[0]];
    }
  }

  /**
   * The state `handleSubmit` leaves behind, from the request log and the
   * route before it: the requests made are appended, the error is the
   * caught message, and only a success navigates to the list.
   */
  method SubmitOutcome(env: Env, respond: Call -> Response, name: string, parentCategoryId: string,
                       description: string, imageFile: Option<FileInfo>, serviceMs: nat, isoNow: string,
                       fileId: string, documentId: string, log: seq<Call>, route: Option<string>)
    returns (sent: seq<Call>, log': seq<Call>, error: string, route': Option<string>)
    ensures |log'| >= |log| && log'[..|log|] == log
    ensures Trim(name) == [] ==> error == NameRequired && log' == log && route' == route
    ensures error == "" <==> |log'| > |log| && log'[|log'| - 1].CreateDocument? && respond(log'[|log'| - 1]).Done?
    ensures log' == log + sent
    ensures (sent, error) == SubmitEffect(env, respond, name, parentCategoryId, description, imageFile, serviceMs,
                                          isoNow, fileId, documentId)
    ensures error == "" ==> route' == Some(ListRoute)
    ensures error != "" ==> route' == route
  {
    sent, error := SubmitSubCategoryError(env, respond, name, parentCategoryId, description, imageFile,
                                           serviceMs, isoNow, fileId, documentId);
    AppendedTrace(log, sent);
    log' := log + sent;
    route' := if error == "" then Some(ListRoute) else route;
  }

  // ---------------------------------------------------------------------------
  // The screen's state

  class SubCategoryAddForm {
    var name: string
    var parentCategoryId: string
    var description: string
    var imageFile: Option<FileInfo>
    var imagePreview: Option<string>
    var error: string
    var saving: bool
    /** Where the router was sent, if anywhere. */
    var redirect: Option<string>
    /** Every backend request the screen has made, in order. */
    var requests: seq<Call>

    constructor ()
      ensures name == "" && parentCategoryId == "" && description == ""
      ensures imageFile.None? && imagePreview.None?
      ensures error == "" && !saving && redirect.None? && requests == []
    {
      name, parentCategoryId, description := "", "", "";
      imageFile, imagePreview := None, None;
      error, saving, redirect, requests := "", false, None, [];
    }

    /**
     * `handleImageSelect`: no file does nothing; a rejected file only sets
     * the error; an accepted file becomes the image, its preview URL the
     * preview, and the error is cleared.
     */
    method HandleImageSelect(file: Option<FileInfo>, previewUrl: string)
      modifies this`imageFile, this`imagePreview, this`error
      ensures file.None? ==> (error == old(error) && imageFile == old(imageFile) && imagePreview == old(imagePreview))
      ensures file.Some? && ImageError(file.value).Some? ==>
        (error == ImageError(file.value).value && imageFile == old(imageFile) && imagePreview == old(imagePreview))
      ensures file.Some? && ImageError(file.value).None? ==>
        (error == "" && imageFile == file && imagePreview == Some(previewUrl))
    {
      if file.None? {
        return;
      }
      var problem := ImageError(file.value);
      if problem.Some? {
        error := problem.value;
        return;
      }
      imageFile, imagePreview, error := file, Some(previewUrl), "";
    }

    /**
     * `handleSubmit`: the requests made are appended, a failure's message
     * becomes the error, and a success clears it and navigates to the
     * sub-category list.
     */
    method HandleSubmit(env: Env, respond: Call -> Response, serviceMs: nat, isoNow: string,
                        fileId: string, documentId: string)
      returns (sent: seq<Call>)
      modifies this`requests, this`error, this`redirect, this`saving
      ensures !saving
      ensures |requests| >= |old(requests)| && requests[..|old(requests)|] == old(requests)
      ensures Trim(old(name)) == [] ==> error == NameRequired && requests == old(requests) && redirect == old(redirect)
      ensures error == "" <==>
        |requests| > |old(requests)| && requests[|requests| - 1].CreateDocument? && respond(requests[|requests| - 1]).Done?
      ensures requests == old(requests) + sent
      ensures (sent, error) == SubmitEffect(env, respond, old(name), old(parentCategoryId), old(description),
                                            old(imageFile), serviceMs, isoNow, fileId, documentId)
      ensures error == "" ==> redirect == Some(ListRoute)
      ensures error != "" ==> redirect == old(redirect)
    {
      // `saving` is true only while the request is in flight.
      var log, message, route;
      sent, log, message, route := SubmitOutcome(env, respond, name, parentCategoryId, description, imageFile,
                                               serviceMs, isoNow, fileId, documentId, requests, redirect);
      ghost var blank := Trim(name) == [];
      assert blank ==> message == NameRequired && log == requests && route == redirect;
      requests, error, redirect, saving := log, message, route, false;
    }
  }
}
