/**
 * The add-product screen: the form fields, the selected files and their
 * previews kept side by side, the uploaded image ids, the variation list,
 * the submit validation, the image uploads and the product payload.
 */
module ProductAddPage {
  import opened Json
  import opened Remote
  import opened Seqs
  import opened Uploads
  import ProductService

  const RequiredFieldsMessage := "Please fill all required fields"
  const FssaiRequiredMessage := "FSSAI License is required for food items"
  const DefaultError := "Failed to create product"
  const ListRoute := "/admin/products"
  const FoodType := "food"

  /** The keys of `formData`; every field editor writes one of these. */
  const FormFields: set<string> := {
    "name", "description", "mrpPrice", "purchasePrice", "sellingPrice", "discount", "weight", "weightUnit",
    "categoryId", "brandId", "productType", "isFoodItem", "fssaiLicense", "foodType", "nutritionalInfo",
    "ingredients", "preparationTime", "servingSize", "dietaryInfo", "countryOfOrigin", "manufacturerInfo",
    "importerInfo", "packagingType", "shelfLife", "expiryDate", "isLive", "stock", "minOrderQuantity",
    "maxOrderQuantity", "barcode", "hsnCode", "tags", "features", "storageInstructions", "allergyInfo"}

  /** The initial `formData`: empty texts, except the defaults for unit, origin, liveness and minimum order. */
  function InitialForm(): (form: Doc)
    ensures form.Keys == FormFields
    ensures form["weightUnit"] == Str("g") && form["countryOfOrigin"] == Str("India")
    ensures form["isLive"] == Bool(true) && form["isFoodItem"] == Bool(false)
    ensures form["minOrderQuantity"] == Str("1")
  {
    map k | k in FormFields :: InitialValue(k)
  }

  /** The initial value of one form field. */
  function InitialValue(field: string): Value {
    match field
    case "weightUnit" => Str("g")
    case "countryOfOrigin" => Str("India")
    case "isLive" => Bool(true)
    case "isFoodItem" => Bool(false)
    case "minOrderQuantity" => Str("1")
    case _ => Str("")
  }

  /** The add form never holds `price` or `image`, the fields `createProduct` reads. */
  lemma FormLacksPriceAndImage()
    ensures "price" !in FormFields && "image" !in FormFields
  {
  }

  /** The form holds exactly the fields of `formData`. */
  predicate HasFormFields(form: Doc) {
    form.Keys == FormFields
  }

  /** A selected file with the object URL of its preview. */
  datatype Preview = Preview(file: FileInfo, preview: string)

  /** Each preview sits at the index of the file it shows. */
  predicate Aligned(previews: seq<Preview>, files: seq<FileInfo>) {
    |previews| == |files| && forall i :: 0 <= i < |previews| ==> previews[i].file == files[i]
  }

  /** The variation `handleVariationAdd` appends: name and unit from the form, everything else ''. */
  function NewVariation(form: Doc): (v: Doc)
    ensures v.Keys == {"productId", "productName", "name", "weight", "weightUnit", "mrpPrice", "sellingPrice", "stock"}
    ensures v["name"] == Get(form, "name") && v["weightUnit"] == Get(form, "weightUnit")
    ensures forall k :: k in v && k != "name" && k != "weightUnit" ==> v[k] == Str("")
  {
    map["productId" := Str(""), "productName" := Str(""), "name" := Get(form, "name"), "weight" := Str(""),
        "weightUnit" := Get(form, "weightUnit"), "mrpPrice" := Str(""), "sellingPrice" := Str(""),
        "stock" := Str("")]
  }

  // ---------------------------------------------------------------------------
  // Submit

  /**
   * The checks of `handleSubmit`: a falsy name, category or product type
   * first, then a food item without an FSSAI licence.
   */
  function ValidateProduct(form: Doc): (e: Option<string>)
    ensures e == Some(RequiredFieldsMessage) <==>
      !Truthy(Get(form, "name")) || !Truthy(Get(form, "categoryId")) || !Truthy(Get(form, "productType"))
    ensures e == Some(FssaiRequiredMessage) <==>
      && Truthy(Get(form, "name")) && Truthy(Get(form, "categoryId")) && Truthy(Get(form, "productType"))
      && Truthy(Get(form, "isFoodItem")) && !Truthy(Get(form, "fssaiLicense"))
    ensures e.None? || e == Some(RequiredFieldsMessage) || e == Some(FssaiRequiredMessage)
  {
    if !Truthy(Get(form, "name")) || !Truthy(Get(form, "categoryId")) || !Truthy(Get(form, "productType")) then
      Some(RequiredFieldsMessage)
    else if Truthy(Get(form, "isFoodItem")) && !Truthy(Get(form, "fssaiLicense")) then
      Some(FssaiRequiredMessage)
    else
      None
  }

  /** A name of a single space is not rejected: only the empty text is falsy. */
  lemma WhitespaceNameAccepted(form: Doc)
    requires Truthy(Get(form, "categoryId")) && Truthy(Get(form, "productType"))
    requires !Truthy(Get(form, "isFoodItem"))
    ensures ValidateProduct(form["name" := Str(" ")]).None?
  {
    assert Get(form["name" := Str(" ")], "categoryId") == Get(form, "categoryId");
    assert Get(form["name" := Str(" ")], "productType") == Get(form, "productType");
    assert Get(form["name" := Str(" ")], "isFoodItem") == Get(form, "isFoodItem");
  }

  /** The first failing upload, if any: `Promise.all` taken in selection order. */
  ghost predicate FirstRejection(respond: Call -> Response, calls: seq<Call>, k: int) {
    && 0 <= k < |calls| && respond(calls[k]).Rejected?
    && forall j :: 0 <= j < k ==> respond(calls[j]).Done?
  }

  /** The upload requests `Promise.all` issues, one per selected file, in selection order. */
  function UploadRequests(env: Env, files: seq<FileInfo>, ids: seq<string>): (calls: seq<Call>)
    requires |ids| == |files|
    ensures |calls| == |files|
    ensures forall i :: 0 <= i < |files| ==> calls[i] == CreateFile(EnvValue(env, ProductBucketVar), ids[i], files[i].name)
  {
    seq(|files|, i requires 0 <= i < |files| => CreateFile(EnvValue(env, ProductBucketVar), ids[i], files[i].name))
  }

  /** The message of the first rejected request, in request order, if any was rejected. */
  function FirstRejectionMessage(respond: Call -> Response, calls: seq<Call>): Option<string> {
    if calls == [] then None
    else if respond(calls[0]).Rejected? then Some(respond(calls[0]).message)
    else FirstRejectionMessage(respond, calls[1..])
  }

  /** No message exactly when every request was answered; otherwise it is the first rejection's. */
  lemma {:induction false} FirstRejectionMessageSpec(respond: Call -> Response, calls: seq<Call>)
    ensures FirstRejectionMessage(respond, calls).None? <==> forall i :: 0 <= i < |calls| ==> respond(calls[i]).Done?
    ensures forall k :: FirstRejection(respond, calls, k) ==>
      FirstRejectionMessage(respond, calls) == Some(respond(calls[k]).message)
  {
    if calls != [] && respond(calls[0]).Done? {
      FirstRejectionMessageSpec(respond, calls[1..]);
      forall k | FirstRejection(respond, calls, k)
        ensures FirstRejectionMessage(respond, calls) == Some(respond(calls[k]).message)
      {
        assert k > 0 && FirstRejection(respond, calls[1..], k - 1);
      }
      if forall i :: 0 <= i < |calls[1..]| ==> respond(calls[1..][i]).Done? {
        forall i | 0 <= i < |calls| ensures respond(calls[i]).Done? {
          if i > 0 { assert calls[i] == calls[1..][i - 1]; }
        }
      }
    }
  }

  /**
   * `selectedFiles.map(file => storage.createFile(bucket, ID.unique(), file))`
   * under `Promise.all`: every upload is requested, in selection order; the
   * ids come back in that order when all succeed, and otherwise the first
   * rejection's message is thrown as it is.
   */
  method UploadAll(env: Env, respond: Call -> Response, files: seq<FileInfo>, ids: seq<string>)
    returns (calls: seq<Call>, r: Result<seq<string>>)
    requires |ids| == |files|
    ensures |calls| == |files|
    ensures forall i :: 0 <= i < |files| ==>
      calls[i] == CreateFile(EnvValue(env, ProductBucketVar), ids[i], files[i].name)
    ensures r.Success? <==> forall i :: 0 <= i < |calls| ==> respond(calls[i]).Done?
    ensures r.Success? ==> r.value == ids
    ensures r.Failure? ==> exists k :: FirstRejection(respond, calls, k) && r.message == respond(calls[k]).message
    ensures calls == UploadRequests(env, files, ids)
    ensures r.Success? <==> FirstRejectionMessage(respond, calls).None?
    ensures r.Failure? ==> FirstRejectionMessage(respond, calls) == Some(r.message)
  {
    var bucket := EnvValue(env, ProductBucketVar);
    calls := [];
    r := Success(ids);
    var i := 0;
    while i < |files|
      invariant 0 <= i <= |files| && |calls| == i
      invariant forall j :: 0 <= j < i ==> calls[j] == CreateFile(bucket, ids[j], files[j].name)
      invariant r.Success? <==> forall j :: 0 <= j < i ==> respond(calls[j]).Done?
      invariant r.Success? ==> r.value == ids
      invariant r.Failure? ==> exists k :: FirstRejection(respond, calls, k) && r.message == respond(calls[k]).message
    {
      var c := CreateFile(bucket, ids[i], files[i].name);
      if r.Success? && respond(c).Rejected? {
        r := Failure(respond(c).message);
        assert FirstRejection(respond, calls + [c], i);
      }
      calls := calls + [c];
      i := i + 1;
    }
    FirstRejectionMessageSpec(respond, calls);
  }

  /**
   * `productData`: the form's fields, then the image ids, the variations
   * (none unless the product has them), the status from `isLive` and the
   * creation time.
   */
  function ProductPayload(form: Doc, imageIds: seq<string>, hasVariations: bool, variations: seq<Doc>,
                          createdAt: string): (p: Doc)
    ensures p.Keys == form.Keys + {"images", "variations", "status", "createdAt"}
    ensures p["images"] == Arr(seq(|imageIds|, i requires 0 <= i < |imageIds| => Str(imageIds[i])))
    ensures !hasVariations ==> p["variations"] == Arr([])
    ensures hasVariations ==> p["variations"] == Arr(seq(|variations|, i requires 0 <= i < |variations| => Obj(variations[i])))
    ensures p["status"] == Str("active") <==> Truthy(Get(form, "isLive"))
    ensures p["status"] == Str("active") || p["status"] == Str("inactive")
    ensures p["createdAt"] == Str(createdAt)
    ensures forall k :: k in form && k !in {"images", "variations", "status", "createdAt"} ==> p[k] == form[k]
  {
    Spread(form, map[
      "images" := Arr(seq(|imageIds|, i requires 0 <= i < |imageIds| => Str(imageIds[i]))),
      "variations" := Arr(if hasVariations then seq(|variations|, i requires 0 <= i < |variations| => Obj(variations[i])) else []),
      "status" := Str(if Truthy(Get(form, "isLive")) then "active" else "inactive"),
      "createdAt" := Str(createdAt)])
  }

  /**
   * What the service stores for a payload built from a form without `price`
   * and `image`: the status is 'active' whatever `isLive` says, `price` and
   * `image` are undefined, and the name and category are the form's.
   */
  lemma StoredPayload(form: Doc, imageIds: seq<string>, hasVariations: bool, variations: seq<Doc>,
                      createdAt: string)
    requires "price" !in form && "image" !in form && "name" in form && "categoryId" in form
    ensures var stored := ProductService.ProductDocument(ProductPayload(form, imageIds, hasVariations, variations, createdAt));
      && stored["status"] == Str("active")
      && stored["price"] == Undefined && stored["image"] == Undefined
      && stored["name"] == form["name"] && stored["categoryId"] == form["categoryId"]
  {
    var p := ProductPayload(form, imageIds, hasVariations, variations, createdAt);
    assert "price" !in p && "image" !in p;
    var stored := ProductService.ProductDocument(p);
    assert "price" in stored && "image" in stored && "name" in stored && "categoryId" in stored;
  }

  /**
   * For the add form itself: the stored status is 'active' even for a
   * product that is not live, and `price` and `image` are undefined because
   * the form sends `sellingPrice` and `images` instead.
   */
  lemma StoredProductLosesFields(form: Doc, imageIds: seq<string>, hasVariations: bool, variations: seq<Doc>,
                                 createdAt: string)
    requires form.Keys == FormFields
    ensures var stored := ProductService.ProductDocument(ProductPayload(form, imageIds, hasVariations, variations, createdAt));
      && stored["status"] == Str("active")
      && stored["price"] == Undefined && stored["image"] == Undefined
      && stored["name"] == form["name"] && stored["categoryId"] == form["categoryId"]
  {
    FormLacksPriceAndImage();
    StoredPayload(form, imageIds, hasVariations, variations, createdAt);
  }

  /**
   * The part of `handleSubmit` after the checks: the uploads when files are
   * selected, then the create. The image list is the existing ids followed
   * by the new ones; a failed upload stops before the create.
   */
  method UploadAndCreate(env: Env, respond: Call -> Response, form: Doc, images: seq<string>,
                         selectedFiles: seq<FileInfo>, hasVariations: bool, variations: seq<Doc>,
                         fileIds: seq<string>, isoNow: string, documentId: string)
    returns (calls: seq<Call>, r: Result<Doc>)
    requires |fileIds| == |selectedFiles|
    ensures |calls| >= |selectedFiles|
    ensures forall i :: 0 <= i < |selectedFiles| ==>
      calls[i] == CreateFile(EnvValue(env, ProductBucketVar), fileIds[i], selectedFiles[i].name)
    ensures (forall i :: 0 <= i < |selectedFiles| ==> respond(calls[i]).Done?) ==>
      |calls| == |selectedFiles| + 1
      && calls[|calls| - 1] == CreateDocument(EnvValue(env, DatabaseVar), ProductService.ProductsCollection, documentId,
           ProductService.ProductDocument(ProductPayload(form, images + fileIds, hasVariations, variations, isoNow)))
    ensures !(forall i :: 0 <= i < |selectedFiles| ==> respond(calls[i]).Done?) ==>
      && |calls| == |selectedFiles| && r.Failure?
      && exists k :: FirstRejection(respond, calls, k) && r.message == respond(calls[k]).message
    ensures r.Success? <==> |calls| == |selectedFiles| + 1 && respond(calls[|calls| - 1]).Done?
    ensures r.Failure? && |calls| == |selectedFiles| + 1 ==> r.message == respond(calls[|calls| - 1]).message
    ensures var uploads := UploadRequests(env, selectedFiles, fileIds);
      && (FirstRejectionMessage(respond, uploads).Some? ==>
            calls == uploads && r == Failure(FirstRejectionMessage(respond, uploads).value))
      && (FirstRejectionMessage(respond, uploads).None? ==>
            calls == uploads + [CreateDocument(EnvValue(env, DatabaseVar), ProductService.ProductsCollection, documentId,
             ProductService.ProductDocument(ProductPayload(form, images + fileIds, hasVariations, variations, isoNow)))])
  {
    var uploadedImageIds := images;
    var uploads: seq<Call> := [];
    if |selectedFiles| > 0 {
      var outcome;
      uploads, outcome := UploadAll(env, respond, selectedFiles, fileIds);
      if outcome.Failure? {
        calls, r := uploads, Failure(outcome.message);
        return;
      }
      uploadedImageIds := uploadedImageIds + outcome.value;
    }
    assert uploadedImageIds == images + fileIds;
    var payload := ProductPayload(form, uploadedImageIds, hasVariations, variations, isoNow);
    var created;
    created, r := ProductService.CreateProduct(env, respond, payload, documentId);
    calls := uploads + created;
    assert calls[|calls| - 1] == created[0];
    assert forall i :: 0 <= i < |selectedFiles| ==> calls[i] == uploads[i];
  }

  /**
   * The body of `handleSubmit` between `setError('')` and `finally`: the
   * checks, then the uploads and the create.
   */
  method SubmitProduct(env: Env, respond: Call -> Response, form: Doc, images: seq<string>,
                       selectedFiles: seq<FileInfo>, hasVariations: bool, variations: seq<Doc>,
                       fileIds: seq<string>, isoNow: string, documentId: string)
    returns (calls: seq<Call>, r: Result<Doc>)
    requires |fileIds| == |selectedFiles|
    ensures ValidateProduct(form).Some? ==> calls == [] && r == Failure(ValidateProduct(form).value)
    ensures ValidateProduct(form).None? ==>
      && |calls| >= |selectedFiles|
      && (forall i :: 0 <= i < |selectedFiles| ==>
            calls[i] == CreateFile(EnvValue(env, ProductBucketVar), fileIds[i], selectedFiles[i].name))
      && ((forall i :: 0 <= i < |selectedFiles| ==> respond(calls[i]).Done?) ==>
            |calls| == |selectedFiles| + 1
            && calls[|calls| - 1] == CreateDocument(EnvValue(env, DatabaseVar), ProductService.ProductsCollection, documentId,
                 ProductService.ProductDocument(ProductPayload(form, images + fileIds, hasVariations, variations, isoNow))))
      && (!(forall i :: 0 <= i < |selectedFiles| ==> respond(calls[i]).Done?) ==>
            && |calls| == |selectedFiles| && r.Failure?
            && exists k :: FirstRejection(respond, calls, k) && r.message == respond(calls[k]).message)
    ensures r.Success? <==>
      ValidateProduct(form).None? && |calls| == |selectedFiles| + 1 && respond(calls[|calls| - 1]).Done?
    ensures ValidateProduct(form).None? && r.Failure? && |calls| == |selectedFiles| + 1 ==>
      r.message == respond(calls[|calls| - 1]).message
    ensures ValidateProduct(form).None? ==>
      var uploads := UploadRequests(env, selectedFiles, fileIds);
      && (FirstRejectionMessage(respond, uploads).Some? ==>
            calls == uploads && r == Failure(FirstRejectionMessage(respond, uploads).value))
      && (FirstRejectionMessage(respond, uploads).None? ==>
            calls == uploads + [CreateDocument(EnvValue(env, DatabaseVar), ProductService.ProductsCollection, documentId,
             ProductService.ProductDocument(ProductPayload(form, images + fileIds, hasVariations, variations, isoNow)))])
  {
    var invalid := ValidateProduct(form);
    if invalid.Some? {
      calls, r := [], Failure(invalid.value);
      return;
    }
    calls, r := UploadAndCreate(env, respond, form, images, selectedFiles, hasVariations, variations,
                                fileIds, isoNow, documentId);
  }

  /** `error.message || 'Failed to create product'`: the text the `catch` shows. */
  function CaughtError(message: string): string {
    if message == "" then DefaultError else message
  }

  /**
   * What one `handleSubmit` does: the requests it sends and the error it
   * leaves shown. A failed check sends nothing and shows its message; then
   * every selected file is uploaded in order, and only when all uploads are
   * answered is the product created with the existing ids followed by the
   * new ones. The first rejected upload, or a rejected create, shows its raw
   * message (or the default text when that is empty); a created product
   * clears the error.
   */
  function SubmitEffect(env: Env, respond: Call -> Response, form: Doc, images: seq<string>,
                        selectedFiles: seq<FileInfo>, hasVariations: bool, variations: seq<Doc>,
                        fileIds: seq<string>, isoNow: string, documentId: string): (seq<Call>, string)
    requires |fileIds| == |selectedFiles|
  {
    match ValidateProduct(form)
    case Some(message) => ([], message)
    case None =>
      var uploads := UploadRequests(env, selectedFiles, fileIds);
      match FirstRejectionMessage(respond, uploads)
      case Some(message) => (uploads, CaughtError(message))
      case None =>
        var create := CreateDocument(EnvValue(env, DatabaseVar), ProductService.ProductsCollection, documentId,
          ProductService.ProductDocument(ProductPayload(form, images + fileIds, hasVariations, variations, isoNow)));
        (uploads + [create], if respond(create).Done? then "" else CaughtError(respond(create).message))
  }

  /**
   * The `catch` of `handleSubmit`: `''` when the product was created,
   * otherwise the thrown message, or the default text when it is empty.
   */
  method SubmitProductError(env: Env, respond: Call -> Response, form: Doc, images: seq<string>,
                            selectedFiles: seq<FileInfo>, hasVariations: bool, variations: seq<Doc>,
                            fileIds: seq<string>, isoNow: string, documentId: string)
    returns (calls: seq<Call>, error: string)
    requires |fileIds| == |selectedFiles|
    ensures ValidateProduct(form).Some? ==> calls == [] && error == ValidateProduct(form).value
    ensures error == "" <==>
      ValidateProduct(form).None? && |calls| == |selectedFiles| + 1 && respond(calls[|calls| - 1]).Done?
    ensures (calls, error) == SubmitEffect(env, respond, form, images, selectedFiles, hasVariations, variations,
                                           fileIds, isoNow, documentId)
  {
    var outcome;
    calls, outcome := SubmitProduct(env, respond, form, images, selectedFiles, hasVariations, variations,
                                    fileIds, isoNow, documentId);
    error := if outcome.Success? then "" else CaughtError(outcome.message);
  }

  /**
   * The state `handleSubmit` leaves behind, from the request log, the route
   * and the selection before it: the requests made are appended, the error
   * is the caught message, and only a success clears the previews and
   * selected files and navigates to the product list.
   */
  method SubmitOutcome(env: Env, respond: Call -> Response, form: Doc, images: seq<string>,
                       previews: seq<Preview>, selectedFiles: seq<FileInfo>, hasVariations: bool,
                       variations: seq<Doc>, fileIds: seq<string>, isoNow: string, documentId: string,
                       log: seq<Call>, route: Option<string>)
    returns (sent: seq<Call>, log': seq<Call>, error: string, route': Option<string>, previews': seq<Preview>,
             selectedFiles': seq<FileInfo>)
    requires |fileIds| == |selectedFiles|
    requires Aligned(previews, selectedFiles)
    ensures Aligned(previews', selectedFiles')
    ensures |log'| >= |log| && log'[..|log|] == log
    ensures ValidateProduct(form).Some? ==> error == ValidateProduct(form).value && log' == log
    ensures error == "" <==>
      ValidateProduct(form).None? && |log'| == |log| + |selectedFiles| + 1 && respond(log'[|log'| - 1]).Done?
    ensures log' == log + sent
    ensures (sent, error) == SubmitEffect(env, respond, form, images, selectedFiles, hasVariations, variations,
                                          fileIds, isoNow, documentId)
    ensures error == "" ==> route' == Some(ListRoute) && previews' == [] && selectedFiles' == []
    ensures error != "" ==> route' == route && previews' == previews && selectedFiles' == selectedFiles
  {
    sent, error := SubmitProductError(env, respond, form, images, selectedFiles, hasVariations, variations,
                                      fileIds, isoNow, documentId);
    AppendedTrace(log, sent);
    log' := log + sent;
    if error == "" {
      route', previews', selectedFiles' := Some(ListRoute), [], [];
    } else {
      route', previews', selectedFiles' := route, previews, selectedFiles;
    }
  }

  // ---------------------------------------------------------------------------
  // The screen's state

  class ProductForm {
    var form: Doc
    var hasVariations: bool
    var variations: seq<Doc>
    /** Ids of images already uploaded. */
    var images: seq<string>
    var previewImages: seq<Preview>
    var selectedFiles: seq<FileInfo>
    var error: string
    var loading: bool
    /** Where the router was sent, if anywhere. */
    var redirect: Option<string>
    /** Every backend request the screen has made, in order. */
    var requests: seq<Call>

    /** The form keeps its key set, and previews and files are side by side. */
    ghost predicate Valid()
      reads this
    {
      && HasFormFields(form)
      && Aligned(previewImages, selectedFiles)
    }

    constructor ()
      ensures Valid()
      ensures form == InitialForm() && !hasVariations && variations == [] && images == []
      ensures previewImages == [] && selectedFiles == []
      ensures error == "" && !loading && redirect.None? && requests == []
    {
      form := InitialForm();
      hasVariations, variations, images := false, [], [];
      previewImages, selectedFiles := [], [];
      error, loading, redirect, requests := "", false, None, [];
    }

    /** `setFormData({...formData, [key]: value})`, as each field editor does. */
    method SetField(key: string, value: Value)
      requires Valid() && key in FormFields
      modifies this`form
      ensures Valid()
      ensures form == old(form)[key := value]
    {
      form := form[key := value];
    }

    /** The product type buttons: the type, and whether it is a food item. */
    method SelectProductType(typeId: string)
      requires Valid()
      modifies this`form
      ensures Valid()
      ensures form["productType"] == Str(typeId)
      ensures form["isFoodItem"] == Bool(typeId == FoodType)
      ensures forall k :: k in form && k != "productType" && k != "isFoodItem" ==> form[k] == old(form)[k]
    {
      assert "productType" in form && "isFoodItem" in form;
      var typed := form["productType" := Str(typeId)];
      assert typed.Keys == form.Keys;
      var next := typed["isFoodItem" := Bool(typeId == FoodType)];
      assert next.Keys == form.Keys;
      form := next;
    }

    /**
     * `handleFileSelect`: the selected files, each with its object URL,
     * are appended to both lists; an empty selection changes nothing.
     */
    method HandleFileSelect(files: seq<FileInfo>, previewUrls: seq<string>)
      requires Valid() && |previewUrls| == |files|
      modifies this`previewImages, this`selectedFiles
      ensures Valid()
      ensures selectedFiles == old(selectedFiles) + files
      ensures |previewImages| == |old(previewImages)| + |files|
      ensures previewImages[..|old(previewImages)|] == old(previewImages)
      ensures forall i :: 0 <= i < |files| ==>
        previewImages[|old(previewImages)| + i] == Preview(files[i], previewUrls[i])
    {
      if |files| == 0 {
        return;
      }
      var newPreviews := seq(|files|, i requires 0 <= i < |files| => Preview(files[i], previewUrls[i]));
      previewImages, selectedFiles := previewImages + newPreviews, selectedFiles + files;
    }

    /**
     * `handleRemovePreview(index)`: the preview and the file at `index`
     * go, so both lists stay side by side. The source reads
     * `previewImages[index].preview` first, so the index must exist.
     */
    method HandleRemovePreview(index: int)
      requires Valid() && 0 <= index < |previewImages|
      modifies this`previewImages, this`selectedFiles
      ensures Valid()
      ensures previewImages == RemoveAt(old(previewImages), index)
      ensures selectedFiles == RemoveAt(old(selectedFiles), index)
    {
      previewImages, selectedFiles := RemoveAt(previewImages, index), RemoveAt(selectedFiles, index);
      assert forall i :: 0 <= i < |previewImages| ==>
        previewImages[i] == old(previewImages)[if i < index then i else i + 1];
    }

    /** `handleImageRemove(index)`: the uploaded id at `index` goes. */
    method HandleImageRemove(index: int)
      requires Valid()
      modifies this`images
      ensures Valid()
      ensures images == RemoveAt(old(images), index)
    {
      images := RemoveAt(images, index);
    }

    /** `handleVariationAdd`: one new variation at the end. */
    method HandleVariationAdd()
      requires Valid()
      modifies this`variations
      ensures Valid()
      ensures variations == old(variations) + [NewVariation(form)]
    {
      variations := variations + [NewVariation(form)];
    }

    /**
     * `handleVariationChange(index, field, value)`: only `field` of the
     * variation at `index` changes. The source indexes the list first, so
     * the index must exist.
     */
    method HandleVariationChange(index: int, field: string, value: Value)
      requires Valid() && 0 <= index < |variations|
      modifies this`variations
      ensures Valid()
      ensures |variations| == |old(variations)|
      ensures variations[index] == old(variations)[index][field := value]
      ensures forall i :: 0 <= i < |variations| && i != index ==> variations[i] == old(variations)[i]
    {
      variations := variations[index := variations[index][field := value]];
    }

    /** `handleVariationRemove(index)`: the variation at `index` goes. */
    method HandleVariationRemove(index: int)
      requires Valid()
      modifies this`variations
      ensures Valid()
      ensures variations == RemoveAt(old(variations), index)
    {
      variations := RemoveAt(variations, index);
    }

    /** The "has variations" checkbox. */
    method SetHasVariations(checked: bool)
      requires Valid()
      modifies this`hasVariations
      ensures Valid()
      ensures hasVariations == checked
    {
      hasVariations := checked;
    }

    /**
     * `handleSubmit`: the requests made are appended; a failure's message
     * becomes the error; a success clears the previews and selected files
     * and navigates to the product list.
     */
    method HandleSubmit(env: Env, respond: Call -> Response, fileIds: seq<string>, isoNow: string, documentId: string)
      returns (sent: seq<Call>)
      requires Valid() && |fileIds| == |selectedFiles|
      modifies this`requests, this`error, this`redirect, this`loading, this`previewImages, this`selectedFiles
      ensures Valid()
      ensures !loading
      ensures |requests| >= |old(requests)| && requests[..|old(requests)|] == old(requests)
      ensures ValidateProduct(old(form)).Some? ==>
        error == ValidateProduct(old(form)).value && requests == old(requests)
      ensures error == "" <==>
        ValidateProduct(old(form)).None? && |requests| == |old(requests)| + |old(selectedFiles)| + 1
        && respond(requests[|requests| - 1]).Done?
      ensures requests == old(requests) + sent
      ensures (sent, error) == SubmitEffect(env, respond, old(form), old(images), old(selectedFiles), old(hasVariations),
                                            old(variations), fileIds, isoNow, documentId)
      ensures error == "" ==>
        redirect == Some(ListRoute) && previewImages == [] && selectedFiles == []
      ensures error != "" ==>
        redirect == old(redirect) && previewImages == old(previewImages) && selectedFiles == old(selectedFiles)
    {
      var log, message, route, previews, files;
      sent, log, message, route, previews, files :=
        SubmitOutcome(env, respond, form, images, previewImages, selectedFiles, hasVariations, variations,
                      fileIds, isoNow, documentId, requests, redirect);
      ghost var invalid := ValidateProduct(form);
      assert invalid.Some? ==> message == invalid.value && log == requests;
      requests, error, redirect, loading, previewImages, selectedFiles := log, message, route, false, previews, files;
    }
  }
}
