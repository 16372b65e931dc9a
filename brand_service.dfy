/**
 * The brand service: the brand-name sanitiser and upload name, the icon
 * view URL, the pass-through create and the delete requests, each failure
 * rethrown with the operation's prefix.
 */
module BrandService {
  import opened Json
  import opened Remote
  import opened Text
  import opened Uploads

  const BrandsCollection := "brands"
  const UploadIconPrefix := "Failed to upload icon: "
  const CreateBrandPrefix := "Failed to create brand: "
  const DeleteIconPrefix := "Failed to delete icon: "
  const DeleteBrandPrefix := "Failed to delete brand: "
  const GetBrandsPrefix := "Failed to fetch brands: "

  /**
   * `brandName.toLowerCase().replace(/[^a-z0-9]/g, '-')`: one character out
   * per character in, letters lowercased, every other character a hyphen;
   * runs of hyphens are kept and nothing is trimmed.
   */
  function Sanitize(brandName: string): (r: string)
    ensures |r| == |brandName| && OnlySlugChars(r)
    ensures forall i :: 0 <= i < |r| ==>
      r[i] == if IsSlugChar(LowerChar(brandName[i])) then LowerChar(brandName[i]) else '-'
  {
    Hyphenate(Lower(brandName))
  }

  /** Two spaces give two hyphens and a trailing '!' a trailing hyphen. */
  lemma SanitizeKeepsEveryHyphen()
    ensures Sanitize("A  B!") == "a--b-"
  {
    var r := Sanitize("A  B!");
    assert r[0] == 'a' && r[1] == '-' && r[2] == '-' && r[3] == 'b' && r[4] == '-';
  }

  /** `${sanitizedBrandName}-${timestamp}.${fileExtension}`. */
  function BrandFileName(brandName: string, fileName: string, nowMs: nat): string {
    Sanitize(brandName) + "-" + DecimalText(nowMs / 1000) + "." + Extension(fileName)
  }

  /**
   * The brand file name starts with the sanitised name, then '-', then the
   * seconds timestamp directly followed by '.', and keeps the original
   * extension.
   */
  lemma BrandFileNameParts(brandName: string, fileName: string, nowMs: nat)
    ensures var r := BrandFileName(brandName, fileName, nowMs);
      var n := |Sanitize(brandName)|;
      && |r| > n && r[..n] == Sanitize(brandName) && r[n] == '-'
      && LeadingDigits(r[n + 1..]) == DecimalText(nowMs / 1000)
      && r[n + 1 + |DecimalText(nowMs / 1000)|] == '.'
      && Extension(r) == Extension(fileName)
  {
    PrefixedDigitsDotExtension(Sanitize(brandName), DecimalText(nowMs / 1000), Extension(fileName));
  }

  /** `uploadIcon(file, brandName)`: one upload to the brand bucket under the brand file name. */
  method UploadIcon(env: Env, respond: Call -> Response, file: FileInfo, brandName: string,
                    nowMs: nat, fileId: string)
    returns (calls: seq<Call>, r: Result<string>)
    ensures calls == [CreateFile(EnvValue(env, BrandBucketVar), fileId, BrandFileName(brandName, file.name, nowMs))]
    ensures respond(calls[0]).Done? ==> r == Success(fileId)
    ensures respond(calls[0]).Rejected? ==> r == Failure(UploadIconPrefix + respond(calls[0]).message)
  {
    var newFile := Renamed(file, BrandFileName(brandName, file.name, nowMs));
    var outcome;
    calls, outcome := Invoke(respond, CreateFile(EnvValue(env, BrandBucketVar), fileId, newFile.name), UploadIconPrefix);
    match outcome
    case Success(_) => r := Success(fileId);
    case Failure(m) => r := Failure(m);
  }

  /** `getIconUrl(fileId)`: the view URL of `fileId` in the brand bucket. */
  function GetIconUrl(env: Env, fileId: string): string {
    BucketFileUrl(env, BrandBucketVar, fileId)
  }

  /** The brand icon URL has the fixed shape around the id and determines the id. */
  lemma GetIconUrlShape(env: Env, fileId: string, other: string)
    ensures GetIconUrl(env, fileId) ==
      EnvValue(env, EndpointVar) + "/storage/buckets/" + EnvValue(env, BrandBucketVar)
      + "/files/" + fileId + "/view?project=" + EnvValue(env, ProjectVar)
    ensures GetIconUrl(env, fileId) == GetIconUrl(env, other) <==> fileId == other
  {
    FileViewUrlInjective(EnvValue(env, EndpointVar), EnvValue(env, BrandBucketVar),
      fileId, other, EnvValue(env, ProjectVar));
  }

  /** `createBrand(data)`: the caller's fields go to the 'brands' collection as they are; the stored document is returned. */
  method CreateBrand(env: Env, respond: Call -> Response, data: Doc, documentId: string)
    returns (calls: seq<Call>, r: Result<Doc>)
    ensures calls == [CreateDocument(EnvValue(env, DatabaseVar), BrandsCollection, documentId, data)]
    ensures respond(calls[0]).Done? ==> r == Success(respond(calls[0]).doc)
    ensures respond(calls[0]).Rejected? ==> r == Failure(CreateBrandPrefix + respond(calls[0]).message)
  {
    calls, r := Invoke(respond, CreateDocument(EnvValue(env, DatabaseVar), BrandsCollection, documentId, data),
                       CreateBrandPrefix);
  }

  /** `deleteIcon(iconId)`: delete the file from the brand bucket. */
  method DeleteIcon(env: Env, respond: Call -> Response, iconId: string)
    returns (calls: seq<Call>, r: Result<Doc>)
    ensures calls == [DeleteFile(EnvValue(env, BrandBucketVar), iconId)]
    ensures r.Failure? <==> respond(calls[0]).Rejected?
    ensures r.Failure? ==> r.message == DeleteIconPrefix + respond(calls[0]).message
  {
    calls, r := Invoke(respond, DeleteFile(EnvValue(env, BrandBucketVar), iconId), DeleteIconPrefix);
  }

  /** `deleteBrand(brandId)`: delete the brand document. */
  method DeleteBrand(env: Env, respond: Call -> Response, brandId: string)
    returns (calls: seq<Call>, r: Result<Doc>)
    ensures calls == [DeleteDocument(EnvValue(env, DatabaseVar), BrandsCollection, brandId)]
    ensures r.Failure? <==> respond(calls[0]).Rejected?
    ensures r.Failure? ==> r.message == DeleteBrandPrefix + respond(calls[0]).message
  {
    calls, r := Invoke(respond, DeleteDocument(EnvValue(env, DatabaseVar), BrandsCollection, brandId), DeleteBrandPrefix);
  }

  /** `getBrands()`: the documents of the 'brands' collection, in the backend's default order (no query). */
  method GetBrands(env: Env, respond: Call -> Response)
    returns (calls: seq<Call>, r: Result<Value>)
    ensures calls == [ListDocuments(EnvValue(env, DatabaseVar), BrandsCollection, [])]
    ensures respond(calls[0]).Done? ==> r == Success(Get(respond(calls[0]).doc, "documents"))
    ensures respond(calls[0]).Rejected? ==> r == Failure(GetBrandsPrefix + respond(calls[0]).message)
  {
    var outcome;
    calls, outcome := Invoke(respond, ListDocuments(EnvValue(env, DatabaseVar), BrandsCollection, []), GetBrandsPrefix);
    match outcome
    case Success(response) => r := Success(Get(response, "documents"));
    case Failure(m) => r := Failure(m);
  }
}
