/**
 * The add-category screen: the slug and custom file name built from the
 * category name, the icon selection check, the submit validation and the
 * category payload, and the form state the handlers update.
 */
module CategoryAddPage {
  import opened Json
  import opened Text
  import opened Seqs
  import opened Remote
  import opened Uploads
  import CategoryService

  // ---------------------------------------------------------------------------
  // The category slug

  predicate NoDoubleHyphen(s: string) {
    forall i, j :: 0 <= i < |s| && 0 <= j < |s| && j == i + 1 ==> !(s[i] == '-' && s[j] == '-')
  }

  predicate NoEdgeHyphen(s: string) {
    s == [] || (s[0] != '-' && s[|s| - 1] != '-')
  }

  /** A slug as the builder leaves it: `[a-z0-9-]` only, no "--", no hyphen at either end. */
  predicate IsCleanSlug(s: string) {
    OnlySlugChars(s) && NoDoubleHyphen(s) && NoEdgeHyphen(s)
  }

  /** `.replace(/-+/g, '-')`: every run of hyphens becomes a single hyphen. */
  function Collapse(s: string): (r: string)
    ensures |r| <= |s| && (r == [] <==> s == [])
    ensures s != [] ==> r[0] == s[0] && r[|r| - 1] == s[|s| - 1]
    ensures OnlySlugChars(s) ==> OnlySlugChars(r)
    ensures NoDoubleHyphen(r)
  {
    if |s| <= 1 then s
    else if s[0] == '-' && s[1] == '-' then Collapse(s[1..])
    else [s[0]] + Collapse(s[1..])
  }

  /** `.replace(/^-|-$/g, '')`: one leading and one trailing hyphen removed. */
  function StripEdgeHyphens(s: string): (r: string)
    ensures OnlySlugChars(s) ==> OnlySlugChars(r)
    ensures NoDoubleHyphen(s) ==> NoDoubleHyphen(r) && NoEdgeHyphen(r)
  {
    var t := if s != [] && s[0] == '-' then s[1..] else s;
    if t != [] && t[|t| - 1] == '-' then t[..|t| - 1] else t
  }

  /** The clean category name inside `generateFileName`: lowercase, hyphenate, collapse, strip. */
  function Slug(name: string): (r: string)
    ensures IsCleanSlug(r)
  {
    StripEdgeHyphens(Collapse(Hyphenate(Lower(name))))
  }

  /** A run of one or more hyphens, up to the next other character, becomes one hyphen. */
  lemma {:induction false} CollapseRun(k: nat, t: string)
    requires k >= 1 && (t == [] || t[0] != '-')
    ensures Collapse(seq(k, _ => '-') + t) == "-" + Collapse(t)
  {
    var s := seq(k, _ => '-') + t;
    if k == 1 {
      assert s == ['-'] + t;
      if t != [] {
        assert s[1..] == t;
      }
    } else {
      assert s[0] == '-' && s[1] == '-';
      assert s[1..] == seq(k - 1, _ => '-') + t;
      CollapseRun(k - 1, t);
    }
  }

  /** A character other than a hyphen passes through unchanged. */
  lemma CollapseOther(c: char, t: string)
    requires c != '-'
    ensures Collapse([c] + t) == [c] + Collapse(t)
  {
    if t != [] {
      assert ([c] + t)[1..] == t;
    }
  }

  /** Letters pass through the collapse one by one. */
  lemma {:induction false} CollapseWord(w: string, t: string)
    requires '-' !in w
    ensures Collapse(w + t) == w + Collapse(t)
  {
    if w != [] {
      assert w + t == [w[0]] + (w[1..] + t);
      CollapseOther(w[0], w[1..] + t);
      assert forall c :: c in w[1..] ==> c in w;
      CollapseWord(w[1..], t);
      assert [w[0]] + (w[1..] + Collapse(t)) == w + Collapse(t);
    } else {
      assert w + t == t && w + Collapse(t) == Collapse(t);
    }
  }

  /** The hyphenated form of "Hello  World": the two spaces become two hyphens. */
  lemma HelloWorldHyphenated()
    ensures Hyphenate(Lower("Hello  World")) == "hello" + seq(2, _ => '-') + "world"
  {
    var l := Lower("Hello  World");
    assert l == "hello  world";
    var h := Hyphenate(l);
    assert |h| == 12;
    assert h[5] == '-' && h[6] == '-';
  }

  /** Two hyphen-free words around a run of hyphens come out joined by exactly one hyphen. */
  lemma CollapseTwoWords(a: string, k: nat, b: string)
    requires k >= 1 && '-' !in a && '-' !in b
    ensures Collapse(a + seq(k, _ => '-') + b) == a + "-" + b
  {
    var run := seq(k, _ => '-') + b;
    assert b == [] || b[0] != '-' by {
      if b != [] {
        assert b[0] in b;
      }
    }
    calc {
      Collapse(a + seq(k, _ => '-') + b);
      { assert a + seq(k, _ => '-') + b == a + run; }
      Collapse(a + run);
      { CollapseWord(a, run); }
      a + Collapse(run);
      { CollapseRun(k, b); }
      a + ("-" + Collapse(b));
      { CollapseWord(b, []); assert b + [] == b; }
      a + ("-" + b);
      a + "-" + b;
    }
  }

  /** The collapse of "hello--world" keeps one hyphen between the words. */
  lemma HelloWorldCollapsed()
    ensures Collapse("hello" + seq(2, _ => '-') + "world") == "hello-world"
  {
    assert '-' !in "hello" && '-' !in "world";
    CollapseTwoWords("hello", 2, "world");
  }

  /** Words separated by spaces keep one hyphen between them: "Hello  World" gives "hello-world". */
  lemma SlugSeparatesWords()
    ensures Slug("Hello  World") == "hello-world"
  {
    HelloWorldHyphenated();
    HelloWorldCollapsed();
    StripKeepsInner("hello-world");
  }

  /** A text that neither starts nor ends with a hyphen is left as it is by the edge strip. */
  lemma StripKeepsInner(s: string)
    requires NoEdgeHyphen(s)
    ensures StripEdgeHyphens(s) == s
  {
  }

  /** Letters and digits of a string, in order. */
  function Alnums(s: string): string {
    Filter(s, IsSlugChar)
  }

  lemma {:induction false} HyphenateKeepsAlnums(s: string)
    ensures Alnums(Hyphenate(s)) == Alnums(s)
  {
    if s != [] {
      assert Hyphenate(s)[1..] == Hyphenate(s[1..]);
      HyphenateKeepsAlnums(s[1..]);
    }
  }

  lemma {:induction false} CollapseKeepsAlnums(s: string)
    ensures Alnums(Collapse(s)) == Alnums(s)
  {
    if |s| > 1 {
      CollapseKeepsAlnums(s[1..]);
      if !(s[0] == '-' && s[1] == '-') {
        assert ([s[0]] + Collapse(s[1..]))[1..] == Collapse(s[1..]);
      }
    }
  }

  lemma StripKeepsAlnums(s: string)
    ensures Alnums(StripEdgeHyphens(s)) == Alnums(s)
  {
    var t := if s != [] && s[0] == '-' then s[1..] else s;
    if s != [] && s[0] == '-' {
      assert s == [s[0]] + t;
      FilterConcat([s[0]], t, IsSlugChar);
    }
    if t != [] && t[|t| - 1] == '-' {
      assert t == t[..|t| - 1] + [t[|t| - 1]];
      FilterConcat(t[..|t| - 1], [t[|t| - 1]], IsSlugChar);
    }
  }

  /** The slug keeps every ASCII letter (lowercased) and digit of the name, in order, and no other. */
  lemma SlugKeepsAlnums(name: string)
    ensures Alnums(Slug(name)) == Alnums(Lower(name))
  {
    HyphenateKeepsAlnums(Lower(name));
    CollapseKeepsAlnums(Hyphenate(Lower(name)));
    StripKeepsAlnums(Collapse(Hyphenate(Lower(name))));
  }

  /** The slug is empty exactly when the name has no ASCII letter or digit. */
  lemma SlugEmptyIff(name: string)
    ensures Slug(name) == [] <==> forall i :: 0 <= i < |name| ==> !IsSlugChar(LowerChar(name[i]))
  {
    var r := Slug(name);
    SlugKeepsAlnums(name);
    FilterEmptyIff(r, IsSlugChar);
    FilterEmptyIff(Lower(name), IsSlugChar);
    if r != [] {
      assert IsSlugChar(r[0]);
    }
  }

  lemma {:induction false} CollapseFixesNoDouble(s: string)
    requires NoDoubleHyphen(s)
    ensures Collapse(s) == s
  {
    if |s| > 1 {
      assert NoDoubleHyphen(s[1..]) by {
        forall i, j | 0 <= i < |s[1..]| && 0 <= j < |s[1..]| && j == i + 1 ensures !(s[1..][i] == '-' && s[1..][j] == '-') {
          assert s[1..][i] == s[i + 1] && s[1..][j] == s[j + 1];
        }
      }
      CollapseFixesNoDouble(s[1..]);
      assert [s[0]] + s[1..] == s;
    }
  }

  /** An already clean slug comes back unchanged. */
  lemma CleanSlugFixed(s: string)
    requires IsCleanSlug(s)
    ensures Slug(s) == s
  {
    assert Lower(s) == s;
    assert Hyphenate(s) == s;
    CollapseFixesNoDouble(s);
  }

  /** Slugging twice is slugging once. */
  lemma SlugIdempotent(name: string)
    ensures Slug(Slug(name)) == Slug(name)
  {
    CleanSlugFixed(Slug(name));
  }

  // ---------------------------------------------------------------------------
  // The custom file name and the icon URL

  /** `generateFileName(file, categoryName)`: `<seconds>-<slug>.<extension>`. */
  function GenerateFileName(fileName: string, categoryName: string, nowMs: nat): string {
    DecimalText(nowMs / 1000) + "-" + Slug(categoryName) + "." + Extension(fileName)
  }

  /**
   * The custom name is the seconds timestamp, '-', the slug, '.' and the
   * original extension, which has no '.'.
   */
  lemma GenerateFileNameParts(fileName: string, categoryName: string, nowMs: nat)
    ensures var r := GenerateFileName(fileName, categoryName, nowMs);
      var digits := DecimalText(nowMs / 1000);
      && LeadingDigits(r) == digits && DecimalValue(digits) == nowMs / 1000
      && r[|digits|] == '-'
      && Extension(r) == Extension(fileName) && '.' !in Extension(r)
      && r[|r| - |Extension(fileName)| - 1] == '.'
      && r[|digits| + 1..|r| - |Extension(fileName)| - 1] == Slug(categoryName)
  {
    DigitsDashExtension(DecimalText(nowMs / 1000), Slug(categoryName), Extension(fileName));
    DashMiddleDot(DecimalText(nowMs / 1000), Slug(categoryName), Extension(fileName));
    DecimalRoundTrip(nowMs / 1000);
  }

  /**
   * The service renames whatever it receives to `<seconds>.<extension>`, so
   * the custom name only contributes its extension, the original one.
   */
  lemma CustomNameDiscarded(fileName: string, categoryName: string, pageMs: nat, serviceMs: nat)
    ensures CategoryService.TimestampName(serviceMs, GenerateFileName(fileName, categoryName, pageMs))
         == CategoryService.TimestampName(serviceMs, fileName)
  {
    GenerateFileNameParts(fileName, categoryName, pageMs);
  }

  /** The icon URL the screen writes itself, through the misspelt bucket variable. */
  function InlineIconUrl(env: Env, fileId: string): string {
    BucketFileUrl(env, MisspeltCategoryBucketVar, fileId)
  }

  /**
   * The screen's URL matches the service's `getIconUrl` exactly when the
   * misspelt and the correct variables hold the same bucket; with the
   * misspelt one unset the URL names the bucket "undefined".
   */
  lemma InlineIconUrlAgreement(env: Env, fileId: string)
    ensures InlineIconUrl(env, fileId) == CategoryService.GetIconUrl(env, fileId)
      <==> EnvValue(env, MisspeltCategoryBucketVar) == EnvValue(env, CategoryBucketVar)
    ensures MisspeltCategoryBucketVar !in env ==>
      InlineIconUrl(env, fileId) == FileViewUrl(EnvValue(env, EndpointVar), "undefined", fileId, EnvValue(env, ProjectVar))
  {
    FileViewUrlBucket(EnvValue(env, EndpointVar), EnvValue(env, MisspeltCategoryBucketVar),
      EnvValue(env, CategoryBucketVar), fileId, EnvValue(env, ProjectVar));
  }

  // ---------------------------------------------------------------------------
  // Submit

  const NameRequired := "Category name is required"
  const IconRequired := "Category icon is required"
  const DefaultError := "Failed to create category"
  const ListRoute := "/admin/categories"

  /** The first failing check of the form: the trimmed name before the icon. */
  function ValidateCategory(name: string, iconFile: Option<FileInfo>): (e: Option<string>)
    ensures (forall i :: 0 <= i < |name| ==> IsJsSpace(name[i])) <==> e == Some(NameRequired)
    ensures e == Some(IconRequired) <==> Trim(name) != [] && iconFile.None?
    ensures e == None <==> Trim(name) != [] && iconFile.Some?
  {
    TrimEmptyIff(name);
    if Trim(name) == [] then Some(NameRequired)
    else if iconFile.None? then Some(IconRequired)
    else None
  }

  /** `categoryData`: the object the screen hands to `createCategory`. */
  function CategoryPayload(name: string, fileId: string, iconUrl: string, isActive: bool,
                           createdAt: string, fileName: string): Doc {
    map["name" := Str(name), "icon" := Str(fileId), "iconUrl" := Str(iconUrl),
        "isActive" := Bool(isActive), "createdAt" := Str(createdAt), "fileName" := Str(fileName)]
  }

  /** The category document the backend stores for a successful submit. */
  function StoredCategory(env: Env, trimmedName: string, fileId: string, isActive: bool, createdAt: string): Doc {
    map["name" := Str(trimmedName), "icon" := Str(fileId), "iconUrl" := Str(InlineIconUrl(env, fileId)),
        "isActive" := Bool(isActive), "createdAt" := Str(createdAt)]
  }

  /** The projection in `createCategory` keeps the five category fields and drops `fileName`. */
  lemma PayloadProjection(env: Env, trimmedName: string, fileId: string, isActive: bool,
                          createdAt: string, fileName: string)
    ensures var stored := CategoryService.CategoryDocument(
              CategoryPayload(trimmedName, fileId, InlineIconUrl(env, fileId), isActive, createdAt, fileName));
      && stored == StoredCategory(env, trimmedName, fileId, isActive, createdAt)
      && "fileName" !in stored
  {
  }

  /**
   * The body of `handleSubmit` between `setError('')` and `finally`: the
   * checks, the upload of the renamed icon, then the create. Validation
   * failures make no call; an upload failure stops before the create.
   */
  method SubmitCategory(env: Env, respond: Call -> Response, name: string, isActive: bool,
                        iconFile: Option<FileInfo>, pageMs: nat, serviceMs: nat, isoNow: string,
                        fileId: string, documentId: string)
    returns (calls: seq<Call>, r: Result<Doc>)
    ensures ValidateCategory(name, iconFile).Some? ==>
      calls == [] && r == Failure(ValidateCategory(name, iconFile).value)
    ensures ValidateCategory(name, iconFile).None? ==>
      var upload := CreateFile(EnvValue(env, CategoryBucketVar), fileId,
                               CategoryService.TimestampName(serviceMs, iconFile.value.name));
      && 1 <= |calls| <= 2 && calls[0] == upload
      && (respond(upload).Rejected? ==>
            |calls| == 1 && r == Failure(CategoryService.UploadIconPrefix + respond(upload).message))
      && (respond(upload).Done? ==>
            |calls| == 2
            && calls[1] == CreateDocument(EnvValue(env, DatabaseVar), EnvValue(env, CategoryCollectionVar),
                                          documentId, StoredCategory(env, Trim(name), fileId, isActive, isoNow)))
    ensures r.Success? <==> |calls| == 2 && respond(calls[1]).Done?
    ensures r.Failure? && |calls| == 2 ==>
      r.message == CategoryService.CreateCategoryPrefix + respond(calls[1]).message
    ensures r.Failure? ==> r.message != ""
  {
    var invalid := ValidateCategory(name, iconFile);
    if invalid.Some? {
      calls, r := [], Failure(invalid.value);
      return;
    }
    var file := iconFile.value;
    var customFileName := GenerateFileName(file.name, name, pageMs);
    CustomNameDiscarded(file.name, name, pageMs, serviceMs);
    var uploaded, id := CategoryService.UploadIcon(env, respond, Renamed(file, customFileName), "", serviceMs, fileId);
    if id.Failure? {
      calls, r := uploaded, Failure(id.message);
      return;
    }
    var payload := CategoryPayload(Trim(name), id.value, InlineIconUrl(env, id.value), isActive, isoNow, customFileName);
    PayloadProjection(env, Trim(name), id.value, isActive, isoNow, customFileName);
    var created;
    created, r := CategoryService.CreateCategory(env, respond, payload, documentId);
    calls := uploaded + created;
  }

  /**
   * What one `handleSubmit` does: the requests it sends and the error it
   * leaves shown. A failed check sends nothing and shows its message; then
   * the renamed icon is uploaded, and only an answered upload is followed by
   * the create of the trimmed category. A rejected request shows its
   * prefixed message (never empty, so the default text is not reached); a
   * created category clears the error.
   */
  function SubmitEffect(env: Env, respond: Call -> Response, name: string, isActive: bool,
                        iconFile: Option<FileInfo>, serviceMs: nat, isoNow: string,
                        fileId: string, documentId: string): (seq<Call>, string)
  {
    match ValidateCategory(name, iconFile)
    case Some(message) => ([], message)
    case None =>
      var upload := CreateFile(EnvValue(env, CategoryBucketVar), fileId,
                               CategoryService.TimestampName(serviceMs, iconFile.value.name));
      var create := CreateDocument(EnvValue(env, DatabaseVar), EnvValue(env, CategoryCollectionVar),
                                   documentId, StoredCategory(env, Trim(name), fileId, isActive, isoNow));
      if respond(upload).Rejected? then
        ([upload], CategoryService.UploadIconPrefix + respond(upload).message)
      else
        ([upload, create],
         if respond(create).Done? then "" else CategoryService.CreateCategoryPrefix + respond(create).message)
  }

  /**
   * The `catch` of `handleSubmit`: the error the screen shows, `''` when the
   * category was created, otherwise the thrown message (or the default
   * text, were it empty).
   */
  method SubmitCategoryError(env: Env, respond: Call -> Response, name: string, isActive: bool,
                             iconFile: Option<FileInfo>, pageMs: nat, serviceMs: nat, isoNow: string,
                             fileId: string, documentId: string)
    returns (calls: seq<Call>, error: string)
    ensures ValidateCategory(name, iconFile).Some? ==>
      calls == [] && error == ValidateCategory(name, iconFile).value
    ensures error == "" <==> |calls| == 2 && respond(calls[1]).Done?
    ensures (calls, error) == SubmitEffect(env, respond, name, isActive, iconFile, serviceMs, isoNow, fileId, documentId)
  {
    var outcome;
    calls, outcome := SubmitCategory(env, respond, name, isActive, iconFile, pageMs, serviceMs,
                                     isoNow, fileId, documentId);
    error := if outcome.Success? then "" else if outcome.message == "" then DefaultError else outcome.message;
    if |calls| == 2 {
      assert calls == [calls[0], calls[1]];
    } else if |calls| == 1 {
      assert calls == [calls[0]];
    }
  }

  /**
   * The state `handleSubmit` leaves behind, from the request log and the
   * route before it: the requests made are appended, the error is the
   * caught message, and only a success navigates to the list.
   */
  method SubmitOutcome(env: Env, respond: Call -> Response, name: string, isActive: bool,
                       iconFile: Option<FileInfo>, pageMs: nat, serviceMs: nat, isoNow: string,
                       fileId: string, documentId: string, log: seq<Call>, route: Option<string>)
    returns (sent: seq<Call>, log': seq<Call>, error: string, route': Option<string>)
    ensures |log'| >= |log| && log'[..|log|] == log
    ensures ValidateCategory(name, iconFile).Some? ==>
      error == ValidateCategory(name, iconFile).value && log' == log && route' == route
    ensures error == "" <==> |log'| == |log| + 2 && respond(log'[|log'| - 1]).Done?
    ensures log' == log + sent
    ensures (sent, error) == SubmitEffect(env, respond, name, isActive, iconFile, serviceMs, isoNow, fileId, documentId)
    ensures error == "" ==> route' == Some(ListRoute)
    ensures error != "" ==> route' == route
  {
    sent, error := SubmitCategoryError(env, respond, name, isActive, iconFile, pageMs, serviceMs,
                                       isoNow, fileId, documentId);
    AppendedTrace(log, sent);
    log' := log + sent;
    route' := if error == "" then Some(ListRoute) else route;
  }

  // ---------------------------------------------------------------------------
  // The screen's state

  class CategoryAddForm {
    var name: string
    var isActive: bool
    /** `formData.iconUrl`: the preview URL once an icon is chosen. */
    var iconUrl: string
    var iconFile: Option<FileInfo>
    var iconPreview: Option<string>
    var error: string
    var loading: bool
    /** Where the router was sent, if anywhere. */
    var redirect: Option<string>
    /** Every backend request the screen has made, in order. */
    var requests: seq<Call>

    constructor ()
      ensures name == "" && isActive && iconUrl == "" && iconFile.None? && iconPreview.None?
      ensures error == "" && !loading && redirect.None? && requests == []
    {
      name, isActive, iconUrl := "", true, "";
      iconFile, iconPreview := None, None;
      error, loading, redirect, requests := "", false, None, [];
    }

    /**
     * `handleIconSelect`: no file does nothing; a rejected file only sets
     * the error; an accepted file becomes the icon, its preview URL the
     * preview and `iconUrl`, and the error is cleared.
     */
    method HandleIconSelect(file: Option<FileInfo>, previewUrl: string)
      modifies this
      ensures name == old(name) && isActive == old(isActive) && loading == old(loading)
      ensures redirect == old(redirect) && requests == old(requests)
      ensures file.None? ==>
        (error == old(error) && iconFile == old(iconFile) && iconPreview == old(iconPreview) && iconUrl == old(iconUrl))
      ensures file.Some? && ImageError(file.value).Some? ==>
        (error == ImageError(file.value).value && iconFile == old(iconFile)
         && iconPreview == old(iconPreview) && iconUrl == old(iconUrl))
      ensures file.Some? && ImageError(file.value).None? ==>
        (error == "" && iconFile == file && iconPreview == Some(previewUrl) && iconUrl == previewUrl)
    {
      if file.None? {
        return;
      }
      var problem := ImageError(file.value);
      if problem.Some? {
        error := problem.value;
        return;
      }
      iconFile := file;
      iconPreview := Some(previewUrl);
      iconUrl := previewUrl;
      error := "";
    }

    /**
     * `handleSubmit`: the form fields are left as they are, the requests
     * made are appended, a failure's message becomes the error and a
     * success clears it and navigates to the category list.
     */
    method HandleSubmit(env: Env, respond: Call -> Response, pageMs: nat, serviceMs: nat,
                        isoNow: string, fileId: string, documentId: string)
      returns (sent: seq<Call>)
      modifies this`requests, this`error, this`redirect, this`loading
      ensures !loading
      ensures |requests| >= |old(requests)| && requests[..|old(requests)|] == old(requests)
      ensures ValidateCategory(old(name), old(iconFile)).Some? ==>
        error == ValidateCategory(old(name), old(iconFile)).value && requests == old(requests) && redirect == old(redirect)
      ensures error == "" <==> |requests| == |old(requests)| + 2 && respond(requests[|requests| - 1]).Done?
      ensures requests == old(requests) + sent
      ensures (sent, error) == SubmitEffect(env, respond, old(name), old(isActive), old(iconFile), serviceMs, isoNow,
                                            fileId, documentId)
      ensures error == "" ==> redirect == Some(ListRoute)
      ensures error != "" ==> redirect == old(redirect)
    {
      // `loading` is true only while the request is in flight.
      var log, message, route;
      sent, log, message, route := SubmitOutcome(env, respond, name, isActive, iconFile, pageMs, serviceMs,
                                               isoNow, fileId, documentId, requests, redirect);
      requests, error, redirect, loading := log, message, route, false;
    }
  }
}
