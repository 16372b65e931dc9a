# A-L-MART admin console: a Dafny model of its rules

A-L-MART's admin console is a set of Next.js screens over an Appwrite backend (document database, file storage, accounts). This project models the console's deterministic rules and proves properties about them. The rules cover:

- **Upload naming.** The category slug and the custom file name; the brand-name sanitiser and the brand file name; the `<seconds>.<ext>` rename the category service applies to every icon and sub-category image.
- **Validation.** The image type and size checks, and the required-field checks of the category, sub-category and product add screens, in their order.
- **URLs and payloads.** The storage view URLs. The payloads the screens build, and the projections the services apply before writing: `createCategory`, `createSubCategory` and `createProduct` (which forces `status: 'active'`). The `updateCategoryWithIcon` and `updateProduct` merges.
- **Product add form.** The previews and selected files that must stay side by side, removal by index, the variation list, and the submit with its uploads.
- **List screens.** The brand and category searches, the id-to-category map of the sub-category list, and the three delete sequences.
- **State machines.** The dashboard slider, the `useAuth` user state with its route guard, and the admin gate.

How the backend is modelled:

- Every backend request is a `Remote.Call`.
- The backend's answer is an oracle `respond: Call -> Response` that returns a document or rejects with a message.
- Each operation returns the calls it made, in order, so ordering and "never called" can be stated.
- Screens whose handlers update state step by step are classes whose methods record their requests in a `requests` field.
- The submit handlers also return the requests that one submit sent (`sent`), so their contracts can name them. The source's handlers return nothing.
- Environment variables are a map. An unset variable renders as the text `undefined`.
- Timestamps are parameters: milliseconds as `nat`, ISO strings as `string`.
- `ID.unique()` becomes an id parameter.

## Model

| member | source | states |
|---|---|---|
| Text.Lower | src/app/admin/brands/page.js:41-42 | `toLowerCase` keeps the length and lowercases each ASCII letter in place |
| Text.Hyphenate | src/app/admin/categories/add/page.js:13 | every character outside `[a-z0-9]` becomes '-', position by position, so the result has only slug characters |
| Text.Includes | src/app/admin/categories/page.js:37 | the definition of `includes` by scanning; its meaning is the ensures of IncludesIffOccurs |
| Text.IncludesIffOccurs | src/app/admin/brands/page.js:41-42 | `includes` holds exactly when some window of the text equals the searched text |
| Text.IncludesEmpty | src/app/admin/categories/page.js:36-38 | the empty search text occurs in every string |
| Text.Trim | src/app/admin/categories/add/page.js:65 | the definition: `trimStart` then `trimEnd`; its meaning is the ensures of TrimEmptyIff and TrimEdges |
| Text.TrimEmptyIff | src/app/admin/categories/add/page.js:65 | `trim()` is empty exactly when every character is JavaScript white space |
| Text.TrimStartIsSuffix | src/app/admin/categories/add/page.js:65 | what `trimStart()` leaves is a suffix of the text |
| Text.TrimEdges | src/app/admin/categories/sub/add/page.js:73-75 | a non-empty trimmed text starts and ends with a non-space character |
| Text.Extension | src/app/admin/categories/add/page.js:17 | `split('.').pop()` has no '.' in it, is no longer than the name, and is preceded by a '.' when shorter |
| Text.ExtensionIsSuffix | src/app/admin/categories/add/page.js:17 | the extension is a suffix of the name |
| Text.ExtensionNoDot | src/app/admin/categories/add/page.js:17 | a name without '.' is its own extension |
| Text.ExtensionAfterDot | src/lib/appwrite/services/category.service.js:9-10 | appending '.' and a dot-free extension makes that the extension |
| Text.DecimalRoundTrip | src/app/admin/categories/add/page.js:18 | the decimal text of the seconds reads back as the same number and is all digits |
| Text.LeadingDigitsOf | src/lib/appwrite/services/category.service.js:10 | the leading digits of `<digits><non-digit>…` are exactly those digits |
| Text.DigitsDashExtension | src/app/admin/categories/add/page.js:18 | `<digits>-<slug>.<ext>` starts with the digits then '-', and ends with the extension |
| Text.DashMiddleDot | src/app/admin/categories/add/page.js:18 | in `<digits>-<middle>.<ext>` the middle is exactly the text between the '-' and the '.' before the extension |
| Text.PrefixedDigitsDotExtension | src/lib/appwrite/services/brand.service.js:11 | `<prefix>-<digits>.<ext>` keeps the prefix, the digits after it and the extension |
| Seqs.Filter | src/app/admin/brands/page.js:40-43 | `filter` keeps only elements of the input that pass, and never more of them |
| Seqs.FilterKeeps | src/app/admin/brands/page.js:40-43 | every element that passes is kept |
| Seqs.FilterIsSubsequence | src/app/admin/categories/page.js:36-38 | the filtered list is a subsequence of the input, so order is preserved |
| Seqs.FilterAll | src/app/admin/categories/page.js:36-38 | when every element passes, the list is unchanged |
| Seqs.FilterSame | src/app/admin/brands/page.js:40-43 | two tests that agree on the elements filter alike |
| Seqs.FilterEmptyIff | src/app/admin/categories/page.js:36-38 | the result is empty exactly when no element passes |
| Seqs.RemoveAt | src/app/admin/products/add/page.js:235-236 | `filter((_, i) => i !== index)` removes exactly the element at `index`; an out-of-range index removes nothing |
| Json.IdText | src/app/admin/brands/page.js:53 | an id read from a field is non-empty exactly when the field holds a truthy string |
| Json.Spread | src/hooks/useAuth.js:20 | `{...a, ...b}` has the keys of both, `b`'s values where both have one |
| Remote.EnvValue | src/lib/appwrite/services/category.service.js:38 | an unset variable renders as "undefined" |
| Remote.FileViewUrlInjective | src/lib/appwrite/services/category.service.js:37-39 | equal view URLs in one bucket have equal file ids |
| Remote.FileViewUrlBucket | src/app/admin/categories/add/page.js:86 | two view URLs of one file agree exactly when their buckets do |
| Remote.StopsAtRejection | src/lib/appwrite/services/category.service.js:41-66 | the definition: every request of an `await` sequence inside one `try`, except the last, was answered |
| Remote.Invoke | src/lib/appwrite/services/category.service.js:32-34 | one request; a rejection is rethrown as the operation prefix followed by the backend message |
| Uploads.ImageError | src/app/admin/categories/add/page.js:38-47 | a type outside the allow-list is rejected before the size is looked at; a file is accepted exactly when its type is allowed and its size is at most 2 MiB |
| Uploads.SizeCeiling | src/app/admin/categories/sub/add/page.js:46-49 | exactly 2 097 152 bytes is accepted, one byte more is rejected as too large |
| CategoryService.TimestampName | src/lib/appwrite/services/category.service.js:8-10 | the definition `<seconds>.<extension>`; its properties are the ensures of TimestampNameParts and TimestampNameIgnoresBase |
| CategoryService.TimestampNameParts | src/lib/appwrite/services/category.service.js:8-10 | the renamed file starts with the seconds of the clock, which read back from its leading digits, followed directly by '.', and keeps the original extension |
| CategoryService.TimestampNameIgnoresBase | src/lib/appwrite/services/category.service.js:153-155 | the rename depends only on the clock and the extension, never on the rest of the caller's name |
| CategoryService.GetIconUrl | src/lib/appwrite/services/category.service.js:37-39 | the definition: the view URL of the id in the category bucket; its shape and injectivity are the ensures of GetIconUrlShape |
| CategoryService.GetSubCategoryImageUrl | src/lib/appwrite/services/category.service.js:173-175 | the definition: the view URL of the id in the sub-category bucket; its shape is the ensures of GetSubCategoryImageUrlShape |
| CategoryService.GetIconUrlShape | src/lib/appwrite/services/category.service.js:37-39 | the icon URL is the fixed view-URL frame around the category bucket and the id, and distinct ids give distinct URLs |
| CategoryService.GetSubCategoryImageUrlShape | src/lib/appwrite/services/category.service.js:173-175 | the same frame over the sub-category bucket; it equals the icon URL exactly when the two bucket variables agree |
| CategoryService.UploadIcon | src/lib/appwrite/services/category.service.js:5-35 | the old icon is deleted first only when an old id is given; the upload of the renamed file is attempted whether that deletion failed or not; success returns the new id |
| CategoryService.DeleteIcon | src/lib/appwrite/services/category.service.js:114-123 | one file deletion in the category bucket; a rejection carries the icon prefix |
| CategoryService.WithNewIcon | src/lib/appwrite/services/category.service.js:48-52 | the payload is the caller's data with only `icon` and `iconUrl` replaced by the new id and its URL |
| CategoryService.UpdateCategoryWithIcon | src/lib/appwrite/services/category.service.js:41-66 | without a new file, the caller's data is sent unchanged. With one, the upload precedes the update and a failed upload stops before it. Success returns the backend's updated document; every failure carries the update prefix |
| CategoryService.CategoryDocument | src/lib/appwrite/services/category.service.js:74-80 | exactly name, icon, iconUrl, isActive and createdAt are forwarded, each read from the caller's data |
| CategoryService.CreateCategory | src/lib/appwrite/services/category.service.js:68-85 | one create of the projected document; success returns the backend's stored document, a rejection carries the create prefix |
| CategoryService.DeleteCategory | src/lib/appwrite/services/category.service.js:102-112 | one document deletion; a rejection carries the delete prefix |
| CategoryService.GetAllCategories | src/lib/appwrite/services/category.service.js:87-100 | one list request on the category collection with the single query `orderDesc('createdAt')`; success returns the response's `documents`, a rejection carries the fetch prefix |
| CategoryService.UploadSubCategoryImage | src/lib/appwrite/services/category.service.js:150-171 | one upload of the renamed file to the sub-category bucket; success returns the id |
| CategoryService.SubCategoryDocument | src/lib/appwrite/services/category.service.js:183-190 | exactly the six sub-category fields are forwarded, each read from the caller's data |
| CategoryService.CreateSubCategory | src/lib/appwrite/services/category.service.js:177-195 | one create of the projected document; success returns the backend's stored document, a rejection carries the create prefix |
| CategoryService.GetAllSubCategories | src/lib/appwrite/services/category.service.js:197-210 | one list request on the sub-category collection with the single query `orderDesc('createdAt')`; success returns the response's `documents`, a rejection carries the fetch prefix |
| CategoryService.DeleteSubCategory | src/lib/appwrite/services/category.service.js:212-222 | one document deletion; a rejection carries the delete prefix |
| CategoryService.DeleteSubCategoryImage | src/lib/appwrite/services/category.service.js:224-233 | one file deletion in the sub-category bucket; a rejection carries the image prefix |
| BrandService.Sanitize | src/lib/appwrite/services/brand.service.js:9 | one output character per input character, letters lowercased and every other character '-', so only slug characters remain |
| BrandService.SanitizeKeepsEveryHyphen | src/lib/appwrite/services/brand.service.js:9 | runs of hyphens are neither collapsed nor trimmed: 'A  B!' gives 'a--b-' |
| BrandService.BrandFileName | src/lib/appwrite/services/brand.service.js:8-11 | the definition `<sanitised>-<seconds>.<extension>`; its parts are the ensures of BrandFileNameParts |
| BrandService.BrandFileNameParts | src/lib/appwrite/services/brand.service.js:8-11 | the brand file name is the sanitised name, '-', the seconds directly followed by '.', then the original extension |
| BrandService.UploadIcon | src/lib/appwrite/services/brand.service.js:5-27 | one upload of the renamed file to the brand bucket; success returns the id |
| BrandService.GetIconUrl | src/lib/appwrite/services/brand.service.js:29-31 | the definition: the view URL of the id in the brand bucket; its shape and injectivity are the ensures of GetIconUrlShape |
| BrandService.GetIconUrlShape | src/lib/appwrite/services/brand.service.js:29-31 | the view-URL frame over the brand bucket; distinct ids give distinct URLs |
| BrandService.CreateBrand | src/lib/appwrite/services/brand.service.js:33-44 | the caller's data goes to 'brands' unchanged; success returns the backend's stored document, a rejection carries the create prefix |
| BrandService.DeleteIcon | src/lib/appwrite/services/brand.service.js:46-55 | one file deletion in the brand bucket; a rejection carries the icon prefix |
| BrandService.GetBrands | src/lib/appwrite/services/brand.service.js:57-67 | one list request on 'brands' with no query; success returns the response's `documents`, a rejection carries the fetch prefix |
| BrandService.DeleteBrand | src/lib/appwrite/services/brand.service.js:69-79 | one document deletion in 'brands'; a rejection carries the delete prefix |
| ProductService.ProductDocument | src/lib/appwrite/services/product.service.js:20-29 | exactly seven fields are read from the caller's data (undefined where absent), plus `status` forced to 'active' |
| ProductService.StatusAlwaysActive | src/lib/appwrite/services/product.service.js:28 | whatever status the caller passes, the stored document is the same |
| ProductService.CreateProduct | src/lib/appwrite/services/product.service.js:15-31 | one create in 'products'; a rejection reaches the caller with the backend's own message |
| ProductService.UpdatePayload | src/lib/appwrite/services/product.service.js:53-56 | the caller's fields unchanged plus `updatedAt` |
| ProductService.UpdatePayloadOverrides | src/lib/appwrite/services/product.service.js:55 | a caller-supplied `updatedAt` is overridden |
| ProductService.UpdateProduct | src/lib/appwrite/services/product.service.js:48-58 | one update with the stamped payload; a rejection carries the backend's own message |
| CategoryAddPage.Collapse | src/app/admin/categories/add/page.js:14 | `replace(/-+/g, '-')` leaves no two adjacent hyphens, keeps the first and last character, and keeps slug characters; CollapseRun and CollapseWord state what it does run by run |
| CategoryAddPage.StripEdgeHyphens | src/app/admin/categories/add/page.js:15 | removing one leading and one trailing hyphen from a collapsed text leaves no hyphen at either edge |
| CategoryAddPage.StripKeepsInner | src/app/admin/categories/add/page.js:15 | a text with no hyphen at either end is left unchanged by the edge strip |
| CategoryAddPage.Slug | src/app/admin/categories/add/page.js:11-15 | the slug has only `a-z`, `0-9` and '-', no double hyphen, and no hyphen at either edge; SlugSeparatesWords shows a run of separators kept as one '-' |
| CategoryAddPage.HyphenateKeepsAlnums | src/app/admin/categories/add/page.js:13 | the letters and digits survive the replacement, in order |
| CategoryAddPage.CollapseKeepsAlnums | src/app/admin/categories/add/page.js:14 | collapsing hyphens keeps the letters and digits |
| CategoryAddPage.StripKeepsAlnums | src/app/admin/categories/add/page.js:15 | trimming edge hyphens keeps the letters and digits |
| CategoryAddPage.SlugKeepsAlnums | src/app/admin/categories/add/page.js:11-15 | the slug's letters and digits are exactly those of the lowercased name |
| CategoryAddPage.SlugEmptyIff | src/app/admin/categories/add/page.js:11-15 | the slug is empty exactly when the name has no ASCII letter or digit |
| CategoryAddPage.CollapseFixesNoDouble | src/app/admin/categories/add/page.js:14 | a text without double hyphens is left unchanged by the collapse |
| CategoryAddPage.CollapseRun | src/app/admin/categories/add/page.js:14 | a run of one or more hyphens, followed by the end or by another character, becomes exactly one hyphen |
| CategoryAddPage.CollapseOther | src/app/admin/categories/add/page.js:14 | a character other than '-' is kept and the collapse goes on after it |
| CategoryAddPage.CollapseWord | src/app/admin/categories/add/page.js:14 | a stretch without hyphens is kept whole and the collapse goes on after it |
| CategoryAddPage.CollapseTwoWords | src/app/admin/categories/add/page.js:14 | two hyphen-free words around any run of hyphens come out joined by exactly one hyphen |
| CategoryAddPage.SlugSeparatesWords | src/app/admin/categories/add/page.js:11-15 | 'Hello  World' gives 'hello-world': the two spaces become one hyphen between the words |
| CategoryAddPage.CleanSlugFixed | src/app/admin/categories/add/page.js:11-15 | a clean slug is its own slug |
| CategoryAddPage.SlugIdempotent | src/app/admin/categories/add/page.js:11-15 | applying the slug transform twice is applying it once |
| CategoryAddPage.GenerateFileName | src/app/admin/categories/add/page.js:9-19 | the definition `<seconds>-<slug>.<extension>`; its parts are the ensures of GenerateFileNameParts |
| CategoryAddPage.GenerateFileNameParts | src/app/admin/categories/add/page.js:9-19 | the custom name is the seconds (which read back), '-', exactly the slug, '.', and an extension equal to the original one, with no '.' in it |
| CategoryAddPage.CustomNameDiscarded | src/app/admin/categories/add/page.js:74-83 | the service's rename of the custom name equals its rename of the original name, so the custom name has no effect |
| CategoryAddPage.InlineIconUrl | src/app/admin/categories/add/page.js:86 | the definition: the view URL built from the misspelt bucket variable; compared with the service's URL by InlineIconUrlAgreement |
| CategoryAddPage.InlineIconUrlAgreement | src/app/admin/categories/add/page.js:86 | the screen's URL (misspelt `CATRGORY` variable) equals `getIconUrl` exactly when both variables hold the same bucket; unset, it names bucket "undefined" |
| CategoryAddPage.ValidateCategory | src/app/admin/categories/add/page.js:65-71 | 'Category name is required' exactly for an all-white-space name, checked first; 'Category icon is required' exactly for a real name without a file |
| CategoryAddPage.CategoryPayload | src/app/admin/categories/add/page.js:89-96 | the definition: the six fields the screen builds, `fileName` included; what is stored of it is stated by PayloadProjection |
| CategoryAddPage.PayloadProjection | src/app/admin/categories/add/page.js:89-98 | the stored category is the screen's payload without `fileName` |
| CategoryAddPage.SubmitCategory | src/app/admin/categories/add/page.js:64-98 | a validation failure makes no call. Otherwise the renamed upload comes first, and the create follows only after a successful upload, with the trimmed name and the copied `isActive`. Success exactly when the create succeeds |
| CategoryAddPage.SubmitEffect | src/app/admin/categories/add/page.js:59-109 | the reference for one submit: the requests sent and the error shown. Its meaning is stated by the ensures of SubmitCategoryError, SubmitOutcome and CategoryAddForm.HandleSubmit |
| CategoryAddPage.SubmitCategoryError | src/app/admin/categories/add/page.js:65-105 | the requests and the error equal SubmitEffect. A failed check sends nothing and shows its message. A rejected upload shows 'Failed to upload icon: ' plus the backend message, and nothing more is sent. A rejected create shows 'Failed to create category: ' plus its message. The error is empty exactly when the create succeeded |
| CategoryAddPage.SubmitOutcome | src/app/admin/categories/add/page.js:59-109 | the log gains exactly the requests of SubmitEffect, and the error is SubmitEffect's. A check failure leaves the log and route alone. Only a success opens the list |
| CategoryAddPage.CategoryAddForm.constructor | src/app/admin/categories/add/page.js:23-31 | the initial form state: empty name, active, no icon, no error |
| CategoryAddPage.CategoryAddForm.HandleIconSelect | src/app/admin/categories/add/page.js:33-57 | no file changes nothing. A rejected file sets only the error and keeps the previous icon. An accepted file becomes the icon with its preview URL and clears the error |
| CategoryAddPage.CategoryAddForm.HandleSubmit | src/app/admin/categories/add/page.js:59-109 | `requests` gains exactly the requests of SubmitEffect on the form as it was, and the shown error is SubmitEffect's, including the prefixed message after a rejected upload or create. The list page is opened exactly when the create succeeded. Loading ends |
| SubCategoryAddPage.SubCategoryPayload | src/app/admin/categories/sub/add/page.js:72-79 | the definition: the six fields the screen builds; its stored form is stated by PayloadStoredWhole |
| SubCategoryAddPage.PayloadStoredWhole | src/app/admin/categories/sub/add/page.js:72-79 | the projection keeps the whole payload. Without an image, `image` is null and `imageUrl` is ''. With one, `imageUrl` is the sub-category view URL of the id |
| SubCategoryAddPage.CreatePayload | src/app/admin/categories/sub/add/page.js:72-81 | one create whose document is the whole payload; success exactly when the backend accepts it |
| SubCategoryAddPage.UploadAndCreate | src/app/admin/categories/sub/add/page.js:67-81 | the renamed upload comes first, a failed upload stops before the create, and the create carries the uploaded id |
| SubCategoryAddPage.SubmitSubCategory | src/app/admin/categories/sub/add/page.js:62-81 | a blank name fails with 'Sub-category name is required' and makes no call. The upload happens only when a file is selected, and a failed upload stops before the create. Name, parent and description are trimmed, and an empty parent is accepted |
| SubCategoryAddPage.SubmitEffect | src/app/admin/categories/sub/add/page.js:57-92 | the reference for one submit: the requests sent and the error shown. Its meaning is stated by the ensures of SubmitSubCategoryError, SubmitOutcome and SubCategoryAddForm.HandleSubmit |
| SubCategoryAddPage.SubmitSubCategoryError | src/app/admin/categories/sub/add/page.js:61-88 | the requests and the error equal SubmitEffect. A blank name sends nothing. A rejected upload shows 'Failed to upload sub-category image: ' plus the backend message, and no create follows. A rejected create shows 'Failed to create sub-category: ' plus its message. The error is empty exactly when the create succeeded |
| SubCategoryAddPage.SubmitOutcome | src/app/admin/categories/sub/add/page.js:57-92 | the log gains exactly the requests of SubmitEffect, and the error is SubmitEffect's. A blank name leaves the log and route alone. Only a success opens the list |
| SubCategoryAddPage.SubCategoryAddForm.constructor | src/app/admin/categories/sub/add/page.js:11-21 | the initial form state |
| SubCategoryAddPage.SubCategoryAddForm.HandleImageSelect | src/app/admin/categories/sub/add/page.js:37-55 | a rejected file sets only the error; an accepted one becomes the image, with its preview, and clears the error |
| SubCategoryAddPage.SubCategoryAddForm.HandleSubmit | src/app/admin/categories/sub/add/page.js:57-92 | `requests` gains exactly the requests of SubmitEffect on the form as it was, and the shown error is SubmitEffect's, including the prefixed message after a rejected upload or create. The list page is opened exactly when the create succeeded |
| ProductAddPage.InitialForm | src/app/admin/products/add/page.js:161-197 | the form has its 35 fields, unit 'g', origin 'India', live, not food, and a minimum order of '1' |
| ProductAddPage.FormLacksPriceAndImage | src/app/admin/products/add/page.js:161-197 | the form has no `price` and no `image` field |
| ProductAddPage.NewVariation | src/app/admin/products/add/page.js:244-253 | a new variation takes its name and unit from the form; its other six fields are '' |
| ProductAddPage.ValidateProduct | src/app/admin/products/add/page.js:272-280 | 'Please fill all required fields' exactly when name, category or type is falsy. 'FSSAI License is required for food items' exactly when those are present and a food item lacks a licence |
| ProductAddPage.WhitespaceNameAccepted | src/app/admin/products/add/page.js:273 | a name of one space passes the required-field check |
| ProductAddPage.UploadRequests | src/app/admin/products/add/page.js:285-291 | one `createFile` request per selected file, in selection order, in the product bucket |
| ProductAddPage.FirstRejectionMessage | src/app/admin/products/add/page.js:293 | the reason `Promise.all` rejects with, taken in selection order: the first rejected upload's message. Its meaning is stated by the ensures of FirstRejectionMessageSpec |
| ProductAddPage.FirstRejectionMessageSpec | src/app/admin/products/add/page.js:293 | FirstRejectionMessage is absent exactly when every request was answered. Otherwise it is the message of the first rejected request |
| ProductAddPage.UploadAll | src/app/admin/products/add/page.js:284-294 | the requests are UploadRequests: one upload per selected file, in selection order. Success exactly when all succeed, giving the ids in order. Otherwise the failure is the first rejected upload's message, via FirstRejection and FirstRejectionMessage |
| ProductAddPage.UploadAndCreate | src/app/admin/products/add/page.js:282-305 | the uploads come first, in order. The create follows only when all succeeded, with the existing ids and then the new ones. A failed upload stops before the create and fails with that upload's message. A rejected create fails with the backend message |
| ProductAddPage.ProductPayload | src/app/admin/products/add/page.js:297-303 | the form's fields plus the image ids, the variations (none unless enabled), a status of 'active' exactly when live (else 'inactive'), and the creation time |
| ProductAddPage.StoredPayload | src/lib/appwrite/services/product.service.js:20-29 | for a payload built from a form without `price` and `image`, the stored status is 'active' whatever `isLive` says, `price` and `image` are undefined, and the name and category are the form's |
| ProductAddPage.StoredProductLosesFields | src/lib/appwrite/services/product.service.js:23-28 | for an add-form payload the stored status is 'active' even when not live, and `price` and `image` are undefined |
| ProductAddPage.SubmitProduct | src/app/admin/products/add/page.js:270-305 | a check failure makes no call. The uploads come first, then the create with the existing ids followed by the new ones. A failed upload stops before the create and fails with the first rejection's message. A rejected create fails with its raw message |
| ProductAddPage.CaughtError | src/app/admin/products/add/page.js:316 | the text the `catch` shows: `error.message`, or 'Failed to create product' when the message is empty. Used by SubmitEffect, whose equalities with SubmitProductError and ProductForm.HandleSubmit state it |
| ProductAddPage.SubmitEffect | src/app/admin/products/add/page.js:266-321 | the reference for one submit: the requests sent and the error shown, with the fallback text 'Failed to create product' for a rejection whose message is empty. Its meaning is stated by the ensures of SubmitProductError, SubmitOutcome and ProductForm.HandleSubmit |
| ProductAddPage.SubmitProductError | src/app/admin/products/add/page.js:270-317 | the requests and the error equal SubmitEffect. A failed check sends nothing and shows its message. A rejected upload shows the first rejection's message and no create follows. A rejected create shows its message. An empty message shows 'Failed to create product'. The error is empty exactly when the create succeeded |
| ProductAddPage.SubmitOutcome | src/app/admin/products/add/page.js:266-321 | the log gains exactly the requests of SubmitEffect, and the error is SubmitEffect's. The error is empty exactly when the checks pass and the create after all uploads succeeds. Only then are the previews and files cleared, still side by side, and the list opened |
| ProductAddPage.ProductForm.constructor | src/app/admin/products/add/page.js:150-197 | the initial screen state, with empty lists |
| ProductAddPage.ProductForm.SetField | src/app/admin/products/add/page.js:381 | a field editor replaces one form field; the form keeps its key set |
| ProductAddPage.ProductForm.SelectProductType | src/app/admin/products/add/page.js:349-353 | the type is set, and `isFoodItem` is `true` for 'food' and `false` for every other type. No other field changes, so a non-food product skips the FSSAI check |
| ProductAddPage.ProductForm.HandleFileSelect | src/app/admin/products/add/page.js:217-229 | the files are appended, and each preview is appended beside its file, so the two lists stay aligned |
| ProductAddPage.ProductForm.HandleRemovePreview | src/app/admin/products/add/page.js:231-237 | the same index is removed from both lists, which stay aligned |
| ProductAddPage.ProductForm.HandleImageRemove | src/app/admin/products/add/page.js:239-241 | exactly the uploaded id at the index is removed |
| ProductAddPage.ProductForm.HandleVariationAdd | src/app/admin/products/add/page.js:243-254 | one new variation is appended |
| ProductAddPage.ProductForm.HandleVariationChange | src/app/admin/products/add/page.js:256-260 | only the given field of the variation at the index changes |
| ProductAddPage.ProductForm.HandleVariationRemove | src/app/admin/products/add/page.js:262-264 | exactly the variation at the index is removed |
| ProductAddPage.ProductForm.SetHasVariations | src/app/admin/products/add/page.js:759 | the checkbox sets the flag |
| ProductAddPage.ProductForm.HandleSubmit | src/app/admin/products/add/page.js:266-321 | `requests` gains exactly the requests of SubmitEffect on the form as it was, and the shown error is SubmitEffect's, including the fallback text after a rejection with an empty message. Success, exactly when the create after all uploads is accepted, clears previews and files and opens the product list. A failure keeps them |
| BrandsPage.Matches | src/app/admin/brands/page.js:41-42 | the definition of the search test: the lowercased query in the lowercased name, or in the description when there is one |
| BrandsPage.FilterBrands | src/app/admin/brands/page.js:39-45 | a brand is kept exactly when the lowercased query occurs in its lowercased name or description. A brand without a description is matched on its name only. Order is preserved |
| BrandsPage.EmptyQueryKeepsAll | src/app/admin/brands/page.js:40-43 | an empty query keeps every brand |
| BrandsPage.QueryCaseIgnored | src/app/admin/brands/page.js:41-42 | the query's case does not matter |
| BrandsPage.HandleDelete | src/app/admin/brands/page.js:47-62 | a declined prompt makes no call. The icon is deleted first, and only for a truthy id. A failed icon deletion leaves the brand document. Success refreshes the list |
| CategoriesPage.Matches | src/app/admin/categories/page.js:37 | the definition of the search test: the lowercased term in the lowercased name |
| CategoriesPage.FilterCategories | src/app/admin/categories/page.js:36-38 | a category is kept exactly when the lowercased term occurs in its lowercased name; order is preserved |
| CategoriesPage.EmptyTermKeepsAll | src/app/admin/categories/page.js:36-38 | an empty term keeps every category |
| CategoriesPage.NoMatchIff | src/app/admin/categories/page.js:36-38 | nothing is listed exactly when no name contains the term |
| CategoriesPage.HandleDelete | src/app/admin/categories/page.js:41-52 | a declined prompt makes no call. The document is deleted before the icon, and the icon deletion is attempted whatever its id. A failed document deletion attempts no icon deletion |
| SubCategoriesPage.CategoryMap | src/app/admin/categories/sub/page.js:37-40 | the definition: the map after each assignment in order; its keys and last-wins rule are stated by CategoryMapKeys and CategoryMapLastWins |
| SubCategoriesPage.CategoryMapKeys | src/app/admin/categories/sub/page.js:37-40 | the map's keys are exactly the fetched category ids |
| SubCategoriesPage.CategoryMapLastWins | src/app/admin/categories/sub/page.js:37-40 | under a repeated id the map holds the last category with it |
| SubCategoriesPage.BuildCategoryMap | src/app/admin/categories/sub/page.js:34-45 | the `forEach` loop builds that map |
| SubCategoriesPage.ParentLine | src/app/admin/categories/sub/page.js:106-118 | a parent line appears exactly when the parent id is a key, and shows that category's name |
| SubCategoriesPage.ParentShownIff | src/app/admin/categories/sub/page.js:106 | a parent line appears exactly when some fetched category has the parent id |
| SubCategoriesPage.HandleDelete | src/app/admin/categories/sub/page.js:47-59 | no prompt. The document is always deleted first, and the image only for a truthy id. A failure stops the sequence. Success refreshes the list |
| SubCategoriesPage.DeleteRow | src/app/admin/categories/sub/page.js:132 | the row reads `imageId`; a row without that field deletes no file |
| SubCategoriesPage.StoredImageNeverDeleted | src/app/admin/categories/sub/page.js:132 | a sub-category created with an image stores it under `image` and has no `imageId`, so its row never deletes the file |
| SubCategoriesPage.DeleteRowIntended | src/app/admin/categories/sub/page.js:132 | read from `image`, a stored image id is deleted right after the document |
| SubCategoriesPage.IntendedDeletesStoredImage | src/app/admin/categories/sub/add/page.js:76 | the stored `image` field yields the uploaded id |
| DashboardSlider.NextSlide | src/components/admin/dashboard/DashboardSlider.js:32-34 | a tick moves i to i+1 below the last index and the last index to 0, staying in range: i+1 modulo 3 |
| DashboardSlider.TicksAdvance | src/components/admin/dashboard/DashboardSlider.js:31-35 | n ticks from a valid index advance it by n modulo the slide count |
| DashboardSlider.FullRound | src/components/admin/dashboard/DashboardSlider.js:31-35 | three ticks return to the starting slide |
| DashboardSlider.VisibleSlides | src/components/admin/dashboard/DashboardSlider.js:45-47 | exactly one slide is shown, the current one |
| DashboardSlider.Slider.constructor | src/components/admin/dashboard/DashboardSlider.js:28 | the slider starts at slide 0 |
| DashboardSlider.Slider.Tick | src/components/admin/dashboard/DashboardSlider.js:32-34 | a tick applies the wrap-around step and keeps the index in range |
| DashboardSlider.Slider.Click | src/components/admin/dashboard/DashboardSlider.js:75 | clicking dot k shows slide k |
| UseAuth.ProtectionRedirect | src/hooks/useAuth.js:119-134 | no redirect while loading. A guarded page sends a signed-out visitor to '/auth/login'. A guest page sends a signed-in user to '/'. Nothing otherwise |
| UseAuth.ProfileCall | src/hooks/useAuth.js:19 | `getUserProfile(session.$id)`: one document read in the 'users' collection (src/lib/appwrite/client.js:8, 37-48) under the account's `$id`. FetchUser and AuthState.CheckAuth ensure this is the request that follows the account read |
| UseAuth.FetchUser | src/hooks/useAuth.js:16-20 | the account, then its profile. The user is the account overlaid by the profile (profile fields win), or null when either request fails |
| UseAuth.AuthState.constructor | src/hooks/useAuth.js:7-9 | no user, loading, no error |
| UseAuth.AuthState.IsAuthenticated | src/hooks/useAuth.js:114 | the definition `!!user`: a user is present |
| UseAuth.AuthState.CheckAuth | src/hooks/useAuth.js:14-27 | the account request is sent. Only when it is answered does the profile request for that account's own `$id` follow. The user becomes the account overlaid by that profile, or null on any failure. Loading ends |
| UseAuth.AuthState.Logout | src/hooks/useAuth.js:72-81 | the current session is deleted. The user is cleared and the login page opened only when that succeeds. A failure keeps the user and records the message |
| UseAuth.AuthState.UpdateProfile | src/hooks/useAuth.js:84-99 | without a user id, 'User not found' and no call. Otherwise the update's answer is merged over the user, or its error recorded |
| UseAdminAuth.AdminRedirect | src/hooks/useAdminAuth.js:13-25 | no decision while loading; no user gives '/admin/login'; a non-admin gives '/'; an admin stays |
| UseAdminAuth.IsAdmin | src/lib/appwrite/services/auth.service.js:38-49 | an admin exactly when the profile read succeeds with role 'admin' |
| UseAdminAuth.CheckAdminStatus | src/hooks/useAdminAuth.js:12-28 | nothing while loading. With no user, '/admin/login' without asking the backend. Otherwise one profile read decides, with no redirect exactly for an admin |

## Findings

| source | as written | input that shows it | evidently intended | confidence | as-written member | corrected member |
|---|---|---|---|---|---|---|
| src/app/admin/categories/sub/page.js:132 | the delete button passes `subCategory.imageId`, but creation stores the file id under `image` (src/app/admin/categories/sub/add/page.js:76) | a sub-category created with an uploaded image `f1`: its row has `image: 'f1'` and no `imageId`, so `handleDelete` deletes the document and never the file | pass `subCategory.image`, so the image file is deleted after the document | high, not executed | SubCategoriesPage.StoredImageNeverDeleted | SubCategoriesPage.DeleteRowIntended |

The other oddities are modelled as written and proved as properties:

- The add-category screen builds its icon URL from the misspelt `CATRGORY` variable (`CategoryAddPage.InlineIconUrlAgreement`).
- `createProduct` stores `status: 'active'` for every product.
- `createProduct` reads `price` and `image`, which the add form never sends (`ProductAddPage.StoredProductLosesFields`).
- The custom category file name is discarded by the service's rename (`CategoryAddPage.CustomNameDiscarded`).

## Left out

- Network and concurrency. Appwrite requests are modelled only as the `respond` oracle and the recorded traces. The oracle is deterministic per request, and the `Promise.all` uploads are taken in selection order.
- ProductAddPage.UploadAll: does not model uploads running in parallel. It reports the first rejected upload in selection order, where `Promise.all` reports the first to reject in time.
- What the backend does with a list query. The `orderDesc('createdAt')` query is part of the recorded request, but the documents returned are whatever the `respond` oracle answers, so their order is not stated.
- The clock and `ID.unique()`. Times and ids are parameters, and a created file's id is the id that was requested.
- Text.Lower: ASCII only. Letters outside A–Z are not lowercased, as `toLowerCase` would do.
- The regular expressions are modelled as explicit character functions over ASCII, applied to Unicode code points. JavaScript strings are UTF-16 code units, so a character outside the Basic Multilingual Plane (an emoji) becomes two hyphens in the source and one in the model.
- Json.IdText: an id field holding a truthy non-string value is read as the falsy id. The backend's documents hold ids only as strings.
- UseAuth.FetchUser: does not model the `if (session)` test as able to fail. The account request answers with an object, which is always truthy.
- Browser APIs are parameters or absent: `URL.createObjectURL`/`revokeObjectURL`, `new File(...)`, `window.confirm` (a `confirmed` flag), the router (a `redirect` field) and toasts (a returned message).
- Logging is left out: `console.*`.
- Slider timing is left out: the `setInterval` period and its cleanup. Only the tick transition is modelled.
- `fetchBrands`, `fetchCategories` and `fetchSubCategories` after a delete are modelled as the list request they issue. Storing the result, and their own error messages, are left out.
- The product form's `loadFormData` is left out. It calls `productService.getAllCategories`/`getAllBrands`, which do not exist in src/lib/appwrite/services/product.service.js.
- `ProductImages` in src/app/admin/products/add/page.js:59-147 is left out. It is never rendered and refers to names not in scope.
- ProductAddPage.ProductForm.HandleVariationChange: does not model aliasing. The source writes into the variation object in place, so the earlier array shares the change; the model replaces the variation in a new sequence.
- Single-request service operations that no modelled screen uses are left out, since each is one request with a prefixed error: `getCategory`, `updateCategory`, `getSubCategory`, `updateSubCategory`, `getBrand`, `updateBrand`, `getAllProducts`, `getProduct` and `deleteProduct`.
- `useAuth`'s `register` and `login` are left out: account creation and sign-in are foreign account calls followed by `checkAuth`, which is modelled.
- All JSX, styling and layout are left out.
