# PART_CAR in Dafny

PART_CAR is a small car-parts shop: a Node.js HTTP server over an SQLite database,
a public storefront and an admin panel written as browser scripts. This project models
the logic of that code and proves properties about it.

- **Server** (`server.js`). The body collector, the router chain, and product and branch
  create/update/delete. It also covers the settings blob, image upload from a `data:` URL,
  and the static file server. The server is a class whose fields are the two tables, their
  id sequences, the settings row and the set of readable files. `Handle` runs one request
  against that state. Its contract is the `Effect` predicate, which gives the whole new state
  and the response for every route.
- **Admin pages** (`admin-products.js`, `admin-branches.js`). The multi-term search. Form
  validation and the choice of product image. Whether a submission adds a row or updates one,
  and which path the update is sent to.
- **Storefront** (`main.js`). The product search, the four featured products, the WhatsApp
  link rule and the bottom navigation bar.
- **Login** (`admin.js`). The account check and the local-storage flag, modelled as a class.
  Also the `checkAuth` redirect rule and the admin navigation bar.

Modules, one per file:
- `Wrappers` and `Text`: the JavaScript string operations the code relies on.
- `Lists`: filter, map and slice.
- `Tables`: SQL INSERT/UPDATE/DELETE/SELECT on a table with an AUTOINCREMENT key.
- `Records`, `Http`, `Router`, `Upload`, `StaticFiles` and `Server`.
- `ApiClient`: how the browser builds its request paths.
- `Search` and `Navigation`: the logic the pages share.
- `AdminProducts`, `AdminBranches`, `Storefront` and `AdminAuth`.

Parameters stand in for these:
- the clock (`Date.now()`, `datetime('now')`);
- the random file-name suffix;
- `JSON.parse`;
- whether a file write succeeds;
- the files present on disk.

## Model

| member | source | states |
|---|---|---|
| Server.Concat | server.js:76-77 | the body is the chunks joined in arrival order |
| Server.ConcatAppend | server.js:77 | joining the decoded chunks distributes over concatenation of the chunk list |
| Server.CollectJson | server.js:75-81 | the loop that appends chunks yields exactly `ParseBody` of the joined chunks |
| Server.BadBodyMeansEmptyFields | server.js:79 | an empty or malformed body stores every product and branch field as "" and the settings as `{}` |
| Server.SentProductIsStored | server.js:75-120 | a product body that the page serialised and that parses back is stored exactly as sent |
| Server.SentBranchIsStored | server.js:75-152 | the same for a branch body |
| Records.ProductRoundTrip | server.js:116 | a body naming every product field is stored exactly as sent |
| Records.BranchRoundTrip | server.js:148 | the same for branch fields |
| Records.EmptyBodyDefaults | server.js:116-148 | a body without the entity's keys gives all-empty fields |
| Records.ProductIgnoresOtherMembers | server.js:116 | extra members such as `id` do not affect the stored product |
| Records.BranchIgnoresOtherMembers | server.js:148 | extra members do not affect the stored branch |
| Records.SeededSettings | server.js:70-71 | a missing settings row is seeded with the three empty keys; an existing row is kept |
| Records.SeedingIsIdempotent | server.js:70-71 | running the seeding statement again changes nothing |
| Router.EffectiveMethod | server.js:85 | a missing method is GET, any other method is kept |
| Router.PathId | server.js:124 | the id of an id path is the number its digits denote |
| Router.Dispatch | server.js:98-208 | OPTIONS is answered first; non-`/api/` paths are static; each literal API path is reached exactly by its own method; update and delete are reached exactly on `<prefix><digits>` with PUT or DELETE and keyed by those digits; every `/api/` request without a handler is the JSON 404 |
| Router.RenderedIdRoutes | server.js:123-167 | the path built from a rendered id reaches that id for all four id routes |
| Router.LeadingZerosRoute | server.js:134-135 | `007` names row 7 |
| Router.NonDigitIsNotIdPath | server.js:123 | one non-digit in the suffix makes the path fail the `\d+$` test |
| Router.MalformedIdPathsAreNotFound | server.js:123-208 | letters, `NaN`, a sign, a trailing slash and a missing id all get the JSON 404 |
| Router.IdLikeNotFound | server.js:123-208 | a PUT or DELETE under `/api/` that is neither an id path nor `/api/settings` gets the JSON 404 |
| Router.MissingMethodIsGet | server.js:85 | a request without a method is routed as GET |
| Router.WrongMethodIsNotFound | server.js:105-208 | literal endpoints accept only their own methods; `/api` without a slash is static |
| Tables.Insert | server.js:117-152 | INSERT appends a row with the next sequence value and keeps the table well formed |
| Tables.Update | server.js:127-161 | UPDATE rewrites exactly the row with that id and keeps length and order |
| Tables.MatchingCount | server.js:130-162 | `changes` is 1 when the id is present and 0 otherwise |
| Tables.UpdateKeepsWellFormed | server.js:127-129 | UPDATE keeps ids unique, ascending and within the sequence |
| Tables.UpdateAbsent | server.js:130 | UPDATE of a missing id changes nothing |
| Tables.UpdateIdempotent | server.js:127-129 | running the same UPDATE twice is running it once |
| Tables.FilterKeepsAscending | server.js:136-168 | removing rows keeps the ids in ascending order |
| Tables.DeleteIdSet | server.js:136-168 | after DELETE the ids are the previous ids minus that one |
| Tables.DeleteKeepsWellFormed | server.js:136-168 | DELETE keeps the table well formed |
| Tables.DeleteRemovesExactlyOne | server.js:136-169 | DELETE removes one row when the id is present and none otherwise |
| Tables.DeleteTwice | server.js:136-137 | a second DELETE of the same id removes nothing |
| Tables.DeleteKeepsOthers | server.js:136-168 | every other row survives a DELETE unchanged |
| Tables.ListDescending | server.js:111-143 | the listing has one record per row, newest first, with strictly decreasing ids |
| Tables.ListDescendingHoldsEveryRow | server.js:111-143 | every row appears in the listing and nothing else does |
| Tables.ListAfterInsert | server.js:111-119 | after an INSERT the listing is the new record followed by the old listing |
| Server.Server.Open | server.js:47-71 | opening keeps existing tables and seeds the settings row once |
| Server.Server.ListProducts | server.js:110-113 | 200 with all products, newest first |
| Server.Server.CreateProduct | server.js:114-122 | one new row with a never-issued id larger than all earlier ids; 201 echoes it |
| Server.Server.UpdateProduct | server.js:123-133 | the row with that id is overwritten and echoed, or 404 with nothing changed |
| Server.Server.DeleteProduct | server.js:134-139 | the row is removed with `{ok:true}`, or 404 when no row matched |
| Server.Server.ListBranches | server.js:142-145 | 200 with all branches, newest first |
| Server.Server.CreateBranch | server.js:146-154 | one new branch with a fresh, larger id; 201 echoes it |
| Server.Server.UpdateBranch | server.js:155-165 | the branch is overwritten and echoed, or 404 with nothing changed |
| Server.Server.DeleteBranch | server.js:166-171 | the branch is removed, or 404 |
| Server.Server.GetSettings | server.js:174-178 | 200 with the stored blob |
| Server.Server.PutSettings | server.js:179-185 | the body (or `{}`) replaces the whole blob, so keys it omits are gone; the reply echoes it |
| Server.Server.UploadImage | server.js:188-205 | the answer is the upload handler's, and only a written file is added to the readable files |
| Server.Server.ServeStatic | server.js:212-252 | the static answer for the resolved path |
| Server.Server.Query | server.js:98-252 | each read-only route answers from the current state |
| Server.Server.ProductWrite | server.js:114-139 | create, update and delete of products establish `ProductEffect` and change nothing else |
| Server.Server.BranchWrite | server.js:146-171 | the same for branches |
| Server.Server.Handle | server.js:83-253 | one request keeps the invariant and has exactly the effect its route promises, on every route |
| Server.CorsOnApiResponses | server.js:87-252 | every answer to OPTIONS or to an `/api/` path has the JSON content type and the three CORS headers; no other answer has a CORS header |
| Server.StaticHasNoCors | server.js:220-251 | the redirect, a served file and the HTML 404 carry no CORS header |
| Server.Server.DeleteProductTwice | server.js:134-139 | a second delete of the same id answers 404 and changes nothing |
| Server.Server.CreateDeleteCreate | server.js:117-136 | an id is never reused after a delete |
| Server.Server.PutThenGetSettings | server.js:174-185 | a stored blob is what the next GET returns |
| Server.Server.UploadThenFetch | server.js:188-252 | a successful upload is served from its URL as `image/png` or `image/jpg` |
| Server.UploadedFileIsServed | server.js:197-228 | an uploaded image's URL resolves to the file written for it, with its image type |
| Upload.MatchDataUrl | server.js:193 | a match has an accepted subtype, any letter case in the literal parts, and a non-empty payload without line terminators |
| Upload.MatchDataUrlComplete | server.js:193 | every string of the regular expression's shape is matched, with its captures |
| Upload.MatchDataUrlSound | server.js:193 | a match takes the string apart exactly into prefix, subtype, separator and payload |
| Upload.WrongTypeIsRejected | server.js:193-194 | GIF, an empty payload and "" are refused |
| Upload.ExtensionOfSubtype | server.js:195 | png for PNG; jpg for JPG and JPEG in any case |
| Upload.StoreImage | server.js:196-203 | a successful write answers 201 with the file's URL; a failed one answers 500 and writes nothing |
| Upload.UploadImage | server.js:188-205 | 201 iff the data URL matches and the write succeeds; 400 iff it does not match; otherwise 500 |
| Upload.WrittenPathIsServedPath | server.js:197-200 | the path written is `./src` plus the URL returned |
| Upload.FileNameShape | server.js:197 | a file name has no `/` and its only `.` is before the extension |
| StaticFiles.Lookup | server.js:10-27 | a key found in the table maps to its value; a missing key is in no entry |
| StaticFiles.MimeFor | server.js:228 | a listed extension gets its type and any other gets `text/plain` |
| StaticFiles.StripTrailingSlashes | server.js:227 | only trailing slashes are removed |
| StaticFiles.ExtName | server.js:227 | the extension is empty exactly when the base name has no `.` after its first character or is `..`; otherwise it is a `.` followed by no `.` or `/`, ending the base name |
| StaticFiles.Resolve | server.js:212-252 | exact `/admin` redirects; a readable file is served with its extension's type; an extensionless miss falls back to `.html`; otherwise 404 |
| StaticFiles.ExtNameOfFile | server.js:227 | `<dir>/<stem>.<ext>` has extension `.<ext>` |
| StaticFiles.HomePage | server.js:214-249 | `/` serves `./src/index.html` as `text/html` |
| StaticFiles.CleanUrlFallsBackToHtml | server.js:232-241 | `/about` is served from `about.html` when `about` is missing |
| StaticFiles.PngMime | server.js:15 | `.png` is served as `image/png` |
| StaticFiles.JpgMime | server.js:16 | `.jpg` is served as `image/jpg` |
| StaticFiles.OnlyExactAdminRedirects | server.js:221-225 | `/admin` redirects to the dashboard; `/admin/` does not |
| Lists.Filter | src/js/main.js:160-166 | the result holds exactly the passing elements, in order, and no more elements than the input |
| Lists.FilterMultiplicity | src/js/main.js:160 | each passing element is kept as often as it occurs |
| Lists.Take | src/js/main.js:186 | `slice(0, n)` is the first `min(n, length)` elements |
| Text.Trim | src/js/admin-branches.js:125-128 | the result is the input with its leading and trailing white space cut off, and it neither starts nor ends with white space |
| Text.TrimIdempotent | src/js/admin-branches.js:125-128 | trimming a trimmed string changes nothing |
| Text.TrimLowerCommute | src/js/main.js:137 | trimming and ASCII lower-casing commute |
| Text.SplitOnSpaces | src/js/main.js:157 | the pieces contain no white space, and there is at least one |
| Text.SplitRoundTrip | src/js/main.js:157 | the pieces are the text between the runs of white space: one non-empty white-space run between each two pieces, and putting the runs back gives the input |
| Text.SplitTrimmedHasNoEmptyTerm | src/js/admin-products.js:260-269 | a trimmed, non-empty term splits into non-empty words |
| Text.LastSegment | src/js/main.js:222 | `split('/').pop()` is a `/`-free suffix preceded by a `/` or the start |
| Text.NatToStringRoundTrip | src/js/data.js:29 | an id is rendered as decimal digits that denote it |
| Text.ParseIntOfNatToString | src/js/admin-products.js:177 | `parseInt` of a rendered id gives the id back |
| Search.Select | src/js/admin-products.js:260-280 | an empty term keeps everything; otherwise exactly the items whose fields hold every term, in order |
| Search.SelectCounts | src/js/admin-products.js:275-280 | nothing is added or duplicated |
| Search.SelectMap | src/js/admin-products.js:275-280 | converting items before or after the search is the same when it keeps the searched fields |
| Search.Normalize | src/js/admin-products.js:260 | the normalised term has no white space at either end |
| Search.NormalizeEitherOrder | src/js/main.js:137 | lower-then-trim gives the same term as trim-then-lower |
| AdminProducts.SearchProducts | src/js/admin-products.js:256-280 | an empty term shows every product; otherwise a product is kept iff each term is in its name or models, in list order |
| AdminProducts.MissingFieldIsEmpty | src/js/admin-products.js:276-277 | a missing name is searched as "" |
| AdminProducts.SearchAddsNothing | src/js/admin-products.js:275-280 | each product occurs in the result as often as in the list, or not at all |
| AdminProducts.SubmitProductForm | src/js/admin-products.js:125-195 | rejected iff name or models is empty; an update keyed by `parseInt(id)` iff the id is non-empty; otherwise an add |
| AdminProducts.SubmittedImagePrecedence | src/js/admin-products.js:147-172 | the stored image of a valid form: a chosen file over the current image, a non-empty current image over the placeholder, the placeholder after a failed read; a URL current image is kept as it is; the current image is ignored once a file was chosen or failed |
| AdminProducts.PlaceholderIsNotUploaded | src/js/admin-products.js:148-170 | the placeholder does not start with `data:image`, so it is never uploaded |
| AdminProducts.EditedProductIsUpdated | src/js/admin-products.js:177-183 | a form holding a rendered id updates exactly that product |
| AdminProducts.RefusedDataUrlIsKept | src/js/admin-products.js:170-171 | a data URL the server refuses is stored as the image itself |
| AdminProducts.GifIsStoredInline | src/js/admin-products.js:170-171 | a GIF data URL passes the page's test, is refused by the server, and is stored inline |
| AdminProducts.UpperCaseDataUrlIsNotUploaded | src/js/admin-products.js:170 | an upper-case `DATA:IMAGE/` URL the server would accept is not uploaded |
| AdminProducts.AcceptedDataUrlIsUploaded | src/js/admin-products.js:169-172 | an accepted data URL is replaced by `/uploads/images/<file name>` |
| ApiClient.IdText | src/js/data.js:29 | a non-negative id renders as its digits; NaN and negatives start with a non-digit |
| ApiClient.UpdatePathRoutes | src/js/data.js:29-43 | an update reaches the row only when `parseInt` gave a non-negative number; otherwise it gets the JSON 404 |
| AdminBranches.SearchBranches | src/js/admin-branches.js:182-200 | an empty term shows every branch; otherwise a branch is kept iff each term is in its name, address or phone |
| AdminBranches.CoordinatesAreNotSearched | src/js/admin-branches.js:194-199 | whether a branch is found does not depend on its coordinates |
| AdminBranches.CoordinatesOnlyMatchIsDropped | src/js/admin-branches.js:194-199 | a term found only in the coordinates does not select the branch |
| AdminBranches.SubmitBranchForm | src/js/admin-branches.js:124-162 | fields are trimmed; rejected iff name, address or phone is blank; an update keyed by `parseInt` of the untrimmed id iff it is non-empty |
| AdminBranches.SubmittedFieldsAreTrimmed | src/js/admin-branches.js:125-130 | each submitted field is its input with the surrounding white space cut off; no field starts or ends with white space and the required ones are non-empty |
| AdminBranches.ResubmittingChangesNothing | src/js/admin-branches.js:124-130 | submitting the trimmed fields again, with the same id, gives the same submission |
| AdminBranches.BlankNameIsRejected | src/js/admin-branches.js:125-130 | a name of spaces only is rejected |
| AdminBranches.SpaceIdUpdatesNothing | src/js/admin-branches.js:124-146 | an id of one space still chooses an update, whose `NaN` path has no handler |
| Navigation.CurrentPage | src/js/main.js:222 | the last path segment, or the default page when it is empty |
| Navigation.ActiveFlags | src/js/main.js:224-243 | a link is active iff its href equals the current page |
| Navigation.AtMostOneActive | src/js/main.js:224-243 | with distinct hrefs at most one link is active, and one is iff the page has a link |
| Storefront.PerformSearch | src/js/main.js:135-170 | the lower-cased, trimmed term keeps everything when empty; otherwise exactly the products whose name or models hold every term, in order |
| Storefront.PerformSearchCounts | src/js/main.js:160-166 | nothing is added or duplicated |
| Storefront.StorefrontAgreesWithAdmin | src/js/main.js:137-166 | the storefront and the admin search select the same products in the same order |
| Storefront.Featured | src/js/main.js:185-186 | the first `min(4, n)` products in order, and nothing for a missing listing |
| Storefront.FeaturedAreNewest | src/js/main.js:186 | the newest-first listing makes the featured products the newest ones |
| Storefront.SeededStoreKeepsLink | src/js/main.js:211 | freshly seeded settings leave the link unchanged |
| Storefront.SavedNumberIsUsed | src/js/main.js:211-215 | a saved non-empty number is used; a saved "" is not |
| Storefront.StoreNav | src/js/main.js:222-243 | the five links' `active` flags for the current page, the home page being the default |
| Storefront.StoreNavMarksOnePage | src/js/main.js:222-243 | at most one storefront link is active, and one is iff the page has a link |
| Storefront.RootIsHome | src/js/main.js:222-224 | at a path ending in `/` only the home link is active |
| Storefront.PageIsActive | src/js/main.js:222-243 | each page under any directory activates only its own link |
| AdminAuth.FindUser | src/js/admin.js:4-15 | an account is found iff one has both the username and the password |
| AdminAuth.OnlyListedAccountLogsIn | src/js/admin.js:4-15 | only `admin` / `admin123` is accepted |
| AdminAuth.AdminSession.Login | src/js/admin.js:14-21 | succeeds iff an account matches; only then is the flag set to `true`; a failure leaves the flag unchanged |
| AdminAuth.AdminSession.Logout | src/js/admin.js:24-27 | the flag is removed, so the session is logged out, and the target is `login.html` |
| AdminAuth.CheckAuth | src/js/admin.js:30-38 | at most one redirect: to login when logged out off the login page, to the dashboard when logged in on it, none otherwise |
| AdminAuth.LogoutLocksPages | src/js/admin.js:24-38 | after logout every page but the login page redirects to it |
| AdminAuth.LoginForwardsToDashboard | src/js/admin.js:14-37 | after logging in, the login page forwards to the dashboard |
| AdminAuth.AdminNav | src/js/admin.js:200-232 | no bar outside `/admin/` or on a login page; otherwise a link is active iff it is the current page, the dashboard being the default |
| AdminAuth.AdminNavMarksOnePage | src/js/admin.js:215-232 | at most one admin link is active, and one is iff the page has a link |
| AdminAuth.LoginPageHasNoNav | src/js/admin.js:200 | a login page never shows the bar |
| AdminAuth.OutsideAdminHasNoNav | src/js/admin.js:200 | a page outside `/admin/` never shows the bar |
| AdminAuth.AdminRootIsDashboard | src/js/admin.js:215-217 | at `/admin/` the dashboard link is active |
| AdminAuth.AdminPageIsActive | src/js/admin.js:200-232 | a page under `/admin/` that is not a login page activates its own link |

## Left out

- DOM work, animation, timers, modals, `alert`/`confirm` and CSS injection are not modelled. They are UI, not logic.
- The rendering loops (`renderProducts`, `renderBranches`, `renderProductsTable`, `renderBranchesTable`) are not modelled: they only write DOM nodes. The lists they render are modelled.
- The particle animation is not modelled: it is floating point and randomness on a canvas.
- Node I/O is not modelled: `http.createServer`, `listen`, `fs.readFile`, `fs.writeFileSync`, `mkdirSync` and `ensureDirs`. A write's outcome is a parameter, and readable files are a set of path strings with no contents.
- The SQLite engine is not modelled: WAL mode and the `created_at` value. `datetime('now')` is a parameter.
- A body member whose value is `null` is not represented. The destructuring default applies only to a missing member, so `null` reaches the statement. Only `name` is `NOT NULL` (server.js:50 and server.js:58). A `null` name makes the INSERT or UPDATE throw inside the `try` at server.js:79, whose `catch` runs the handler again with `{}`: the row is then stored with every field "" and the answer is 201, or 200 for an update of an existing row. Any other `null` member (`models`, `image`, `address`, `phone`, `coordinates`) throws nothing: it is stored as NULL and echoed as `null`. That `catch` re-runs any handler that throws; no modelled handler throws.
- A request body arrives as bytes, and `body += chunk` decodes each chunk as UTF-8 on its own, so a multi-byte character (an Arabic letter, say) split across two chunks becomes U+FFFD. The model's chunks are already-decoded strings, so this loss is not modelled.
- The clock, the random suffix and `JSON.parse` are parameters.
- JSON bodies are restricted to `null` or an object of string members. A non-string member (a number, array or nested object) is not represented.
- The settings handler stores and returns whatever `JSON.parse` produced. Only objects of strings are represented.
- `toLowerCase` changes only ASCII letters. Unicode case mapping is not modelled.
- `url.parse` is not modelled. The pathname is a given string: no percent-decoding and no query string.
- The file system's resolution of `..` is not modelled. `fs.readFile` (server.js:230) resolves it, so `/../data/db.sqlite` reads a file outside `./src`. The model's readable files are keyed by the unresolved path string.
- `Buffer.from(..., 'base64')` is lenient; the payload is kept as text, uninterpreted.
- `Number()` of an id past 2^53 loses precision. The model treats ids as unbounded integers.
- `parseInt` is modelled as: skip leading white space, accept one sign, then read decimal digits up to the first non-digit (so `12abc` is 12). Its radix detection is not modelled: `0x1A` is read as 0, where JavaScript reads 26.
- The image directory is written relative to `__dirname` but served relative to the working directory. The model assumes the two coincide.
- Upload: two uploads with the same clock and random suffix get the same name. Filename uniqueness is not claimed.
- Several pages call a method such as `filter` on the Promise an un-awaited `DataManager` call returns: src/js/main.js:150 and 159, src/js/admin-branches.js:193. The model applies the search to the resolved list, which is what the code evidently intends.
- Static files, the 404 page and the `/admin` redirect carry no CORS headers, because the code adds them only in `sendJSON`. The model follows the code.
- `data.js` is modelled only for the paths it builds and the 2xx test before reading an upload's URL.
- The hard-coded admin account is data in the login rule. No security property is claimed.
- Storefront.PerformSearch: the products have string fields. `name` is never NULL in the database, but `models` can be (a `null` member, see above). The storefront then throws at `product.models.toLowerCase()` (src/js/main.js:164) whenever a term is not in the name. That crash is not modelled; the admin pages read `models || ''` and do not crash.

