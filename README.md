# Brand navigator core, modelled in Dafny

This project models the deterministic core of the brand-asset catalogue. The catalogue is a Next.js site with:

- product pictures, layouts and documents kept on a cloud disk and tagged with custom properties;
- a vocabulary of property values;
- a map of points of sale.

The model covers these parts of the catalogue:

- **Fuzzy product search** (`Search`): the Cyrillic→Latin transliteration table, the QWERTY→ЙЦУКЕН layout fix, the Levenshtein matrix and the `advancedSearch` filter with its thresholds.
- **Points admin page** (`PointsPage`, with the point record in `MapPoints`): the relevance ranker, the point-type labels and colours, the save checks and the replace, append and delete updates of the loaded list.
- **Points API** (`PointsApi`): POST, PATCH and DELETE over the cached feature collection, including id generation and the rebuilt contact block.
- **Points spreadsheet import** (`PointsImport`): row checks, type mapping and counts.
- **Property store** (`Properties`): a class holding the per-type lists and the category→subcategory record.
- **Catalogue fold** (`Products`): `buildProductsFromFiles`.
- **Disk upload handler** (`DiskUpload`): rename on conflict, property collection, the retry bound and the result counts.
- **Property usage check and rename over file metadata** (`PropertyValidator`).
- **Route guard** (`Middleware`).
- **String helpers** (`Utils`).
- **Filter chips** (`FilterCloud`).
- **All-files page** (`AllFiles`): the filter pipeline, the subcategory reset, folder grouping and sorting, folder upload and delete.
- **Search box** (`SearchBar`): suggestions and the cursor state machine.
- **Upload form** (`UploadPage`) and **product creation form** (`UploadProduct`).

Where the source mutates state, the model is a class. `Properties.PropertyStore`, `PointsApi.PointsStore`, `PointsPage.PointsView`, `SearchBar.SearchBox`, `AllFiles.AllFilesView`, `UploadPage.UploadForm` and `UploadProduct.ProductForm` are classes whose methods change their fields. Their loops are methods with invariants, proved equal to recursive specification functions. Properties of those functions are proved as lemmas.

The model never calls out of the program. Each outside answer is a parameter of the operation that needs it:

- remote reads are `Option` values;
- `setCustomProperties` replies are a sequence of booleans in the upload handler, and a function from the call number to `Option<bool>` in the property rename, where `None` is a request that threw;
- `fetch` POSTs and the uploader are functions from request to outcome;
- `parseFloat` is `string -> Option<real>`;
- `encodeURIComponent` is `string -> string`;
- the regular-expression replace inside `highlightText` is `markAll`;
- the JWT check of the route guard is a boolean.

`Base` states the runtime string primitives over a fixed alphabet:

- `toLowerCase` covers ASCII A–Z, Cyrillic А–Я and Ё;
- `trim` strips ASCII white space;
- `includes`, `startsWith`, `indexOf` and `lastIndexOf` are modelled exactly;
- `substring` clamps negative and out-of-range indices exactly as JavaScript does;
- `split` and `join` are modelled exactly;
- number printing covers non-negative integers and ordinary integers.

The code is followed wherever the written description of the system says otherwise. One case matters:

- The table maps ъ, ь, Ъ and Ь to the empty string.
- `transliterate` writes `russianToEnglish[char] || char`, and the empty string is falsy, so these four letters come out unchanged rather than deleted.
- `Search.TranslitChar` models the code and `Search.FixedChars` states this.

## Model

| member | source | states |
|---|---|---|
| Base.Lower | src/lib/search.ts:65 | `toLowerCase`: same length, each character lowered by the case map of the modelled alphabet |
| Base.LowerIdempotent | src/lib/search.ts:65 | a lowered string has no upper-case letter left, and lowering it again changes nothing |
| Base.Trim | src/lib/search.ts:65 | `trim` never lengthens its input |
| Base.TrimSpec | src/lib/search.ts:65 | `trim` yields the infix left after dropping the leading and trailing white-space runs, with no white space at either end |
| Base.TrimEmptyIffBlank | src/app/admin/points/page.tsx:258-265 | `!s.trim()` holds exactly when every character of `s` is white space |
| Base.JsSubstring | src/app/api/yandex/upload/route.ts:32-33 | JavaScript `substring`: both indices clamped to [0, length], swapped when reversed; the result is the slice between them |
| Base.LastIndexOf | src/app/api/yandex/upload/route.ts:32 | `lastIndexOf` is -1 exactly when the character is absent, and otherwise the index of its last occurrence |
| Base.Split | src/app/admin/points/page.tsx:59 | `split(sep)` gives at least one part, and no part contains `sep` |
| Base.JoinSplit | src/app/upload/page.tsx:95 | joining the parts of a split restores the string |
| Base.SplitJoin | src/app/upload/page.tsx:95 | splitting a join of separator-free parts restores the parts |
| Base.NatToStringInjective | src/app/api/yandex/upload/route.ts:36 | distinct counters print as distinct decimal strings |
| Base.ParseNatToString | src/app/api/yandex/upload/route.ts:36 | printed counters read back as the same number |
| Base.RemoveAt | src/app/api/points/route.ts:198 | `splice(i, 1)`: one element shorter, the others keep their order |
| Base.FilterSeqSpec | src/lib/search.ts:72 | `filter` keeps exactly the elements passing the test, as an order-preserving subsequence, each with its full multiplicity |
| Search.TranslitEntryLatin | src/lib/search.ts:3-14 | every table entry is made of at most three ASCII letters; no ASCII letter is a key |
| Search.TranslitChar | src/lib/search.ts:26 | one character gives a non-empty replacement: the table entry, or the character itself when the entry is missing or empty |
| Search.Transliterate | src/lib/search.ts:25-27 | `transliterate` never shortens its input; the empty string maps to itself |
| Search.TransliterateAppend | src/lib/search.ts:26 | the per-character map distributes over concatenation |
| Search.FixedChars | src/lib/search.ts:7-26 | unmapped characters, ASCII letters and the empty-entry letters ъ ь Ъ Ь are left unchanged |
| Search.TransliterateIdentity | src/lib/search.ts:25-27 | on strings of characters it leaves unchanged, `transliterate` is the identity |
| Search.TransliterateOutputFixed | src/lib/search.ts:25-27 | every character of the output is one that `transliterate` leaves unchanged |
| Search.TransliterateIdempotent | src/lib/search.ts:25-27 | transliterating twice equals transliterating once, for every string |
| Search.TransliterateNoCyrillic | src/lib/search.ts:25-27 | a string holding no key of the table passes through unchanged, so it is a fixed point |
| Search.FixLayout | src/lib/search.ts:29-31 | same length; each character is replaced by its `layoutMap` entry when it has one (every entry is a single character) and kept otherwise (`layoutMap[char] \|\| char`) |
| Search.FixLayoutLettersToCyrillic | src/lib/search.ts:16-31 | a word of Latin letters typed on the wrong layout comes out as Cyrillic letters of the same case |
| Search.FixLayoutKeepsNonAscii | src/lib/search.ts:16-31 | text with no ASCII character in it (Cyrillic, for one) is a fixed point of `fixLayout` |
| Search.FixLayoutNotIdempotent | src/lib/search.ts:16-31 | `fixLayout` is not idempotent: '/' becomes '.', and '.' becomes 'ю' |
| Search.Lev | src/lib/search.ts:33-61 | the edit-distance recurrence; its value is at least the length difference and at most the longer length |
| Search.LevEmpty | src/lib/search.ts:34-35 | distance to the empty string is the other string's length |
| Search.LevSelf | src/lib/search.ts:47-59 | a string is at distance 0 from itself |
| Search.LevSymmetric | src/lib/search.ts:47-59 | the distance does not depend on argument order |
| Search.LevZero | src/lib/search.ts:47-59 | distance 0 only between equal strings |
| Search.LevStep | src/lib/search.ts:49-56 | each matrix cell is the diagonal on a character match, otherwise one plus the least of its three neighbours |
| Search.FillRow | src/lib/search.ts:48-58 | the inner loop fills row i with the recurrence's values and keeps the first column |
| Search.LevenshteinDistance | src/lib/search.ts:33-62 | the matrix method returns exactly the recurrence `Lev(a, b)` |
| Search.AdvancedSearch | src/lib/search.ts:64-67 | a normalised query shorter than 2 characters gives the empty result; never more results than products |
| Search.Filter | src/lib/search.ts:72 | the filter yields at most as many products as it is given |
| Search.FilterSpec | src/lib/search.ts:72-110 | the result is an order-preserving subsequence holding exactly the products the callback accepts, each as many times as in the catalogue |
| Search.AdvancedSearchSpec | src/lib/search.ts:64-111 | for a normalised query of 2+ characters, the result is exactly the matching products in catalogue order, duplicates included |
| Search.ExactRulesMatch | src/lib/search.ts:78-83 | each exact rule accepts on its own: plain name, transliterated name, layout-fixed name, or a SKU containing the query |
| Search.ShortTermExactOnly | src/lib/search.ts:86 | queries shorter than 3 characters match only through the exact rules |
| Search.SkusNeverFuzzy | src/lib/search.ts:83-107 | SKUs take part only in the exact SKU rule; the fuzzy tier reads names alone |
| Search.ContainedWindow | src/lib/search.ts:98-101 | a name containing the query also passes the sliding window |
| Search.PrefixOfName | src/lib/search.ts:87-88 | a query of 3+ characters that starts the name passes the prefix rule (`d <= 2 && 2*d < n`) |
| Search.SlidingWindow | src/lib/search.ts:98-106 | the window loop answers exactly whether some window of query length is within distance 1 |
| Search.PrefixDistance | src/lib/search.ts:87-91 | the prefix check answers exactly the prefix rule |
| Search.ProductMatches | src/lib/search.ts:72-110 | the callback with its early returns answers exactly `Matches` |
| Search.TranslitName | src/lib/search.ts:3-27 | "Смазка Валера" transliterates to "Smazka Valera" |
| Search.QueryTranslit | src/lib/search.ts:25-27 | a Latin query transliterates to itself |
| Search.TransliteratedQueryFinds | src/lib/search.ts:69-79 | the Latin query "smazka valera" finds the product "Смазка Валера" |
| Utils.EscapeHtmlChar | src/lib/utils.ts:17-25 | special characters become an entity `&…;`; others are kept; no `<`, `>`, `"` or `'` is written |
| Utils.EscapeHtml | src/lib/utils.ts:17-26 | the output holds no `<`, `>`, `"` or `'`, is never shorter, and equals the input when it has nothing to escape |
| Utils.UnescapeHtmlChar | src/lib/utils.ts:18-24 | each entity decodes back to its character |
| Utils.UnescapeEscapeHtml | src/lib/utils.ts:17-26 | escaping is lossless: decoding the entities gives the original text |
| Utils.EscapeRegex | src/lib/utils.ts:28-30 | never shorter, and the identity on text without special characters |
| Utils.RegexLiteralEscape | src/lib/utils.ts:28-30 | the escaped text is a literal pattern (no bare metacharacter, every backslash before a metacharacter) and it denotes exactly the input |
| Utils.RegexLiteralOnlyEscape | src/lib/utils.ts:28-30 | the escape is the only literal pattern for a text: each metacharacter of the class at utils.ts:29 gains one backslash and every other character is copied |
| Utils.HighlightPattern | src/lib/utils.ts:34 | the pattern is one group whose body is a literal pattern denoting the query |
| Utils.HighlightText | src/lib/utils.ts:32-36 | an empty query returns the text unchanged; otherwise the marked replacement of the pattern |
| Utils.PreviewTarget | src/lib/utils.ts:40 | the proxied URL starts with the preview URL and always carries `size=` |
| Utils.PreviewTargetIdempotent | src/lib/utils.ts:40 | adding the size again changes nothing: a URL naming a size is kept |
| Utils.PreviewProxyUrl | src/lib/utils.ts:38-42 | `""` for an empty URL; the encoded URL itself when it already names a size; otherwise the encoded URL followed by `&size=` and the size |
| Utils.PreviewProxyDecodes | src/lib/utils.ts:38-42 | with a reversible encoding, the proxy receives the preview URL unchanged when it names a size, and otherwise exactly the URL plus `&size=` and the size |
| Utils.DownloadProxyUrl | src/lib/utils.ts:44-47 | `""` for an empty URL, otherwise the prefix, the encoded URL, `&filename=` and the encoded name |
| Utils.DownloadProxySplits | src/lib/utils.ts:44-47 | since the encoding never writes '&', the query splits back into the URL part and the file-name part |
| Middleware.AnyMatches | middleware.ts:17-19 | true exactly when some listed route prefixes the path and lists the method |
| Middleware.Guard | middleware.ts:21-30 | 401 exactly for a protected request without valid auth; every other request passes |
| Middleware.ReadsAreOpen | middleware.ts:4-10 | GET is never protected, whatever the session |
| Middleware.SessionIrrelevantWhenOpen | middleware.ts:21-23 | an unprotected request passes without regard to authentication |
| Middleware.HandleAsWritten | middleware.ts:12-35 | the guard runs only on paths the written matcher reaches (`/api/yandex` and below, exactly `/api/properties`, exactly `/api/points`); 401 exactly for such a protected request without a session |
| Middleware.Handle | middleware.ts:12-35 | the same with `:path*` on every matcher entry (corrected; see Findings) |
| Middleware.PointWritesGuarded | middleware.ts:9-35 | POST, PATCH and DELETE on `/api/points` itself without a session get 401 |
| Middleware.PointsUploadUnguarded | middleware.ts:33-35 | the route table protects POST `/api/points/upload`, yet without a session it passes |
| Middleware.CorrectedMatcherGuardsRoutes | middleware.ts:4-35 | with the corrected matcher, a listed method on any protected route or a path below it gets 401 without a session |
| FilterCloud.Toggle | src/components/FilterCloud.tsx:16-32 | single mode: [] or [value], at most one element; multi mode: all copies removed or value appended; value is selected afterwards iff it was not before |
| FilterCloud.RemoveKeepsOrder | src/components/FilterCloud.tsx:27 | removal keeps every other value, with its multiplicity, in order |
| FilterCloud.ToggleTwice | src/components/FilterCloud.tsx:24-31 | multi mode: toggling an unselected value twice restores the selection |
| FilterCloud.RemoveAllAppended | src/components/FilterCloud.tsx:27-29 | removing a just-appended value restores the list |
| FilterCloud.SingleToggleTwice | src/components/FilterCloud.tsx:17-23 | single mode: toggling twice gives [value] or [] depending on whether it was selected |
| MapPoints.FindById | src/app/api/points/route.ts:117 | `findIndex`: None exactly when no feature has the id, otherwise the first index carrying it |
| MapPoints.ReplaceFirstById | src/app/admin/points/page.tsx:294-299 | only the first feature with the id is replaced; nothing changes when it is absent |
| MapPoints.RemoveFirstById | src/app/api/points/route.ts:192-198 | the first feature with the id is spliced out and the rest keep their order |
| MapPoints.RemoveFirstKeepsLaterDuplicates | src/app/api/points/route.ts:198 | later features sharing the id survive the removal |
| PointsPage.PointTypeLabel | src/app/admin/points/page.tsx:32-42 | an unknown or missing preset gives 'Неизвестный тип'; a known one never does |
| PointsPage.PointTypeColor | src/app/admin/points/page.tsx:32-46 | an unknown or missing preset gives '#9DA1A8' |
| PointsPage.LabelIdentifiesPreset | src/app/admin/points/page.tsx:32-42 | known presets have distinct labels |
| PointsPage.UnknownPresetLooksGray | src/app/admin/points/page.tsx:33-46 | an unknown preset is drawn in the gray dot's colour but labelled differently |
| PointsPage.Score | src/app/admin/points/page.tsx:203-217 | the score is one of 0, 10, 20, 40, 60, 80, 100 |
| PointsPage.ScoreZeroIff | src/app/admin/points/page.tsx:205-219 | score 0 exactly when the query occurs in none of header, address, footer or id text |
| PointsPage.ScoreLadder | src/app/admin/points/page.tsx:205-216 | each rung as an iff: 100 iff the header equals the query, 80 iff it only starts with it, 60 iff it only contains it, 40 iff it does not contain it and the address starts with it, 20 iff neither of those holds and the address or footer contains it, 10 iff only the id's digits contain it |
| PointsPage.RankBeforeTotal | src/app/admin/points/page.tsx:227 | the comparator orders any two points one way or the other |
| PointsPage.RankBeforeTransitive | src/app/admin/points/page.tsx:227 | the comparator is transitive |
| PointsPage.Insert | src/app/admin/points/page.tsx:226-227 | inserting into a ranked list keeps it ranked and adds exactly one copy |
| PointsPage.Sort | src/app/admin/points/page.tsx:190-227 | the sort returns a ranked permutation of its input |
| PointsPage.RankedWithoutQuery | src/app/admin/points/page.tsx:182-191 | with an empty query: a permutation of the valid points in ascending id order |
| PointsPage.RankedWithQuery | src/app/admin/points/page.tsx:194-228 | with a query: a permutation of the valid points scoring above 0, by score descending then id ascending |
| PointsPage.RankedMembers | src/app/admin/points/page.tsx:182-223 | a point is shown exactly when it is valid and, if there is a query, scores above 0 |
| PointsPage.ParseCoordinates | src/app/admin/points/page.tsx:58-65 | accepted only with exactly two comma-separated parts, both parsed as numbers |
| PointsPage.ParseCoordinatesOneComma | src/app/admin/points/page.tsx:59-60 | accepted coordinates contain exactly one comma |
| PointsPage.CheckForm | src/app/admin/points/page.tsx:258-270 | the form is accepted exactly when name and address are non-blank and the coordinates parse |
| PointsPage.CheckFormOrder | src/app/admin/points/page.tsx:258-270 | name is checked first, then address, then coordinates; the first failure decides the message |
| PointsPage.WithoutId | src/app/admin/points/page.tsx:377 | every feature with another id is kept in order and with its multiplicity, and none with the id remains |
| PointsPage.WithoutAbsentId | src/app/admin/points/page.tsx:377 | deleting an id nobody has changes nothing |
| PointsPage.PointsView.ApplyEdit | src/app/admin/points/page.tsx:292-300 | after an edit only the first feature with the id is replaced; nothing happens before loading |
| PointsPage.PointsView.ApplyAdd | src/app/admin/points/page.tsx:350-353 | an add appends exactly the returned point |
| PointsPage.PointsView.ApplyDelete | src/app/admin/points/page.tsx:375-378 | a delete drops the features with that id, keeping the rest in order |
| PointsApi.ContactContent | src/app/api/points/route.ts:81-83 | the block starts `Телефон: …<br>Email: …<br>Сайт: `, followed by the link or 'нет' |
| PointsApi.TakeUntil | src/app/api/points/route.ts:155-157 | the `[^<]*` run: the longest prefix free of the stop character |
| PointsApi.LabelCapture | src/app/api/points/route.ts:155-156 | no match exactly when the marker does not occur |
| PointsApi.HrefCapture | src/app/api/points/route.ts:157 | a captured website is non-empty and free of quotes |
| PointsApi.ContactRoundTrip | src/app/api/points/route.ts:81-161 | the three PATCH captures read back the phone, email and website written into the block |
| PointsApi.RebuildKeepsOtherFields | src/app/api/points/route.ts:151-166 | a PATCH supplying some contact fields keeps the others as they were |
| PointsApi.MaxId | src/app/api/points/route.ts:71 | `Math.max(...ids, 0)`: at least 0, at least every id, and 0 or one of the ids |
| PointsApi.NewPoint | src/app/api/points/route.ts:71-91 | the new id exceeds every existing id; a missing or zero latitude/longitude becomes 53.9/27.5667 (JavaScript `\|\|`), any other value is kept; name, address and preset defaults; the contact block |
| PointsApi.NewPointKeepsIdsUnique | src/app/api/points/route.ts:71-93 | appending the new point keeps ids unique |
| PointsApi.ApplyCoordinates | src/app/api/points/route.ts:126-131 | nothing changes without a supplied coordinate; with one, a point without geometry crashes, and otherwise each coordinate becomes the supplied value or keeps the old one (`??`) |
| PointsApi.ApplyName | src/app/api/points/route.ts:134-137 | the name sets header and hint, and nothing is touched without it |
| PointsApi.ApplyAddress | src/app/api/points/route.ts:139-142 | the address sets footer and adress, and nothing is touched without it |
| PointsApi.ApplyContact | src/app/api/points/route.ts:151-166 | the block is rebuilt only when a contact field is supplied |
| PointsApi.ApplyUpdates | src/app/api/points/route.ts:125-166 | field-wise PATCH: supplied fields and coordinates are set, absent ones kept (the contact block too), the id never changes; it crashes exactly where the handler dereferences a missing part |
| PointsApi.EmptyUpdateIsIdentity | src/app/api/points/route.ts:125-166 | an update carrying no field leaves the point unchanged |
| PointsApi.PointsStore.FetchPoints | src/app/api/points/route.ts:33-45 | the cache is answered when set; otherwise the remote read is cached and returned |
| PointsApi.PointsStore.Post | src/app/api/points/route.ts:65-104 | exactly one new point is appended to the cache; 500 on a failed read or save |
| PointsApi.PointsStore.Patch | src/app/api/points/route.ts:107-179 | 400 for a falsy id and 404 for an unknown id, with the collection unchanged; otherwise the first point with the id is updated |
| PointsApi.PointsStore.Delete | src/app/api/points/route.ts:182-209 | 400 for ids parsing to 0 or NaN and 404 for an unknown id; otherwise only the first feature with the id is removed |
| PointsImport.PresetFor | src/app/api/points/upload/route.ts:5-9 | the preset is one of the three; unknown or blank types give the gray dot |
| PointsImport.PresetIgnoresCase | src/app/api/points/upload/route.ts:5-86 | each of the three type names, after trimming and lowercasing the cell, gives its own preset |
| PointsImport.PresetOfLabel | src/app/api/points/upload/route.ts:5-86 | a type cell holding the label the admin page shows for a preset imports as that preset |
| PointsImport.ImportCoordinatesAgree | src/app/api/points/upload/route.ts:11-19 | the import's coordinate check accepts exactly what the admin page's check accepts |
| PointsImport.RowLabel | src/app/api/points/upload/route.ts:59 | the message names row `index + 2` |
| PointsImport.CheckCells | src/app/api/points/upload/route.ts:61-97 | a row is accepted exactly when name, address and coordinates pass, checked in that order |
| PointsImport.RowLabelsDistinct | src/app/api/points/upload/route.ts:59 | distinct rows report distinct row numbers |
| PointsImport.Outcomes | src/app/api/points/upload/route.ts:58 | one outcome per row |
| PointsImport.OutcomeAt | src/app/api/points/upload/route.ts:58-59 | row i is checked with its own index |
| PointsImport.PointsPlusErrors | src/app/api/points/upload/route.ts:58-98 | points + errors == rows |
| PointsImport.NoPointsMeansAllRefused | src/app/api/points/upload/route.ts:100 | no point exactly when every row was refused |
| PointsImport.Partition | src/app/api/points/upload/route.ts:58-98 | the pushes give exactly the accepted points and the error messages, in row order |
| PointsImport.ValidateRows | src/app/api/points/upload/route.ts:58-98 | the row loop gives each row's outcome, with points + errors == rows |
| PointsImport.Added | src/app/api/points/upload/route.ts:108-124 | no more points are added than were posted |
| PointsImport.PostAll | src/app/api/points/upload/route.ts:108-124 | the loop keeps exactly the points the API returned, in order |
| PointsImport.Import | src/app/api/points/upload/route.ts:21-132 | 400 without a file, for an empty sheet, or with no valid row (with details); otherwise imported <= total == valid rows |
| Products.Extension | src/app/api/yandex/products/route.ts:60 | with a dot, as long as the text after the last '.'; with none, the whole name lowered |
| Products.BucketFor | src/app/api/yandex/products/route.ts:61-87 | 'Главное фото' and 'PNG' name their buckets; without an explicit type a png never becomes the main photo, a main photo needs a non-png image and no main photo yet, and only unknown extensions stay unplaced |
| Products.BucketRouting | src/app/api/yandex/products/route.ts:61-87 | 'Фото', 'Видео' and 'Документ' name their lists; an untyped image becomes the main photo exactly when none is set and it is not a png, and otherwise joins the photos; untyped videos and documents join their lists; only a file that sets the main photo is routed there |
| Products.Place | src/app/api/yandex/products/route.ts:65-87 | the bucket's list gains the file at its end (the main photo is replaced), every other list and field stays |
| Products.Counted | src/app/api/yandex/products/route.ts:46-50 | the count grows by one, a non-empty SKU is added once, the lists are untouched |
| Products.Record | src/app/api/yandex/products/route.ts:46-87 | the count grows by one and a non-empty SKU is added once |
| Products.RecordPlaces | src/app/api/yandex/products/route.ts:46-87 | recording a file appends it to its bucket's list only; the other lists stay as they were |
| Products.RecordMain | src/app/api/yandex/products/route.ts:65-87 | recording a file makes it the main photo exactly when it is routed there, and otherwise keeps the old one; a main photo is set afterwards iff it was before or the file sets it |
| Products.RoutedAbsent | src/app/api/yandex/products/route.ts:24-44 | a name without a product has no routed file and no main photo |
| Products.CatalogLists | src/app/api/yandex/products/route.ts:52-87 | `photos`, `videos`, `documents` and `png_files` are exactly the accepted files of the product routed to them, in listing order; `main_photo` is the last file routed there, and it is set iff some file of the product is an explicit main photo or an untyped non-png image |
| Products.BuildProducts | src/app/api/yandex/products/route.ts:11-91 | the loop builds exactly the catalogue fold and registers names and SKUs in order |
| Products.PrefixStep | src/app/api/yandex/products/route.ts:14-88 | each item extends the three folds by one step |
| Products.CatalogKeys | src/app/api/yandex/products/route.ts:15-44 | exactly one product per distinct accepted name, filed under that name |
| Products.RegisteredNamesAreKeys | src/app/api/yandex/products/route.ts:29 | the names registered are exactly the catalogue keys |
| Products.RegisteredSkus | src/app/api/yandex/products/route.ts:30 | exactly the non-empty SKUs of accepted files are registered |
| Products.CatalogFileCount | src/app/api/yandex/products/route.ts:50 | `file_count` is the number of accepted files with that name |
| Products.CountNamedAbsent | src/app/api/yandex/products/route.ts:24-32 | a name without a product has no accepted file |
| Products.CatalogSkus | src/app/api/yandex/products/route.ts:46-48 | a product's SKUs have no duplicates and are exactly the non-empty SKUs of its files |
| Products.CatalogGroup | src/app/api/yandex/products/route.ts:32-44 | the group comes from the first accepted file with the name |
| Products.CatalogPlacedWithinCount | src/app/api/yandex/products/route.ts:50-87 | the buckets never hold more files than were counted |
| Products.MainPhotoOverwrites | src/app/api/yandex/products/route.ts:65-66 | an explicit 'Главное фото' always replaces the main photo |
| Products.PngIsNeverMainByExtension | src/app/api/yandex/products/route.ts:76-81 | without an explicit type, a png never becomes the main photo |
| DiskUpload.SplitName | src/app/api/yandex/upload/route.ts:32-33 | base + ext == name; with no dot, base is '' and ext is the whole name |
| DiskUpload.CandidateInjective | src/app/api/yandex/upload/route.ts:36 | distinct counters give distinct names |
| DiskUpload.FreeCandidateExists | src/app/api/yandex/upload/route.ts:35-38 | a free name exists within \|names\|+1 counters, so the loop ends |
| DiskUpload.ChooseName | src/app/api/yandex/upload/route.ts:28-39 | a taken name under 'rename' becomes `base_k ext` for the least free k >= 1; otherwise the name is kept |
| DiskUpload.ChosenNameUnique | src/app/api/yandex/upload/route.ts:31-39 | the stored name is determined: two names that both meet the least-free-counter rule are equal |
| DiskUpload.DotlessRename | src/app/api/yandex/upload/route.ts:32-36 | a dotless name is renamed as `_k` followed by the whole name |
| DiskUpload.DottedRename | src/app/api/yandex/upload/route.ts:32-36 | a dotted name keeps its extension after the counter |
| DiskUpload.PropertyName | src/app/api/yandex/upload/route.ts:44 | the capture of `^prop_i_(.+)$` is non-empty, holds no line terminator (`.` matches none) and rebuilds the key |
| DiskUpload.PropertyNameMatches | src/app/api/yandex/upload/route.ts:44 | every non-empty name without line terminators after the prefix is captured |
| DiskUpload.FilePropsSpec | src/app/api/yandex/upload/route.ts:42-48 | a property is present exactly when a text field of the file names it, and the last such field wins |
| DiskUpload.CollectProperties | src/app/api/yandex/upload/route.ts:42-52 | the collected map, with 'Тип контента' forced to the form's value or 'Макет' |
| DiskUpload.SetWithRetry | src/app/api/yandex/upload/route.ts:66-76 | 1 to 3 attempts, stopping at the first success; success iff one of the first three replies succeeds |
| DiskUpload.SuccessCount | src/app/api/yandex/upload/route.ts:97 | successes never exceed results |
| DiskUpload.UploadOne | src/app/api/yandex/upload/route.ts:27-94 | an error exactly without an upload URL ("Failed to get upload URL") or on a status other than 201/202 ("Upload failed with status s"); otherwise stored under the chosen name, with properties set iff one of the first three replies succeeds, and the message "File uploaded but properties were not set" present exactly when they were not set |
| DiskUpload.Upload | src/app/api/yandex/upload/route.ts:4-104 | 400 without files; otherwise one result per file, each matching the disk's replies for that file and named against the names stored before it, with the summary counts |
| DiskUpload.UploadNext | src/app/api/yandex/upload/route.ts:28-87 | one loop pass: the next file's result is appended, reported against the names known so far, and a stored name joins those names |
| DiskUpload.SuccessCountFilter | src/app/api/yandex/upload/route.ts:97 | the success count is the length of the results filtered on type 'success' |
| DiskUpload.ChosenNameFresh | src/app/api/yandex/upload/route.ts:31-39 | under 'rename' the stored name is never one of the known names |
| DiskUpload.RenamedNamesDistinct | src/app/api/yandex/upload/route.ts:28-87 | when every file's action is 'rename', the stored files of one request have pairwise distinct names, none already on the disk; other actions keep the file's own name and may repeat it |
| DiskUpload.StoredNamesHas | src/app/api/yandex/upload/route.ts:87 | every stored file's name joins the known names |
| Properties.AddUnique | src/lib/properties-manager.ts:49-55 | the value is present afterwards, appended only when new; no duplicate is introduced |
| Properties.Rename | src/lib/properties-manager.ts:100-120 | refused when the old value is absent or the new one present; otherwise the new value is written at the old index |
| Properties.RenameKeepsNoDuplicates | src/lib/properties-manager.ts:104-120 | a rename keeps the list duplicate-free |
| Properties.RemoveFirst | src/lib/properties-manager.ts:139-153 | refused when absent; otherwise exactly the first occurrence is removed |
| Properties.RemoveFirstOneCopy | src/lib/properties-manager.ts:143-153 | one copy of the value is taken out |
| Properties.PropertyStore.Defaults | src/lib/properties-manager.ts:11-39 | the store starts from the default lists and subcategories |
| Properties.PropertyStore.AddPropertyValue | src/lib/properties-manager.ts:41-61 | always true; adds the value once to the parent's list (created if needed) or to an existing list; otherwise no change |
| Properties.PropertyStore.AddProductName | src/lib/properties-manager.ts:63-70 | the name is added once; a store without the list throws and stays unchanged |
| Properties.PropertyStore.AddSku | src/lib/properties-manager.ts:72-81 | the trimmed SKU is added once; blank input changes nothing |
| Properties.PropertyStore.AddMultipleSkus | src/lib/properties-manager.ts:83-85 | `addSKU` of each input in order; without a SKU list it throws iff some input is non-blank after trimming, and the lists stay as they were |
| Properties.PropertyStore.UpdatePropertyValue | src/lib/properties-manager.ts:87-125 | false with no change for a missing list, an absent old value or a present new value; otherwise an in-place rename |
| Properties.PropertyStore.DeletePropertyValue | src/lib/properties-manager.ts:127-158 | false with no change when absent; otherwise the first occurrence is removed |
| Properties.PropertyStore.HasSubcategories | src/lib/properties-manager.ts:160-164 | true exactly when `getSubcategoriesForCategory` would return a non-empty list |
| Properties.PropertyStore.SubcategoriesFor | src/lib/properties-manager.ts:166-170 | an unknown category gives [] |
| Properties.AddAllSkus | src/lib/properties-manager.ts:83-85 | a run of `addSKU` keeps every earlier SKU and no duplicates |
| Properties.AddAllSkusContains | src/lib/properties-manager.ts:72-85 | every non-blank input ends up in the list, trimmed |
| PropertyValidator.Matching | src/lib/property-validator.ts:11-23 | only files carrying the value are matched |
| PropertyValidator.MatchingSpec | src/lib/property-validator.ts:11-23 | exactly the carrying files, in order, each as often as listed |
| PropertyValidator.CheckPropertyUsage | src/lib/property-validator.ts:3-38 | the names of the carrying files; count == \|names\|; used iff count > 0; not used, 0 and [] when the listing fails |
| PropertyValidator.Writes | src/lib/property-validator.ts:56-71 | one write per carrying file, with the old map and the key set to the new value |
| PropertyValidator.UpdatedPlusFailed | src/lib/property-validator.ts:73-86 | updated + errors == carrying files |
| PropertyValidator.WriteTouchesOneKey | src/lib/property-validator.ts:62-66 | a write changes only the renamed key |
| PropertyValidator.UpdatePropertyInFiles | src/lib/property-validator.ts:40-95 | the writes, counts and errors of the loop; success iff no error; a system error (0 updated, 'System error occurred') when the listing fails or when a write request is rejected, after the writes up to and including that one |
| PropertyValidator.RejectedOnce | src/lib/property-validator.ts:74-94 | only the first rejected write ends the loop |
| AllFiles.VisibleIsFilter | src/app/all-files/page.tsx:77-115 | the chained filters of the page act as one filter by the combined test |
| AllFiles.VisibleSpec | src/app/all-files/page.tsx:77-115 | the shown files are exactly the layouts passing every active filter, in order |
| AllFiles.Stage | src/app/all-files/page.tsx:86-112 | an optional filter stage refines the combined test |
| AllFiles.SubcategoryAfter | src/app/all-files/page.tsx:62-75 | cleared with no category, or when invalid for the first category; otherwise kept |
| AllFiles.FolderFilesSpec | src/app/all-files/page.tsx:294-304 | each folder group holds exactly the files with that folder, in order and with their multiplicity |
| AllFiles.FolderFilesStep | src/app/all-files/page.tsx:294-304 | one more file joins only its own group |
| AllFiles.GroupByFolder | src/app/all-files/page.tsx:290-304 | the grouping loop partitions the files into folder groups and the no-folder list |
| AllFiles.StrLeqTotal | src/app/all-files/page.tsx:306 | the string order is total |
| AllFiles.StrLeqTransitive | src/app/all-files/page.tsx:306 | the string order is transitive |
| AllFiles.StrLeqAntisymmetric | src/app/all-files/page.tsx:306 | the string order is antisymmetric |
| AllFiles.InsertString | src/app/all-files/page.tsx:306 | insertion keeps a sorted list sorted and adds one copy |
| AllFiles.SortStrings | src/app/all-files/page.tsx:306 | `sort()` returns a sorted permutation |
| AllFiles.FolderNames | src/app/all-files/page.tsx:290-306 | every folder once, in ascending order |
| AllFiles.SortedDistinct | src/app/all-files/page.tsx:306 | sorting distinct names keeps them distinct |
| AllFiles.CountAtMostOne | src/app/all-files/page.tsx:297-298 | a duplicate-free list holds each name at most once |
| AllFiles.FolderUploadProperties | src/app/all-files/page.tsx:143-154 | six properties copied from the sample file ('Макет' as default content type) plus 'Папка' |
| AllFiles.FolderUploadEntries | src/app/all-files/page.tsx:131-154 | nothing without files or folder files; otherwise one entry per file with those properties |
| AllFiles.AllFilesView.ChooseCategory | src/app/all-files/page.tsx:62-75 | choosing categories applies the subcategory reset and changes nothing else |
| AllFiles.AllFilesView.Delete | src/app/all-files/page.tsx:117-129 | a successful delete drops the files at that path and deselects it; the target is cleared |
| AllFiles.AllFilesView.ToggleFolder | src/app/all-files/page.tsx:321-330 | the folder's membership in the expanded set flips |
| AllFiles.DeleteKeepsOthers | src/app/all-files/page.tsx:123 | exactly the files at other paths remain, in order and with their multiplicity |
| AllFiles.SubcategoryStaysValid | src/app/all-files/page.tsx:68-74 | after a category change the subcategory is empty or valid for the first category |
| SearchBar.Suggestions | src/components/SearchBar.tsx:22-32 | at most ten; none for a query shorter than 2 |
| SearchBar.SuggestionsSpec | src/components/SearchBar.tsx:24-26 | a prefix of the search results, all of them when there are at most ten, empty iff there are none |
| SearchBar.SuggestionsMatch | src/components/SearchBar.tsx:24-25 | every suggestion is a catalogue product matching the normalised query |
| SearchBar.NameFindsItself | src/components/SearchBar.tsx:22-27 | a product's own name suggests something |
| SearchBar.CursorDown | src/components/SearchBar.tsx:52 | ArrowDown moves to index+1 while that is in range, and otherwise stays at most count-1 |
| SearchBar.CursorUp | src/components/SearchBar.tsx:55 | ArrowUp never goes below -1 |
| SearchBar.CursorStaysInRange | src/components/SearchBar.tsx:50-55 | the cursor stays in [-1, count-1] across any keys |
| SearchBar.StaleCursorRecovers | src/components/SearchBar.tsx:52 | one ArrowDown pulls a stale cursor back into range |
| SearchBar.Effect | src/components/SearchBar.tsx:22-32 | a query of 2+ characters resets the cursor and opens iff there are results; a shorter one closes |
| SearchBar.SearchBox.Refresh | src/components/SearchBar.tsx:22-32 | the effect on the current query and products |
| SearchBar.SearchBox.Type | src/components/SearchBar.tsx:87 | the query changes and the effect runs when it differs |
| SearchBar.SearchBox.SetProducts | src/components/SearchBar.tsx:32 | a new catalogue reruns the effect |
| SearchBar.SearchBox.SelectProduct | src/components/SearchBar.tsx:68-72 | the query becomes the name and exactly [product] is reported |
| SearchBar.SearchBox.DoSearch | src/components/SearchBar.tsx:74-78 | the full results are reported and the dropdown closes |
| SearchBar.SearchBox.KeyDown | src/components/SearchBar.tsx:49-66 | arrows move the cursor; Enter selects a valid highlighted suggestion or else searches; Escape closes |
| SearchBar.SearchBox.Focus | src/components/SearchBar.tsx:89 | focus reopens a non-empty list |
| SearchBar.SearchBox.MouseDown | src/components/SearchBar.tsx:34-47 | a press outside closes the list |
| SearchBar.SelectingReopens | src/components/SearchBar.tsx:58-72 | Enter on a new suggestion reports one product, and the rerun effect shows suggestions for its name |
| UploadPage.DefaultProperties | src/app/upload/page.tsx:25-37 | exactly {'Тип контента': 'Макет'} |
| UploadPage.FreshEntries | src/app/upload/page.tsx:33-40 | one entry per file, each with the default properties |
| UploadPage.SetFileProperty | src/app/upload/page.tsx:42-51 | only the given key of the given entry changes |
| UploadPage.FolderMissing | src/app/upload/page.tsx:63-76 | at most four labels |
| UploadPage.FolderMissingSpec | src/app/upload/page.tsx:63-76 | the missing labels in the order category, subcategory, responsible, folder name |
| UploadPage.FolderMissingLabels | src/app/upload/page.tsx:63-76 | each label is reported exactly when its field is empty, the folder name judged after trimming |
| UploadPage.EntryMissing | src/app/upload/page.tsx:80-88 | at most three messages, none exactly when the three fields are filled |
| UploadPage.EntryMissingSpec | src/app/upload/page.tsx:80-88 | the file's name with each blank field, in field order |
| UploadPage.CheckedAppends | src/app/upload/page.tsx:79-89 | checking a file appends its messages |
| UploadPage.FilesMissingEmpty | src/app/upload/page.tsx:78-92 | nothing is missing iff every file has its three fields |
| UploadPage.FilesMissingNames | src/app/upload/page.tsx:78-89 | each message belongs to some file, at most three per file |
| UploadPage.CollectMissing | src/app/upload/page.tsx:78-89 | the loop gives the per-file messages in file order |
| UploadPage.CheckRequired | src/app/upload/page.tsx:61-90 | the missing list of the current mode |
| UploadPage.AlertTextJoin | src/app/upload/page.tsx:95-97 | the message joins the heading, the first three items and '...' |
| UploadPage.AlertTextLines | src/app/upload/page.tsx:92-100 | the message splits back into the heading, at most three items, and '...' exactly when more were missing |
| UploadPage.FolderProperties | src/app/upload/page.tsx:110-113 | the shared properties with 'Папка' set to the trimmed folder name |
| UploadPage.UploadEntries | src/app/upload/page.tsx:107-123 | one entry per file, with folder or per-file properties |
| UploadPage.FolderEntriesAgree | src/app/upload/page.tsx:110-113 | in folder mode all entries carry the same properties |
| UploadPage.Outcome | src/app/upload/page.tsx:129-140 | success exactly when the uploader finished without errors |
| UploadPage.Conclude | src/app/upload/page.tsx:129-140 | the alert for the answer, and a reset exactly on success |
| UploadPage.UploadForm.FilesSelected | src/app/upload/page.tsx:33-40 | the selection replaces the entries |
| UploadPage.UploadForm.UpdateFileProperty | src/app/upload/page.tsx:42-51 | one key of one entry changes |
| UploadPage.UploadForm.UpdateSharedProperty | src/app/upload/page.tsx:53-55 | one shared key changes |
| UploadPage.UploadForm.Submit | src/app/upload/page.tsx:102-143 | the entries sent, the alert, and the reset on success |
| UploadPage.UploadForm.Upload | src/app/upload/page.tsx:57-144 | no files: nothing; missing fields: the alert and no upload; otherwise the entries are sent |
| UploadProduct.WithoutIndex | src/app/upload-product/page.tsx:35 | the indexed row is removed; an index out of range removes nothing |
| UploadProduct.SetSku | src/app/upload-product/page.tsx:38-44 | only the indexed row's SKU changes |
| UploadProduct.SetPng | src/app/upload-product/page.tsx:46-52 | only the indexed row's picture changes |
| UploadProduct.SkuPostsSound | src/app/upload-product/page.tsx:74-82 | every SKU post is the trimmed non-blank SKU of a row |
| UploadProduct.SkuPostsComplete | src/app/upload-product/page.tsx:74-82 | every non-blank SKU is posted, trimmed |
| UploadProduct.ReadyRegistersSku | src/app/upload-product/page.tsx:57-82 | a form that passes the check posts the name and at least one SKU |
| UploadProduct.RegisterSkus | src/app/upload-product/page.tsx:74-82 | the SKU posts in row order, stopping at the first failure |
| UploadProduct.Register | src/app/upload-product/page.tsx:67-82 | the name post, then the SKU posts, up to the first failure |
| UploadProduct.PngProperties | src/app/upload-product/page.tsx:86-95 | name, group, the trimmed SKU and 'Тип файла' = 'PNG' |
| UploadProduct.PngEntriesSpec | src/app/upload-product/page.tsx:91-98 | exactly the rows with a PNG and a non-blank SKU |
| UploadProduct.PngSkusRegistered | src/app/upload-product/page.tsx:74-98 | every uploaded SKU was registered |
| UploadProduct.CollectEntries | src/app/upload-product/page.tsx:85-98 | the loop gives the PNG entries in row order |
| UploadProduct.Reply | src/app/upload-product/page.tsx:100-130 | an error exactly when the upload threw or had errors |
| UploadProduct.Finish | src/app/upload-product/page.tsx:100-128 | the uploader runs only with entries; the alert and the reset follow |
| UploadProduct.Process | src/app/upload-product/page.tsx:65-131 | registrations, then entries and alert; a failed post gives 'Ошибка создания товара' without a reset |
| UploadProduct.ProductForm.AddSkuRow | src/app/upload-product/page.tsx:31 | one blank row is appended |
| UploadProduct.ProductForm.RemoveSkuRow | src/app/upload-product/page.tsx:33-36 | with at most one row, nothing changes; the list never empties |
| UploadProduct.ProductForm.UpdateSku | src/app/upload-product/page.tsx:38-44 | only the indexed row's SKU changes |
| UploadProduct.ProductForm.UpdatePngFile | src/app/upload-product/page.tsx:46-52 | only the indexed row's picture changes |
| UploadProduct.ProductForm.Submit | src/app/upload-product/page.tsx:62-133 | posts, upload, alert and reset as the handler does |
| UploadProduct.ProductForm.HandleSubmit | src/app/upload-product/page.tsx:54-134 | an incomplete form gets only the 'required' alert and keeps its inputs; a complete one registers every SKU and, only when all succeed, sends the PNG entries (if any), shows the reply and resets the form iff the upload created the product; a failed registration stops with the failure alert and nothing sent |

## Findings

| source | as written | input that shows it | evidently intended | confidence | as-written member | corrected member |
|---|---|---|---|---|---|---|
| middleware.ts:33-35 | `matcher` lists `'/api/properties'` and `'/api/points'` without `:path*`, so the guard never runs on longer paths, although `PROTECTED_ROUTES` protects them by prefix and the routes below do not check the session themselves | POST `/api/points/upload` without a session: the route table marks it protected, yet the request passes | the guard reaches every path the route table protects (`'/api/points/:path*'`, `'/api/properties/:path*'`) | not executed; medium (depends on the framework's matcher reading a path without `:path*` as that path only) | Middleware.PointsUploadUnguarded | Middleware.CorrectedMatcherGuardsRoutes |

## Left out

- Network, FTP, the disk API and file-system I/O are not modelled. `getFiles`, `getUploadUrl`, `uploadToHref`, `setCustomProperties`, `fetch`, the FTP save and `loadProperties`/`saveProperties` appear as parameters or as in-memory state.
- Authentication (JWT) is not modelled: the route guard takes the answer of `verifyAuth` as a boolean.
- The framework's matcher is modelled for the three entries only: a trailing slash, locale prefixes and data-route suffixes are not.
- Floating point is not modelled. Coordinates are exact reals and `parseFloat` is a parameter. The POST defaults 53.9/27.5667 are modelled, with 0 falling back as JavaScript's `||` does; NaN, which `||` would also replace, does not exist among the reals. The `toFixed` formatting is left out.
- PointsPage.IsValidPoint: ids are integers throughout the model, so the `p.id != null` test of the page's filter always holds; a point without an id is not represented.
- Full Unicode is not modelled:
  - `toLowerCase` covers ASCII and Cyrillic А–Я/Ё only;
  - `trim` strips ASCII white space only;
  - `encodeURIComponent` is a parameter;
  - JavaScript's code-unit string order in `sort()` is modelled as character order.
- Utils.HighlightText: the case-insensitive global replacement is the parameter `markAll`. Only the empty-query case and the pattern are stated.
- React scheduling is not modelled. Effects run as explicit `Refresh` steps after the handler, and batching and render order are left out.
- Timers are not modelled: the retry delays of the upload handler, the auto-dismiss of alerts and the upload progress figures.
- The products cache file with its mtime check is not modelled, nor is the GET handler that wraps `buildProductsFromFiles`.
- PointsApi.PointsStore.Patch: a crash of the handler on a point missing `geometry` or `properties` returns 500 without the runtime's error text.
- PointsApi.PointsStore.Post: the error messages of a failed remote read or save are parameters, not the runtime's own texts.
- Properties.PropertyStore: values of a property type that are neither lists nor the 'Подкатегория' record are not modelled. Such a type counts as absent.
- SearchBar.SearchBox.KeyDown: `preventDefault` and the rendered dropdown are left out.
- The spreadsheet parsing by `XLSX` is not modelled: rows arrive as maps from column title to cell text.
- The upload progress callbacks and the `uploading`/`submitting` spinners are not modelled beyond the flag being reset.
