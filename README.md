# MangaPark source adapter — record mapping model

This project models the part of the MangaPark source adapter (`src/index.js`)
that turns the provider's decoded GraphQL responses into the records a
manga-reading host understands:

- **searchManga**: every search item becomes a `MangaSeries` titled by its
  `name`, or by `altNames[0]` when the name is empty or absent; an item with
  neither is dropped; the results keep provider order, carry the item's id
  and cover URL, and are unranked (`-1`).
- **listChapters**: when `data` is an empty collection the chapter list is
  empty; otherwise, range item by range item, the chapter nodes whose `lang`
  lower-cases to `"en"` become `ChapterListItem`s numbered by the item's
  `serial`, and the groups are concatenated in order.
- **getChapter**: element `i` of the response array becomes the page URL
  `url + "?" + i` (the `map` callback's second argument is the index).

The transport (`fetch`, `response.json()`) is replaced by the decoded JSON as
an input value. The record classes of the source are plain field containers
and are datatypes here (module `Records`).

Files: `wrappers.dfy` (Option), `records.dfy` (the five record shapes),
`sequences.dfy` (the map-then-drop idiom, with the positions of the kept
elements), `decimal.dfy` (the decimal text of an index and its reading back),
`search.dfy`, `chapters.dfy`, `pages.dfy`.

The model follows the code as written:

- there is no filtering of series with zero chapters;
- there is no HTTP-status check;
- a chapter node without `lang` makes line 305 throw instead of passing the
  filter, so every node's `lang` being present is a precondition of
  `ListChapters`;
- a range list whose `items` array is empty reaches `new ChapterList` at
  line 330 and gives an empty chapter list; the other empty case, a `data`
  of length 0 (lines 295-299), is discussed under "Left out";
- `number` is the item's `serial` passed through, not converted;
- `getChapter` maps the response value itself (not a nested `imageSet`
  path) and produces plain URL strings, not page records.

## Model

| member | source | states |
|---|---|---|
| `Sequences.FilterMap` | src/index.js:243-265 | mapping each element to a record or nothing and dropping the nothings never yields more records than elements |
| `Sequences.FilterMapOrigins` | src/index.js:243-265 | the kept records are an order-preserving selection: record k is what the element at an increasing position k yields, and every element that yields a record is kept |
| `Search.ResolveTitle` | src/index.js:246-256 | the title is `name` when that is non-empty, otherwise `altNames[0]` when that is non-empty; a title is found exactly when one of them is non-empty, and a found title is never empty |
| `Search.SearchManga` | src/index.js:243-269 | at most as many results as items; every result has a non-empty name and ranking -1 |
| `Search.SearchResultsFromItems` | src/index.js:243-265 | result k comes from the item at an increasing position: name when non-empty, else `altNames[0]`; identifier is the item's id; cover URL is `imageCoverUrl`; ranking -1 |
| `Search.SearchKeepsExactlyTitled` | src/index.js:246-256 | an item produces a result if and only if its `name` or its `altNames[0]` is non-empty |
| `Chapters.EnglishSpellings` | src/index.js:305 | a language code passes the filter if and only if it is "en", "En", "eN" or "EN" (so "zh" is excluded) |
| `Chapters.ListChapters` | src/index.js:295-334 | an empty `data` gives no chapters; otherwise the list is the in-order concatenation over range items of each item's English chapters |
| `Chapters.GroupCount` | src/index.js:305-325 | one range item contributes exactly as many chapters as it has English nodes |
| `Chapters.ChapterCount` | src/index.js:302-327 | the chapter list's length is the total number of English nodes over all range items |
| `Chapters.ChapterFromOrigin` | src/index.js:302-327 | chapter k is made from an English node: number is its item's serial, identifier the node id, title `dname`, variant `srcTitle`, created `dateCreate`, updated `dateModify`, and description, group and published are null |
| `Chapters.ChaptersInProviderOrder` | src/index.js:302-327 | chapters appear ordered by range item and, within an item, by node position |
| `Chapters.EveryEnglishNodeListed` | src/index.js:303-305 | every English node of every range item appears in the chapter list |
| `Decimal.NatToDecimal` | src/index.js:355-357 | an index is written as a non-empty string of digits without a leading zero |
| `Decimal.DecimalRoundTrip` | src/index.js:355-357 | reading back the decimal text of an index gives the index |
| `Decimal.CanonicalRoundTrip` | src/index.js:355-357 | every digit string without a leading zero is the decimal text of its value |
| `Pages.GetChapter` | src/index.js:355-359 | there are exactly as many page URLs as response elements |
| `Pages.PageUrlRoundTrip` | src/index.js:355-357 | splitting a page URL at its last "?" gives back the response URL and the index, written without leading zeros |
| `Pages.SplitPageUrlSound` | src/index.js:355-357 | a string that reads back as a URL and an index is exactly the page URL `url + "?" + index`, so page URLs and (URL, index) pairs correspond one to one |
| `Pages.GetChapterRoundTrip` | src/index.js:355-359 | page URL i reads back as response element i and index i, so every element is kept, in order |

## Left out

- Transport: `fetch`, request headers and bodies, `response.json()` and the endpoint constant are I/O against an external service; the decoded JSON is an input.
- The GraphQL query strings and the extension id are constants without behaviour.
- Logging (`console.log`, `console.debug`) is a side effect only.
- `async`/`await`: the operations are modelled as synchronous.
- `MangaSeriesList.addResult` is never called and calls `MangaSeries` without `new`, so it has no behaviour worth stating.
- `offset`, `limit`, `since` and `order` are accepted but never used, so there is no pagination to model.
- `ListChapters`, empty `data`: the short-circuit at lines 295-299 calls `ChapterList` without `new`, which JavaScript rejects with a TypeError, so as written a `data` of length 0 throws instead of returning; the model returns the empty chapter list that is evidently meant.
- `ListChapters`, loop variable: `src/index.js` is an ES module (it has `import` and `export`), so its code runs in strict mode, and `for (result of …)` at line 303 assigns to an undeclared name. As written, the first iteration throws a ReferenceError, so `listChapters` throws whenever `items` is non-empty, unless the host defines a global `result`. The model uses the local loop variable the code evidently means.
- The duplicate `created` field declaration of `ChapterListItem` has no effect once the constructor runs and is not modelled.
- JavaScript values are typed here: ids, names and URLs are strings, timestamps integers, and null and undefined are both `None`. For `variant`, `created` and `updated` the constructor's `= null` defaults (lines 41-46) turn undefined into null, so this loses nothing; `title` has no default (lines 37-40), so a node without `dname` gives a `title` of undefined where one with a null `dname` gives null, and the model merges the two into `None`.
- Response shapes: the model takes the decoded response in the shape each mapping reads, not the shape the code's own queries return. `searchManga` reads `json.data.items` (line 243), but the search query returns its items under `data.get_content_browse_search.items` (lines 125 and 137), so against that query `json.data.items` is undefined and the `map` call throws. `getChapter` calls `json.map` (line 355) on the whole response, which for the chapter query is an object holding `data.get_content_chapter_node`, not an array, so it throws as well. The model's `SearchManga` takes the list of search items and `GetChapter` the array of URLs directly.
- Other malformed responses are not representable: a null `altNames` on an item whose `name` is empty or absent (line 248) and a missing `chapterNodes` would throw in the source. When `name` is usable, `altNames` is never read, and the model's `[]` gives the same result as a null `altNames`.
- `toLowerCase` is modelled for ASCII letters only; no non-ASCII character lower-cases to "e" or "n", so the filter's outcome is the same.
- `ListChapters`: a chapter node without `lang` makes the source throw; the model requires every `lang` to be present instead of modelling the exception.
