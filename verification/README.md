# Bible passages and quotes: a verified model

This project models, in Dafny, the logic of a typing-practice site's Bible mode. It covers three parts.

- **Passage sampler** (`frontend/src/ts/controllers/bible-controller.ts`, module `BibleController`):
  - Module-level state: the selected book slug, which is persisted; a cache of the book list; a queue of passages; and a cursor into the queue.
  - Chunking: a book's chapters are cut into consecutive chunks of 1 to 12 verses, with one random draw per chunk. A chunk's verse texts are joined by single spaces, and a text is kept when it is longer than 10 characters.
  - Filtering: passages are filtered by inclusive character-length groups, falling back to every passage when the filter leaves nothing.
  - Serving: `getRandomPassage` refills an exhausted queue with a shuffled book's passages and otherwise serves the next item.
  - Reset: a `quoteLength` config event or a book change clears the queue.
- **JSON fetch layer** (`frontend/src/ts/utils/json-data.ts`, module `JsonData`):
  - `fetchJson` and its error conditions.
  - `memoizeAsync`: a never-evicted key→result map in which a failure stays cached.
  - The SHA-256 integrity gate in front of language objects.
  - The `getLanguage` current-language cache.
  - The three-valued `checkIfLanguageSupportsZipf`.
- **Quote generator script** (`scripts/generate-bible-quotes.py`, module `BibleQuotes`):
  - `parse_reference`: the regular expression `^(.+?)\s+(\d+):(\d+)(?:-(\d+))?$`, with its lazy book group and its `$`.
  - `format_source` and the round trip between the two.
  - `download_book`'s cache.
  - `extract_verses`.
  - The steps of `main`: de-duplicating references in first-occurrence order, collecting needed books, downloading, assembling quotes, sequential ids, and the three length buckets.

Shared helpers:
- `Wrappers`: the Option and Result types.
- `Text`: ASCII character classes, `join`, `strip`, and decimal numerals.
- `Seqs`: order-preserving filter, de-duplication, and subsequence.

Inputs stand in for everything that is not deterministic:
- The network is a `Network<T>` value (no response, or a response with `ok`, status, content type and body).
- The language digest is an uninterpreted function.
- The chunk draws are a stream `draw: nat -> int` of values in [0, 12).
- The book pick is a real in [0, 1).
- `shuffle` is any function that returns a permutation.
- A book download's outcome is a function from book name to `Option<BookJson>`.

State that the source mutates is modelled with classes:
- `BibleController.Controller`: the controller's module variables.
- `JsonData.MemoCache`: the memo map.
- `JsonData.LanguageLoader`: `currentLanguage` and its memoised loader.
- `BibleQuotes.BookCache`: the script's `book_cache` dict.

Loops are methods proved against specification functions, and the properties are proved about those functions:
- `CutChapter` and `GenerateAllPassages` against `Passages`;
- `ExtractVerses` against `Extracted`;
- `CollectReferences` against `Dedup(Flatten(...))`;
- `AssembleQuotes` against `Assembled`;
- `AssignIds` against `WithIds`.

The controller draws a random chunk size per chunk, picks one random book for "all", and has no theme logic.

## Model

| member | source | states |
|---|---|---|
| BibleController.Slug | frontend/src/ts/controllers/bible-controller.ts:49 | The slug has the name's length. Each space becomes `-`, each upper-case ASCII letter becomes its lower-case letter, and every other character is unchanged, so no space or upper-case ASCII letter remains |
| BibleController.FindBySlug | frontend/src/ts/controllers/bible-controller.ts:48-50 | Returns the first book whose slug equals the selection, or None when no book's slug does |
| BibleController.DisplayName | frontend/src/ts/controllers/bible-controller.ts:45-52 | "All Books" for "all". Otherwise: the raw slug while the list is unloaded or when no book matches; else the name of the first book whose slug matches |
| BibleController.BuildQuoteText | frontend/src/ts/controllers/bible-controller.ts:67-69 | No verses give the empty text |
| BibleController.BuildQuoteTextLength | frontend/src/ts/controllers/bible-controller.ts:67-69 | One verse is quoted verbatim. Otherwise the length is the sum of the verse texts plus one space per gap |
| BibleController.ChunkSize | frontend/src/ts/controllers/bible-controller.ts:80 | Given a floored draw in [0, 12), the chunk size `1 + draw` lies in [1, 12] |
| BibleController.ChunkSizeOfRandom | frontend/src/ts/controllers/bible-controller.ts:80 | For every `Math.random()` value r in [0, 1), `floor(r * 12)` lies in [0, 12), which is what the draw stream assumes, and the chunk size lies in [1, 12] |
| BibleController.ChunksCover | frontend/src/ts/controllers/bible-controller.ts:79-87 | A chapter's chunks, concatenated, are exactly its verses from the start position on, in order: consecutive, non-overlapping and covering |
| BibleController.ChunkSizes | frontend/src/ts/controllers/bible-controller.ts:79-86 | Every chunk has 1 to 12 verses, at most its drawn size. Every chunk but the last has exactly its drawn size |
| BibleController.NextDrawCountsChunks | frontend/src/ts/controllers/bible-controller.ts:79-87 | The loop consumes exactly one draw per chunk |
| BibleController.KeptMembers | frontend/src/ts/controllers/bible-controller.ts:82-85 | A text is kept iff it is longer than 10 characters and is the text of one of the chunks |
| BibleController.KeptAppend | frontend/src/ts/controllers/bible-controller.ts:74-88 | The passages of two runs of chunks are the passages of each run, concatenated |
| BibleController.PassagesAreLongChunkTexts | frontend/src/ts/controllers/bible-controller.ts:71-91 | Every passage is the joined text of some chunk of the book and is longer than 10 characters. Every chunk text longer than 10 characters is a passage |
| BibleController.KeptCons | frontend/src/ts/controllers/bible-controller.ts:82-86 | One turn of the chunk loop appends the chunk's text iff it is longer than 10 characters, preserving the loop's target |
| BibleController.CutChapter | frontend/src/ts/controllers/bible-controller.ts:79-87 | The inner loop appends exactly the kept texts of the chapter's chunks and returns the next unused draw |
| BibleController.GenerateAllPassages | frontend/src/ts/controllers/bible-controller.ts:71-91 | The passages are those of `Passages`: the kept chunk texts of every chapter in order, with the draws continuing across chapters |
| BibleController.FilterByQuoteLengthSpec | frontend/src/ts/controllers/bible-controller.ts:93-107 | No group gives the input unchanged. Otherwise the result is an ordered subsequence of the input, and a passage is in it iff its length is in some requested group |
| BibleController.FilterByQuoteLengthCounts | frontend/src/ts/controllers/bible-controller.ts:99-106 | Each passage is kept as many times as it occurs when its length is in a requested group, and dropped otherwise |
| BibleController.UnknownGroupsMatchNothing | frontend/src/ts/controllers/bible-controller.ts:102-103 | Requests naming no existing group select nothing |
| BibleController.GroupBoundaries | frontend/src/ts/controllers/bible-controller.ts:24-28 | Length 100 is short and not medium. 101 is medium and not short. 600 is long. 601 is in no group |
| BibleController.LoadedPassagesSpec | frontend/src/ts/controllers/bible-controller.ts:113-118 | The result is an ordered subsequence of all passages, and non-empty when the book yields any. It is the filtered list when some passage matches, and all passages when none does |
| BibleController.LoadPassages | frontend/src/ts/controllers/bible-controller.ts:109-119 | A fetch failure is propagated unchanged. Otherwise the result is the fallback-filtered `Passages` of the fetched book |
| BibleController.PickIndex | frontend/src/ts/controllers/bible-controller.ts:130-132 | `floor(random * n)` is a valid index for a non-empty list |
| BibleController.Controller.constructor | frontend/src/ts/controllers/bible-controller.ts:30-39 | The selection is the stored one, or "all"; the cache is empty; the queue is empty with cursor 0 |
| BibleController.Controller.SetSelectedBook | frontend/src/ts/controllers/bible-controller.ts:54-59 | Afterwards the selection returns the slug, the slug is persisted, the queue is empty and the cursor is 0. The book cache is untouched |
| BibleController.Controller.OnConfigEvent | frontend/src/ts/controllers/bible-controller.ts:148-153 | A "quoteLength" event clears the queue and resets the cursor. Any other key changes nothing |
| BibleController.Controller.GetBooks | frontend/src/ts/controllers/bible-controller.ts:61-65 | With a cache: returns it with no request. Without one: makes one request, caches a successful list, and leaves a failure uncached |
| BibleController.Controller.ChooseSlug | frontend/src/ts/controllers/bible-controller.ts:128-136 | Returns the selected slug, or for "all" the slug of the book at the picked index. A failure to list books, or an empty list, is an error. Only "all" with no cache requests the list |
| BibleController.Controller.Refill | frontend/src/ts/controllers/bible-controller.ts:124-140 | On success the queue is the shuffle (a permutation) of the loaded passages and the cursor is 0. A failure leaves the queue and cursor unchanged. The requests made are the book list (only for "all" with no cache), then the chosen book's file |
| BibleController.Controller.GetRandomPassage | frontend/src/ts/controllers/bible-controller.ts:121-145 | Regenerates iff the queue is empty or the cursor has passed its end. Then serves the item at the cursor and advances it by exactly one; an empty queue serves undefined (None). A queue that needs no regeneration is untouched and no request is made; a regeneration makes the requests `Refill` makes |
| JsonData.FetchJson | frontend/src/ts/utils/json-data.ts:18-34 | An empty URL fails before any request. No response fails with the transport error, a non-ok status fails with that status, and an ok response that is not JSON fails. Succeeds iff all checks pass, returning the body |
| JsonData.MemoCache.constructor | frontend/src/ts/utils/json-data.ts:45-49 | A new memo has an empty map and no recorded calls |
| JsonData.MemoCache.Call | frontend/src/ts/utils/json-data.ts:51-62 | The key is `getKey(args)` or `args`. A hit returns the stored result without calling `fn`. A miss calls `fn` once and stores its result. Nothing is removed, and `fn` ran at most once per key |
| JsonData.CachedFetchJson | frontend/src/ts/utils/json-data.ts:70 | A URL seen before returns its stored outcome, a failure included. A new URL is fetched once and stored |
| JsonData.FetchSameUrlTwice | frontend/src/ts/utils/json-data.ts:54-60 | A second request for a URL returns the first request's outcome, whatever the network would now answer |
| JsonData.LoadLanguage | frontend/src/ts/utils/json-data.ts:90-108 | A fetch error is propagated. Outside dev mode a loaded object is returned iff its digest equals the bundled hash for the language, and fails with the integrity error otherwise. Dev mode skips the check |
| JsonData.ZipfSupportOf | frontend/src/ts/utils/json-data.ts:128-130 | true gives "yes", false gives "no", and absent gives "unknown", each in both directions |
| JsonData.LanguageLoader.constructor | frontend/src/ts/utils/json-data.ts:88-90 | No current language and an empty loader cache |
| JsonData.LanguageLoader.GetLanguage | frontend/src/ts/utils/json-data.ts:114-122 | The loader is consulted only when no language is held or another one is. A loaded object becomes current, and a failure leaves it as it was. The memo gains the outcome, failure included, exactly when the loader ran. Outside dev mode, a returned object always passed the integrity check |
| JsonData.GetLanguageTwice | frontend/src/ts/utils/json-data.ts:90-122 | On a fresh module the second `getLanguage(lang)` returns the first's outcome whatever the network then answers: a failed load or integrity check stays failed |
| JsonData.LanguageLoader.CheckIfLanguageSupportsZipf | frontend/src/ts/utils/json-data.ts:124-131 | The three-valued answer for the language `getLanguage` resolves to, or its failure. The current language and the memo change exactly as in `getLanguage` |
| Text.Strip | scripts/generate-bible-quotes.py:402 | The result is a slice with only whitespace cut from both ends and none left at either end. It is empty iff the string is all whitespace |
| Text.JoinLength | frontend/src/ts/controllers/bible-controller.ts:68 | A join's length is the parts' lengths plus one separator per gap |
| Text.NatStrValue | scripts/generate-bible-quotes.py:365-367 | `int()` of the decimal numeral of n is n |
| Seqs.FilterMember | scripts/generate-bible-quotes.py:477-479 | An element is in a filtered list iff it is in the list and satisfies the predicate |
| Seqs.FilterMultiset | scripts/generate-bible-quotes.py:477-479 | Filtering keeps each wanted element as many times as it occurs and drops the others |
| Seqs.FilterIsSubsequence | frontend/src/ts/controllers/bible-controller.ts:99-106 | A filtered list is an ordered subsequence of its input |
| Seqs.DedupSpec | scripts/generate-bible-quotes.py:427-430 | De-duplication has no duplicates and has exactly the input's elements |
| Seqs.DedupFirstOccurrenceOrder | scripts/generate-bible-quotes.py:427-430 | De-duplicated elements are in the order of their first occurrences |
| BibleQuotes.MatchTailSound | scripts/generate-bible-quotes.py:361 | A successful match of `\s+(\d+):(\d+)(?:-(\d+))?$` comes from a split of the text into those groups, with the values they spell |
| BibleQuotes.MatchTailComplete | scripts/generate-bible-quotes.py:361 | Every such split is found, with the same chapter, start and end; the end defaults to the start |
| BibleQuotes.ParseFromSpec | scripts/generate-bible-quotes.py:361-363 | Trying book lengths from n on finds a match with the shortest book of at least n characters, or proves that no such match exists |
| BibleQuotes.ParseReferenceSpec | scripts/generate-bible-quotes.py:358-368 | `parse_reference` succeeds iff the whole string matches the pattern. It returns a match, and its book is the shortest that matches |
| BibleQuotes.ParsedBookShape | scripts/generate-bible-quotes.py:361 | A parsed book is non-empty and has no newline. It ends in whitespace only if it is a single character |
| BibleQuotes.DropTrailingSpace | scripts/generate-bible-quotes.py:361 | A match whose book ends in whitespace stays a match with that character moved to `\s+` |
| BibleQuotes.FormatSource | scripts/generate-bible-quotes.py:409-413 | The source string is the book followed by a space and more text |
| BibleQuotes.SourceTailMatch | scripts/generate-bible-quotes.py:411-413 | " C:S", or " C:S-E" when S differs from E, matches the pattern's tail with exactly C, S, E |
| BibleQuotes.ParseFromShortest | scripts/generate-bible-quotes.py:361 | A book that cannot end in whitespace and is followed by a space and a matching tail is the book the lazy group finds |
| BibleQuotes.FormatSourceRoundTrip | scripts/generate-bible-quotes.py:409-413 | `parse_reference(format_source(b, c, s, e)) == (b, c, s, e)` for a non-empty, newline-free book not ending in whitespace and non-negative numbers |
| BibleQuotes.ParseFormatParse | scripts/generate-bible-quotes.py:358-368 | Formatting any parsed reference gives a string that parses back to the same reference |
| BibleQuotes.BookCache.constructor | scripts/generate-bible-quotes.py:444 | The book cache starts empty |
| BibleQuotes.BookCache.DownloadBook | scripts/generate-bible-quotes.py:371-391 | A cache hit returns the cached book with no download. An unmapped book returns None and changes nothing. A mapped book downloads its file once, caching and returning a success and returning None on a failure |
| BibleQuotes.BookCache.DownloadAll | scripts/generate-bible-quotes.py:444-446 | The cache ends up holding exactly the needed books that have a file and downloaded successfully, plus what it held before. The files downloaded are exactly those of the needed, mapped books not cached before |
| BibleQuotes.FirstChapter | scripts/generate-bible-quotes.py:396-397 | Finds the first chapter entry with the number, or proves that none has it |
| BibleQuotes.ExtractVerses | scripts/generate-bible-quotes.py:394-406 | Returns what `Extracted` defines: the joined stripped in-range texts of the first matching chapter, else None |
| BibleQuotes.CollectRange | scripts/generate-bible-quotes.py:398-402 | The inner loop collects the stripped texts of the in-range verses |
| BibleQuotes.RangeTextsAreFilter | scripts/generate-bible-quotes.py:399-402 | The collected texts are the stripped texts of exactly the verses with start ≤ v ≤ end, in stored order |
| BibleQuotes.RangeTextsEmpty | scripts/generate-bible-quotes.py:401-403 | Nothing is collected iff no verse number lies in the range |
| BibleQuotes.ExtractedSpec | scripts/generate-bible-quotes.py:394-406 | A text is returned iff some chapter has the number and the first such chapter has a verse in range. The text is then the selected stripped texts joined by single spaces |
| BibleQuotes.LaterChaptersIgnored | scripts/generate-bible-quotes.py:403-405 | Once a chapter with the number is found, later chapter entries never change the result, even when the found one has no verse in range |
| BibleQuotes.FlattenMembers | scripts/generate-bible-quotes.py:420-427 | The categories' references, one after another, hold exactly the references of every category |
| BibleQuotes.CollectReferences | scripts/generate-bible-quotes.py:417-431 | The loops build `Dedup` of the concatenated categories |
| BibleQuotes.AddCategory | scripts/generate-bible-quotes.py:427-430 | One category's references are appended unless seen. The `seen` set stays equal to the set of collected references |
| BibleQuotes.AllRefsSpec | scripts/generate-bible-quotes.py:417-431 | `all_refs` has no duplicates and holds every reference of every category and nothing else, in first-occurrence order |
| BibleQuotes.BooksNeeded | scripts/generate-bible-quotes.py:436-440 | `books_needed` is the set of books of the references that parse |
| BibleQuotes.MakeQuote | scripts/generate-bible-quotes.py:452-474 | One iteration of the extraction loop gives the quote of a reference, or skips it |
| BibleQuotes.QuoteForSpec | scripts/generate-bible-quotes.py:464-474 | A quote has non-empty text and length equal to the text's length. Its source parses to the same reference as the line it came from |
| BibleQuotes.AssembleQuotes | scripts/generate-bible-quotes.py:451-474 | The loop builds `Assembled`: the quotes of the references in order |
| BibleQuotes.AssembledSpec | scripts/generate-bible-quotes.py:451-474 | There is exactly one quote per reference that parses, has truthy book data and yields text, in reference order, and it is that reference's quote |
| BibleQuotes.WithIds | scripts/generate-bible-quotes.py:487-489 | Numbering keeps the length and every field but the id, and gives ids 1..n in order |
| BibleQuotes.AssignIds | scripts/generate-bible-quotes.py:487-489 | The in-place loop leaves the array equal to `WithIds` of its old contents |
| BibleQuotes.GenerateQuotes | scripts/generate-bible-quotes.py:416-489 | `main` yields the numbered `Assembled` quotes of the de-duplicated references, over the books needed by them and downloaded into an empty cache |
| BibleQuotes.BucketsPartition | scripts/generate-bible-quotes.py:477-479 | Short, medium and long partition the quotes, counting each occurrence once. Each list holds only lengths ≤ 100, 101..300 and > 300 respectively |

## Left out

I/O and the outside world:
- Real I/O: `window.fetch`, `urllib` downloads, console and `print` output, and writing the output file (`scripts/generate-bible-quotes.py:481-485, 491-510`). Responses and download outcomes are inputs.
- SHA-256, `TextEncoder` and `JSON.stringify`: the digest of a language object is an uninterpreted function.
- `LocalStorageWithSchema` and its schema validation: the stored value is the `storedBook` field. The config-event bus is the explicit `OnConfigEvent` method.
- Promise and async semantics: concurrent callers sharing one in-flight promise in `memoizeAsync` are not expressible. Calls are sequential, and the stored value is the settled outcome, success or failure.

Controller wiring:
- The controller's fetches are not wired to `MemoCache`. The outcomes of `cachedFetchJson("bible/books.json")` and of each book file are parameters. The memo's behaviour is proved separately, in `JsonData.MemoCache` and `JsonData.FetchSameUrlTwice`.
- `getSelectedBook`, `getSelectedBookDisplayName`: these are field reads (`Controller.GetSelectedBook`, `Controller.GetSelectedBookDisplayName`) with no contracts of their own. Their rules are stated on `DisplayName` and on `SetSelectedBook`'s ensures.
- `getLayout`, `getCurrentLanguage`, `getChallengeList` and the supporters and contributors lists of `json-data.ts` are one-line wrappers around the fetch functions and are not modelled.

Randomness:
- `Math.random()` for chunk sizes: the draws are the already floored values `Math.floor(Math.random() * 12)` in [0, 12). The floor of a real is modelled only for the book pick (`PickIndex`).
- `shuffle`: only its permutation property is assumed of it. Uniformity is not modelled.

Type and representation gaps:
- Strings are sequences of characters. JavaScript's UTF-16 lengths versus Python's code points are not modelled.
- Python's `\s`, `\d` and `strip()` are modelled on ASCII only: `\s` and `strip()` as space, \t, \n, \v, \f, \r and 0x1C to 0x1F, and `\d` as 0 to 9. The non-ASCII whitespace and digits they also accept are not modelled.
- BibleController.Slug: `toLowerCase()` is modelled on ASCII letters only. The Unicode case mapping of other letters is not modelled, so the slug of a name with non-ASCII capitals differs.
- `Object.keys` order of a book's chapters is the stored sequence order. Integer-like keys, which JavaScript lists first in ascending order, are not reordered.
- JSON values are typed: the chapter and verse numbers are already integers, so `int()` on a JSON string is not modelled. A book file that is not an object is not representable. A falsy book file is represented by the absence of keys.
- `BOOK_FILES` and the curated reference lists are data: the file table is a parameter `files`, and the categories a parameter `categories`.
- `BibleQuotes.BookCache.DownloadAll`: books are downloaded in an arbitrary order rather than `sorted` order. Only the final cache is stated, and it does not depend on the order.
- `BibleQuotes.FormatSourceRoundTrip`: stated for non-negative chapter and verse numbers only. `parse_reference` never produces negative ones, and `format_source` of a negative number writes a `-` the pattern does not accept.
