# nprocure tender scraper — a Dafny model of its core

The scraper crawls the listing pages of the nprocure tender portal. For every tender it
lists, the scraper fetches the detail page and merges the listing stub into it. It then
cleans and validates each record and hands the batch to storage. A run tracker counts
pages, parsed and saved tenders and failures, each failure under an error category.

This project models four parts of it:

- `DataCleaner` (clean/cleaner.py): `cleaner.dfy`, with `text.dfy` (whitespace collapse
  and strip), `boilerplate.dfy` (the seven boilerplate patterns and `re.sub`), `dates.dfy`
  (the eleven date formats) and `decimal.dfy` (digit strings).
- `TenderParser` (parse/parser.py): `parser.dfy`. A parsed page is seen only through its
  `select_one`/`select` queries.
- `TenderScraper` (scrape.py): `scraper.dfy`. The fetcher, the parser, the cleaner and
  storage are parameters of a `Pipeline`.
- `RunTracker` (metadata/tracker.py): `tracker.dfy`, a class whose methods update its
  counters in place.

`records.dfy` holds the tender dict (`map<Field, Value>`) and Python truthiness.
`wrappers.dfy` holds `Option`.

Every loop of the source is a method, specified by a function. The scraper functions
return the records the source produces together with the tracker calls it makes, in
order. A method's effect on the tracker is `Replay` of those calls on the old counters.
The lemmas state the properties of the source in terms of these functions.

## Model

| member | source | states |
|---|---|---|
| Tracker.RunTracker.constructor | metadata/tracker.py:32-37 | a new tracker has every counter at 0 and an empty error tally |
| Tracker.RunTracker.IncrementPages | metadata/tracker.py:62-64 | adds `count` to pages_visited; every other counter and the tally stay as they were |
| Tracker.RunTracker.IncrementParsed | metadata/tracker.py:66-68 | adds `count` to tenders_parsed and changes nothing else |
| Tracker.RunTracker.IncrementSaved | metadata/tracker.py:70-72 | adds `count` to tenders_saved and changes nothing else |
| Tracker.RunTracker.IncrementDeduped | metadata/tracker.py:74-76 | adds `count` to deduped_count and changes nothing else |
| Tracker.RunTracker.RecordError | metadata/tracker.py:78-81 | one more failure and one more occurrence of the category; nothing else changes |
| Tracker.RunTracker.UpdateStats | metadata/tracker.py:83-92 | adds each of parsed/saved/deduped/failed that is present to its counter; a missing key adds nothing |
| Tracker.RecordErrorCounts | metadata/tracker.py:78-81 | `record_error(k)` raises failures and the count of `k` by one; every other category and counter is unchanged |
| Tracker.UpdateStatsKeys | metadata/tracker.py:83-92 | `update_stats` never changes pages_visited or the error tally, raises failures by `stats['failed']` (0 when absent), and is a no-op on a dict without its four keys |
| Tracker.ApplyGrows | metadata/tracker.py:62-92 | with non-negative counts, one call lowers no counter and forgets no error |
| Tracker.ReplayGrows | metadata/tracker.py:62-92 | the same holds for any sequence of calls |
| Tracker.ApplyKeepsCover | metadata/tracker.py:78-92 | with non-negative counts, one call keeps failures at least the total of the error tally |
| Tracker.ReplayKeepsCover | metadata/tracker.py:78-92 | so from the initial counters, failures is never below the sum of error_summary, over any sequence of calls |
| Tracker.ReplayAppend | metadata/tracker.py:62-92 | replaying two runs of calls in turn is replaying them concatenated |
| Scraper.ListingUrlsDistinct | scrape.py:107 | two different pages (numbered from 1) are requested at different URLs |
| Scraper.MergeFields | scrape.py:166-170 | the merged record's keys are the union of both; source_url is the stub's; truthy detail values stay; a stub key absent or falsy in the detail takes the stub's value; detail-only keys stay |
| Scraper.MergeIdempotent | scrape.py:166-170 | merging the same stub into a merged record changes nothing |
| Scraper.TenderScraper.MergeDetail | scrape.py:166-170 | the in-place merge loop, over the stub's keys in any order, yields `Merge` |
| Scraper.FetchAccounting | scrape.py:143-173 | per stub: a record counts one parsed tender; otherwise exactly one failure, a detail_fetch_error when the fetch failed and a parse_error when it succeeded; pages_visited rises by one exactly when the fetch succeeded |
| Scraper.FetchedRecordsKeepUrl | scrape.py:126-170 | a fetched record carries the stub's source_url, so the `if tender_detail:` test always passes |
| Scraper.TenderScraper.FetchTenderDetail | scrape.py:143-173 | returns the record of `FetchDetail` and leaves the tracker at the replay of its calls |
| Scraper.StoppedStays | scrape.py:130-132 | once the limit is reached, the remaining stubs are not fetched and change nothing |
| Scraper.BatchAccounting | scrape.py:125-132 | a listing's loop keeps earlier records in front; it handles every stub unless the limit stopped it; each new record is one parsed tender; every handled stub without a record is one failure; every handled stub counts either one page or one detail_fetch_error |
| Scraper.BatchStopsAtLimit | scrape.py:125-132 | a listing's loop stops early only when the records gathered reach the limit; after one stub it has stopped exactly then; with no limit (None or 0) it never stops |
| Scraper.BatchWithinLimit | scrape.py:130-132 | with a positive limit, a listing's loop never gathers more records than the limit |
| Scraper.TenderScraper.ScrapeListing | scrape.py:125-132 | the stub loop with its early return yields the records and the stop of `ProcessStubs`, and the tracker at the replay of its calls |
| Scraper.PageAccounting | scrape.py:104-139 | one pass: a fetch_error is recorded exactly when the listing fetch fails; an empty listing records no failure; failures are that error plus the handled stubs without a record; pages visited plus detail_fetch_errors are the listing's success plus the handled stubs; the loop goes on only after a listing that was fetched, held stubs and has a next link |
| Scraper.PageGoesOn | scrape.py:110-141 | the crawl goes on after a page exactly when the page was fetched, held stubs and has a next page, and its stubs did not reach the limit; with no limit, exactly when the page leads on |
| Scraper.CrawlPages | scrape.py:101-139 | the pages requested are page, page+1 and so on, in order, none beyond max_pages (10 by default); every page but the last was fetched, held stubs and reported a next link |
| Scraper.CrawlEnds | scrape.py:104-141 | the last page requested is `max_pages`, or a page that does not lead on, or one where the records reached the limit |
| Scraper.CrawlWithinLimit | scrape.py:125-132 | with a positive limit the crawl never returns more records than the limit |
| Scraper.CrawlAccounting | scrape.py:98-141 | the crawl keeps earlier records in front; tenders_parsed rises by the number of records; at most one fetch_error is recorded |
| Scraper.TenderScraper.ScrapePage | scrape.py:105-139 | one pass of the page loop is the first step of `CrawlFrom`: either the crawl ends with its records and calls, or it continues from the next page |
| Scraper.TenderScraper.ScrapeTenders | scrape.py:98-141 | `_scrape_tenders` returns the records of `Scrape()` and leaves the tracker at the replay of its calls |
| Scraper.CleanAccounting | scrape.py:175-188 | records kept plus validation errors recorded equal the input length; each rejected record adds one failure and one validation_error and nothing else to the tally |
| Scraper.CleanAllCanonical | scrape.py:175-188 | with the model's `clean_tender`, every kept record is canonical |
| Scraper.TenderScraper.CleanTenders | scrape.py:175-188 | the cleaning loop yields `CleanAll` in input order and leaves the tracker at the replay of its validation errors |
| Scraper.TenderScraper.SaveTenders | scrape.py:190-200 | the tracker receives one `update_stats` with the saved, deduped and failed counts storage reports |
| Scraper.SavedBatchIsCleanedCrawl | scrape.py:55-75 | with the model's cleaner, the batch `run()` saves is the cleaned crawl, in order, all canonical and never longer than the crawl (there is no deduplication step) |
| Scraper.TenderScraper.Run | scrape.py:55-77 | returns the saved batch and leaves the tracker at the replay of the crawl, cleaning and saving calls, with early exits on an empty crawl or an empty cleaned list |
| Scraper.TenderScraper.constructor | scrape.py:41-53 | a new scraper has a fresh tracker at the initial counters |
| Text.CollapseIsTidy | clean/cleaner.py:67 | after `re.sub(r'\s+', ' ', s)` no two whitespace characters are adjacent |
| Text.CollapseNonSpace | clean/cleaner.py:67 | the collapse keeps every non-whitespace character, in order |
| Text.CollapseTidy | clean/cleaner.py:67 | a text without whitespace runs or other whitespace than blanks is its own collapse |
| Text.CollapseBlank | clean/cleaner.py:67 | a non-empty whitespace run collapses to a single blank |
| Text.CollapseRun | clean/cleaner.py:67 | a whitespace run in front of a word becomes one blank in front of the word's collapse |
| Text.CollapseAppend | clean/cleaner.py:67 | the collapse works piece by piece when the first piece does not end in whitespace, so together with CollapseRun it turns every run between words into one blank |
| Text.CollapseExample | clean/cleaner.py:67 | the collapse of `"a \t b"` is `"a b"` |
| Text.StripFacts | clean/cleaner.py:68 | `strip()` is empty exactly for blank text, keeps the non-whitespace characters and keeps a tidy text tidy |
| Cleaner.CleanText | clean/cleaner.py:61-70 | None exactly for a falsy or all-whitespace text; otherwise a non-empty text without surrounding or doubled whitespace holding the input's non-whitespace characters in order |
| Cleaner.CleanTextIdempotent | clean/cleaner.py:61-70 | cleaning a cleaned text changes nothing |
| Cleaner.CleanTextOfClean | clean/cleaner.py:61-70 | a text already in clean shape is its own cleaning |
| Cleaner.CleanTenderId | clean/cleaner.py:55-59 | None exactly for a falsy id; otherwise a contiguous piece of the id with the same non-whitespace characters and no whitespace at either end, that is the id without surrounding whitespace (empty exactly when it was all whitespace) |
| Boilerplate.MatchLen | clean/cleaner.py:15-23 | a pattern's anchored match is never longer than the text and never empty |
| Boilerplate.RemoveAll | clean/cleaner.py:80 | `re.sub(p, '', s)` never lengthens the text and leaves a text without a match unchanged |
| Boilerplate.RemovePatterns | clean/cleaner.py:79-80 | removing the patterns in order never lengthens the text and changes nothing when none occurs |
| Boilerplate.SquashBlankLines | clean/cleaner.py:83 | the blank-line substitution leaves text without newlines as it is |
| Boilerplate.BlankLineRuleIsDead | clean/cleaner.py:82-83 | applied after the whitespace collapse, the blank-line substitution never changes anything |
| Cleaner.DescriptionOf | clean/cleaner.py:72-86 | None for a falsy description; otherwise a clean text or None |
| Cleaner.CleanDescription | clean/cleaner.py:72-86 | the loop over the patterns followed by the substitutions and the strip yields `DescriptionOf` |
| Cleaner.DescriptionOfClean | clean/cleaner.py:72-86 | a clean description without boilerplate is left as it is |
| Cleaner.CleanTenderType | clean/cleaner.py:88-111 | None exactly for a falsy type; otherwise always one of Goods, Works, Services |
| Cleaner.TypePriority | clean/cleaner.py:98-111 | a goods/supply/procurement keyword gives Goods even beside works; else a works/construction/building keyword gives Works; else Services |
| Cleaner.TypeByPriority | clean/cleaner.py:98-111 | the classification is decided by the two keyword tests alone; anything without a goods or works keyword is Services |
| Cleaner.ExactLabelsMentionKeywords | clean/cleaner.py:100-108 | each of the three labels contains its own keyword, so the exact-label test at line 107 is never reached |
| Cleaner.CleanTenderTypeOfLabel | clean/cleaner.py:88-111 | each of the three labels is classified as itself |
| Dates.Strptime | clean/cleaner.py:139 | a successful `strptime` reads a real calendar date (month 1-12, day within its month, year 1-9999) |
| Dates.TryFormats | clean/cleaner.py:137-142 | the format loop answers None exactly when no format parses, and otherwise the reading of a format that does |
| Dates.FirstFormatWins | clean/cleaner.py:137-142 | the first format that parses decides, whatever later formats say |
| Dates.StripOrdinals | clean/cleaner.py:144 | the ordinal substitution changes the text exactly when a digit is directly followed by `st`, `nd`, `rd` or `th`, and then makes it shorter |
| Dates.StripOrdinalsSuffix | clean/cleaner.py:144 | a digit followed by `st`, `nd`, `rd` or `th` keeps the digit and loses the suffix |
| Dates.StripOrdinalsAppend | clean/cleaner.py:144 | the substitution works piece by piece when neither of the first piece's last two characters is a digit, so only a suffix directly after a digit is dropped and everything else is kept in place |
| Dates.NormalizeDate | clean/cleaner.py:113-153 | None for a falsy input, otherwise None or a `YYYY-MM-DD` naming a real date |
| Dates.IsoReading | clean/cleaner.py:137-142 | the first format that parses gives a `YYYY-MM-DD` text naming a real date |
| Dates.IsoTextIsIso | clean/cleaner.py:140 | `strftime('%Y-%m-%d')` of a valid date is in canonical ISO form |
| Dates.IsoDateIsFixed | clean/cleaner.py:123-142 | a canonical ISO date normalises to itself |
| Dates.MonthFirstWins | clean/cleaner.py:123-142 | whenever `%m/%d/%Y` parses a text, that reading is the answer, even where `%d/%m/%Y` would also parse |
| Dates.MonthFirstNormalizes | clean/cleaner.py:113-142 | so `_clean_date` turns an ambiguous slash date into its month-first reading |
| Dates.CleanDate | clean/cleaner.py:113-153 | the format loop, then the same loop on the text without ordinals when the first found nothing, yields `NormalizeDate` |
| Dates.ScanFormats | clean/cleaner.py:137-142 | the format loop, rendered as `%Y-%m-%d`, yields `IsoReading` |
| Dates.FirstParse | clean/cleaner.py:137-142 | the loop with its early return yields the first format that parses, as `TryFormats` |
| Decimal.ShowInjective | scrape.py:107 | `str(page)` writes different page numbers differently, which is what keeps the listing URLs apart |
| Decimal.Pad4OfValue | clean/cleaner.py:140 | the four-digit year field reads back as the digits it came from |
| Cleaner.CleanAttachment | clean/cleaner.py:163-166 | a kept attachment's name is the cleaned name or `Document`, and its url has no whitespace at either end |
| Cleaner.CleanAttachmentUrl | clean/cleaner.py:165 | the url is the input url trimmed: a contiguous piece of it with the same non-whitespace characters, and empty exactly when the input url is missing, empty or blank |
| Cleaner.KeptAttachments | clean/cleaner.py:160-168 | never more attachments out than in |
| Cleaner.KeptAttachmentsAreClean | clean/cleaner.py:160-168 | every kept attachment is in clean shape |
| Cleaner.KeptAttachmentsAreCleanedWithUrl | clean/cleaner.py:160-168 | the kept list is the url-bearing dicts, in their order, each cleaned by `CleanAttachment` |
| Cleaner.KeptAttachmentsKeepAll | clean/cleaner.py:160-168 | nothing is dropped exactly when every entry is a dict with a `url` key |
| Cleaner.AttachmentsOf | clean/cleaner.py:155-168 | anything but a list cleans to []; a list keeps its url-bearing dicts, cleaned, in order |
| Cleaner.CleanAttachments | clean/cleaner.py:155-168 | the appending loop yields `AttachmentsOf` |
| Cleaner.KeptAttachmentsOfClean | clean/cleaner.py:155-168 | cleaning a cleaned attachment list changes nothing |
| Cleaner.FirstMissing | clean/cleaner.py:181-184 | the loop finds no missing field exactly when all required fields are truthy, and otherwise names a falsy one |
| Cleaner.ValidateRequiredFields | clean/cleaner.py:170-190 | true exactly when the six required fields are truthy and the type is one of the three labels |
| Cleaner.Assemble | clean/cleaner.py:33-43 | the cleaned dict has exactly the nine keys, each holding its field's value |
| Cleaner.CleanTender | clean/cleaner.py:27-53 | an accepted record is canonical and keeps the input's source_url |
| Cleaner.CleanTenderAccepts | clean/cleaner.py:27-53 | `clean_tender` returns None exactly when one of the six required fields normalises to nothing; the type check never fails |
| Cleaner.NormalizedIsCanonical | clean/cleaner.py:33-49 | a normalised record that passes validation is canonical |
| Cleaner.NormalizedOfCanonical | clean/cleaner.py:33-43 | a canonical record without boilerplate in its description is its own normalisation |
| Cleaner.CleanTenderIdempotent | clean/cleaner.py:27-53 | cleaning a canonical record without boilerplate returns it unchanged |
| Cleaner.CleanTenderTwice | clean/cleaner.py:27-53 | cleaning a cleaned record again gives it back, when its description holds no boilerplate |
| Cleaner.Deduplicate | clean/cleaner.py:192-210 | the loop with its `seen` set yields `Unique` |
| Cleaner.UniqueProperties | clean/cleaner.py:197-204 | given the ids already seen, the kept records are a subsequence with truthy, pairwise distinct, unseen ids, and the first record of every new id is kept |
| Cleaner.DeduplicateSpec | clean/cleaner.py:192-210 | `deduplicate` keeps a subsequence of its input with truthy, pairwise distinct ids, including the first record of each truthy id |
| Parser.Split | parse/parser.py:103 | `split('/')` gives at least one piece and no piece holds the separator |
| Parser.JoinSplit | parse/parser.py:103 | joining the pieces gives the URL back |
| Parser.SplitJoin | parse/parser.py:103 | splitting a join of separator-free pieces gives the pieces back |
| Parser.IdChars | parse/parser.py:108 | the filter keeps only alphanumerics and `-` |
| Parser.IdCharsAppend | parse/parser.py:108 | the filter decides character by character: a concatenation filters piece by piece |
| Parser.IdCharsOne | parse/parser.py:108 | one character survives exactly when it is a letter, a digit or `-` |
| Parser.IdCharsOfIdText | parse/parser.py:108 | text made only of letters, digits and `-` passes the filter unchanged |
| Parser.IdCharsKeepsDigits | parse/parser.py:107-109 | the filtered segment holds a digit exactly when the segment did, so the `if cleaned` guard always passes |
| Parser.IdCharsOfDigits | parse/parser.py:105-108 | an all-digit segment passes the filter unchanged, so the `isdigit` branch agrees with the other |
| Parser.ScanParts | parse/parser.py:104-112 | the reverse scan finds nothing exactly when no segment holds a digit; otherwise a digit-bearing id of alphanumerics and `-` |
| Parser.ScanPartsLastDigitSegment | parse/parser.py:104-110 | the scan answers the filtered last digit-bearing segment |
| Parser.ExtractTenderId | parse/parser.py:98-112 | a found id is non-empty, holds a digit and has only alphanumerics and `-` |
| Parser.ExtractTenderIdNone | parse/parser.py:100-112 | no id exactly when the URL holds no digit (an empty URL included) |
| Parser.ExtractTenderIdLastSegment | parse/parser.py:103-110 | the id is the filtered last digit-bearing segment of the URL, so a later segment with a digit beats an earlier all-digit one |
| Parser.FirstFound | parse/parser.py:124-129 | the selector loop finds nothing exactly when no selector matches, and otherwise the element of the first selector that does |
| Parser.FirstFoundPrefix | parse/parser.py:124-129 | an element found by an earlier selector decides, whatever later ones find |
| Parser.TypeLabel | parse/parser.py:162-169 | the type text maps to Goods, Works, Services or itself |
| Parser.TypeLabelPriority | parse/parser.py:162-169 | the label is Goods exactly when the lower-cased text mentions goods; Works exactly when it mentions works but not goods; Services exactly when it mentions services and neither of the others; text mentioning none is kept as it is |
| Parser.TypeLabelIdempotent | parse/parser.py:162-169 | mapping a mapped type again changes nothing |
| Parser.TenderParser.ExtractType | parse/parser.py:149-171 | None exactly when no type selector matches; otherwise the mapped text of the first match |
| Parser.TenderParser.ExtractListingItem | parse/parser.py:44-67 | None exactly when the title element, the link element or the tender id of the link's href is missing; otherwise a stub with the six keys, a truthy id and a str url |
| Parser.TenderParser.ListingItems | parse/parser.py:26-42 | at most one stub per card, each with the six keys, a truthy id and a str url |
| Parser.ListingItemsOfStubCards | parse/parser.py:32-38 | the stubs are those of the cards that yield one, one stub per such card, in card order |
| Parser.TenderParser.ParseListingPage | parse/parser.py:18-42 | the card loop yields `ListingItems` in card order |
| Parser.LinkName | parse/parser.py:237-246 | an attachment's name is the link text, or `Document` when that is empty |
| Parser.DocumentHrefExtensions | parse/parser.py:235 | an href names a document exactly when it contains `.pdf`, `.doc` or `.xls`, ignoring case |
| Parser.TenderParser.LinkAttachment | parse/parser.py:236-239 | an attachment's name is the link text, or `Document` when that is empty, and its url is the href joined to the base url |
| Parser.TenderParser.SectionAttachments | parse/parser.py:232-239 | never more attachments than links in a section |
| Parser.SectionKeepsDocuments | parse/parser.py:232-239 | a section keeps every link exactly when every href names a document |
| Parser.SectionAttachmentsOfDocLinks | parse/parser.py:232-239 | a section's attachments are exactly its links whose href names a document, in link order, each made into an attachment |
| Parser.TenderParser.FallbackAttachments | parse/parser.py:243-248 | every fallback link becomes one attachment, the i-th link the i-th attachment |
| Parser.FallbackAtMostTen | parse/parser.py:241-248 | without a section, the attachments are made from the first ten links (all of them when there are fewer), in order |
| Parser.TenderParser.ExtractAttachments | parse/parser.py:225-250 | the section loop and the fallback loop yield `AttachmentsOf` |
| Parser.TenderParser.AppendSection | parse/parser.py:232-239 | the link loop of one section appends exactly `SectionAttachments` of its links |
| Parser.TenderParser.AppendFallback | parse/parser.py:243-248 | the fallback loop appends one attachment per link, in order |
| Parser.PageNumbers | parse/parser.py:278 | never more page numbers than page links |
| Parser.PageNumbersOfLinks | parse/parser.py:278 | the numbers are exactly the values of the all-digit link texts |
| Parser.Max | parse/parser.py:280 | `max` is one of the numbers and at least each of them |
| Parser.TenderParser.GetPaginationInfo | parse/parser.py:252-284 | filling the dict field by field yields `PaginationOf` |
| Parser.PaginationDefaults | parse/parser.py:256-261 | a page without pagination elements reports current page 1, one page, no next link |
| Parser.NextLinkGate | parse/parser.py:263-273 | has_next holds exactly when a next link with a non-empty href exists, and only then is there a next_url; the current page is the element text read by `int()`, else 1 |
| Parser.TotalPagesIsLargestLink | parse/parser.py:275-284 | total_pages is the largest all-digit page-link text, or 1 when there is none |
| Parser.TenderParser.ParseDetailPage | parse/parser.py:69-96 | None exactly when no title selector matches or the title text is empty; otherwise the eight keys, the given id and a truthy title |
| Decimal.ParseDigits | parse/parser.py:266-278 | `int()` of a digit string is its value |
| Decimal.ParseShow | parse/parser.py:266 | `int(str(n)) == n` |

## Left out

- Fetching (fetch/fetcher.py) is the parameter `fetch`, a function of the URL. The model
  therefore assumes that the same URL always gets the same answer. Retries, rate
  limiting and time are not modelled.
- Storage (store/storage.py) is the parameter `saveBatch`. Only the counts it reports
  reach the tracker.
- The parser's use in the scraper is the parameters `parseListing`, `hasNext` and
  `parseDetail`. `hasNext` is the `has_next` of `get_pagination_info`.
- HTML parsing, CSS selector evaluation and `urljoin` are parameters of the parser
  model.
- Exceptions are not modelled: the `fatal_error` path of `run()`, `KeyboardInterrupt`,
  `sys.exit` and the `try/except` blocks of `clean_tender`, `parse_detail_page` and the
  card loop. A stub without `tender_id` or `source_url` would raise `KeyError`; the `Stub`
  type excludes it, and `ListingItems` proves that the parser's stubs always have both keys.
- `config['max_pages']` or `config['limit']` holding a non-integer (a type error in the
  source) is not modelled. A negative limit is truthy and is modelled as the source
  treats it.
- The tracker's database writes (`start_run`, `complete_run`), its run id, clock and
  config are left out. `get_summary` is the function `Summary`, which omits run_id,
  version, config and start_time.
- Logging is left out everywhere.
- Only ASCII letters and digits are modelled for `isdigit`, `isalnum` and `lower`, and
  also for the regular expressions. In Python 3 a `str` pattern's `\d` matches every
  Unicode decimal digit, and `int()` reads those digits too. This affects `\d{4}` in the
  copyright pattern, the ordinal pattern `(\d+)` and the digit fields of `strptime`. The
  `IGNORECASE` flag also folds some non-ASCII letters onto ASCII ones: KELVIN SIGN matches
  `k`, LATIN SMALL LETTER LONG S matches `s`, and LATIN CAPITAL LETTER I WITH DOT ABOVE
  matches `i`. Text holding such characters may be matched or read by the source where the
  model does not match or read it. The whitespace set of `\s` and `strip()` is modelled in
  full.
- `strptime` is modelled for the eleven formats with an English month table. The `%d`
  and `%m` alternatives follow Python's regular expressions over ASCII digits; there is
  no locale.
- The seven boilerplate regular expressions are modelled as token patterns matched
  greedily. These patterns never need backtracking, so on ASCII text the greedy match is
  the regex match.
- Dates.IsoText: always writes the year with four digits, zero-padded. `strftime('%Y')`
  defers to the platform's C library, and some C libraries (glibc among them) print years
  below 1000 without padding. Only a `%Y` field such as `0999` yields such a year, because
  `%y` gives 1969 to 2068. For those years the model follows the padded form.
- A list under a text field is treated as absent rather than converted with `str()`.
  The parser never puts one there.
- Cleaner.CleanTenderIdempotent: requires that the description holds no boilerplate
  pattern, because removing one pattern can join the text around it into a new match.
  For example, `disclcopyright 2024aimer` cleans to `disclaimer`, and cleaning that again
  gives None. The claim that cleaning a canonical record always returns it unchanged
  holds only for such descriptions.
- Cleaner.CleanTenderTwice: carries the same condition, for the same reason.
- Parser.ExtractTenderIdLastSegment: the id comes from the last segment that holds any
  digit, as the code does. A later segment with a digit beats an earlier all-digit one.
- Parser.TotalPagesIsLargestLink: total_pages may be 0 (a link text "0"), and the current
  page may be any integer `int()` accepts, negative ones included; nothing bounds them.
- Scraper.SavedBatchIsCleanedCrawl: `run()` never calls `deduplicate`, so the saved batch
  may hold two records with the same id. Deduplication is modelled and proved on its own
  (`Cleaner.DeduplicateSpec`).
