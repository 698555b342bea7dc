# Dakar Auto scraper: a verified model

This project models the scraping engine of the Dakar Auto Scraper
(`my_data_app.py`). The engine pages through the listings of one of three
categories on dakar-auto.com: cars (`voitures`), motorcycles and scooters
(`motos`) and car rentals (`location`). For every listing card it builds
one record: brand, year, price, address, owner and, depending on the
category, mileage, gearbox and fuel. Before any of this, it probes a
landing page to find out how many result pages exist.

The model has seven modules:

- `Wrappers` holds `Option`, which stands for Python's `None`-or-value.
- `Text` models the Python string operations the engine relies on:
  - `re.sub(r'\D', '', ·)`, `int(·)` on a digit string and `str(n)`;
  - `str.strip()` with Python's whitespace set;
  - `str.upper()` on ASCII and Latin-1;
  - the slices `s[:-k]`, `s[-k:]` and `s[k:]`.
- `FieldNormalizer` models `clean_numeric` and `clean_text`.
- `PageCount` models `get_total_pages`:
  - the parsed landing page is a tree of optional elements: paginator `nav`, its `ul`, its `li` items, the last item's `a` and its `href`;
  - the two regular expressions `page=(\d+)` (leftmost match, greedy digits) and `-(\d+)$` are written as searches over the `href` string.
- `Listing` models one listing card (a `Block` of optional parsed
  elements) and the record built from it:
  - `BuildRecord` is the dictionary built in the `for ann in annonces` body;
  - the keys present only for some categories are `Slot`s that are `Absent` or `Present`.
- `PageLoop` gives the shape of the loop `for p in range(1, max_pages + 1)`,
  independent of what one page yields: `Gather` appends the pages'
  contributions in page order, and its lemmas (growth, dependence on pages
  1 to `n` only, membership, equality with the concatenation of per-page
  lists) are proved once for any page function.
- `Scraper` models the page loop of `scraper_dakar_auto` as methods with
  `while` loops:
  - `ScrapeDakarAuto` picks the category's listing URL and runs the loop `ScrapePages` over it;
  - each pass of the loop (`ScrapePage`) builds the URL of its page;
  - it hands the page's outcome to `AppendPage`, which builds the records of the page's blocks one by one (`BuildData`) and appends them;
  - it records the progress fraction of the step.

  Fetching and parsing a page is a parameter, `fetch: string -> PageOutcome`. A page either fails as a whole (`FetchFailed`, the request or the parse raised) or yields its blocks. If the handling of a block raises (an exception inside the inner loop), `raisedAt` says at which block. The records appended before the raise are kept, and the rest of the page is skipped, as the `try` around the whole page does.

The source code differs from a plain reading of the program's intent in
several places. The model follows the code in each:

- The missing-text sentinel is `INCONNU`.
- Text that is only whitespace cleans to `""`, not to the sentinel, because the emptiness test happens before `strip()`.
- The page count is whatever number the `href` carries, so it can be `0`.
- An exception in one block drops that block and every later block of the same page.
- A missing owner, gearbox or fuel is stored as the raw `"N/A"`, not as a cleaned value.
- The category-specific keys are absent altogether when a card has no properties block.

## Model

| member | source | states |
|---|---|---|
| Text.Digits | my_data_app.py:37 | the kept characters are all ASCII digits, at most as many as the input; the result is empty exactly when the input has no digit; a digit string is kept unchanged |
| Text.DigitsOfChar | my_data_app.py:37 | a one-character string keeps its character exactly when it is a digit |
| Text.DigitsAppend | my_data_app.py:37 | the digits of a concatenation are the digits of the first part followed by those of the second, so with `DigitsOfChar` the result is every digit of the input in order |
| Text.DigitsValue | my_data_app.py:38 | `int()` of a digit string, also used at lines 28 and 30; its meaning is stated by `Decimal` (reading `str(n)` gives `n`) and `DigitsValueAppend` |
| Text.DigitsValueAppend | my_data_app.py:38 | reading the digits of `a + b` gives the value of `a` times ten to the length of `b`, plus the value of `b` |
| Text.Decimal | my_data_app.py:57 | the result is a non-empty string of digits, without a leading zero, whose value is `n` |
| Text.DecimalFourDigits | my_data_app.py:71-72 | every year from 1000 to 9999 prints as exactly four characters |
| Text.DecimalInjective | my_data_app.py:57 | distinct numbers print differently |
| Text.IsSpace | my_data_app.py:42 | membership in the set `Whitespace` of the characters Python's `isspace()` accepts; described by `Strip` and `UpperChar` |
| Text.Strip | my_data_app.py:42 | `strip()` gives a string with no whitespace at either end, no longer than the input; empty exactly when the input is all whitespace; an already trimmed string is unchanged |
| Text.StripLeft | my_data_app.py:42 | removing leading whitespace leaves a suffix of the input that is empty or starts with a non-space |
| Text.StripRight | my_data_app.py:42 | removing trailing whitespace leaves a prefix of the input that is empty or ends with a non-space |
| Text.StripMargins | my_data_app.py:42 | the stripped string sits inside the input with only whitespace before and after it |
| Text.UpperChar | my_data_app.py:42 | a lower-case ASCII letter becomes its capital, a Latin-1 lower-case letter (`é`, `ç`, `ÿ`, `µ`) becomes its capital, every other ASCII character and every character outside those letters is unchanged, and the result is whitespace exactly when the character is |
| Text.Upper | my_data_app.py:42 | `upper()` keeps the length and maps each character by the per-character upper-case map |
| Text.UpperIdempotent | my_data_app.py:42 | upper-casing twice is upper-casing once |
| Text.UpperOfCapitals | my_data_app.py:42 | a string of capitals and spaces is unchanged by upper-casing |
| Text.UpperOfLowers | my_data_app.py:42 | text of lower-case letters and spaces upper-cases to capitals and spaces, each letter to its own capital and each space kept |
| Text.UpperKeepsTrimmed | my_data_app.py:42 | upper-casing a trimmed string leaves it trimmed |
| Text.DropLast | my_data_app.py:71 | for `k >= 1`, `s[:-k]` is the prefix of length max(0, len-k) |
| Text.LastN | my_data_app.py:72 | for `k >= 1`, `s[-k:]` is the suffix of length min(k, len) |
| Text.DropFirst | my_data_app.py:90 | `s[k:]` is the suffix after the first min(k, len) characters |
| Text.SplitLastRejoins | my_data_app.py:71-72 | the brand part and the year part of a title rejoin to the title |
| FieldNormalizer.CleanNumeric | my_data_app.py:35-38 | `None` exactly when the value is `"N/A"` or has no digit; otherwise the value of its digits read as one decimal number |
| FieldNormalizer.CleanNumericByDigits | my_data_app.py:37-38 | two values with the same digits clean to the same result: nothing but the digits is read |
| FieldNormalizer.CleanNumericIgnoresNonDigits | my_data_app.py:37-38 | inserting text without a digit anywhere in the value does not change the result |
| FieldNormalizer.CleanNumericOfDigitString | my_data_app.py:35-38 | a non-empty digit string cleans to its own value |
| FieldNormalizer.CleanNumericJoinsDigitGroups | my_data_app.py:35-38 | a price such as `"12 345 FCFA"` (digit groups with digit-free text between and after) cleans to the value of the groups' digits joined, `12345` |
| FieldNormalizer.CleanNumericDecimal | my_data_app.py:35-38 | cleaning the decimal text of `n` gives back `n` |
| FieldNormalizer.CleanNumericOfDigits | my_data_app.py:37-38 | cleaning the digits kept from a value gives the same result as cleaning the value itself |
| FieldNormalizer.CleanText | my_data_app.py:40-42 | `INCONNU` for `"N/A"` or the empty string, otherwise the stripped upper-cased text; `""` exactly for non-empty whitespace; the result is always trimmed and has no lower-case ASCII letter |
| FieldNormalizer.CleanTextOfLowers | my_data_app.py:40-42 | text that strips to lower-case words, such as `" dakar "`, cleans to those words in capitals, `"DAKAR"` |
| FieldNormalizer.CleanTextBlank | my_data_app.py:41-42 | whitespace-only text cleans to `""`, not to the sentinel |
| FieldNormalizer.CleanTextIdempotent | my_data_app.py:40-42 | cleaning a cleaned text again changes nothing |
| FieldNormalizer.UnknownIsClean | my_data_app.py:41 | the sentinel itself is a fixed point of cleaning |
| PageCount.DigitRun | my_data_app.py:27 | the greedy `\d+` run: all digits, followed by the end or a non-digit |
| PageCount.FindPageParam | my_data_app.py:27 | the search for `page=\d` returns the leftmost position where it matches, and `None` exactly when it matches nowhere |
| PageCount.TrailingDigits | my_data_app.py:29 | the trailing digit run of a string is a digit suffix preceded by the start or a non-digit |
| PageCount.TrailingDashNumberMatches | my_data_app.py:29-30 | when the `href` ends in `-` and digits, the fallback reads exactly those digits |
| PageCount.TrailingDashNumberOnlyOnMatch | my_data_app.py:29-30 | the fallback finds a number only when `-(\d+)$` matches |
| PageCount.LastHref | my_data_app.py:18-26 | the `href` of the first link of the last paginator item; described by `GetTotalPages` (a missing element gives 1) and `OnlyLastItemInspected` |
| PageCount.TrailingDashNumber | my_data_app.py:29-30 | the `-(\d+)$` fallback; described by `TrailingDashNumberMatches` and `TrailingDashNumberOnlyOnMatch` |
| PageCount.HrefPageNumber | my_data_app.py:27-30 | the number in a link target; described by `PageParamWins`, `DashSuffixFallback` and `NoPatternMeansOnePage` |
| PageCount.GetTotalPages | my_data_app.py:13-32 | 1 when the probe fails or any element on the path to the last `href` is missing |
| PageCount.PageParamWins | my_data_app.py:13-28 | when `page=` and digits occur in the last paginator link, the page count is the number after the leftmost occurrence, whatever the `href` ends with |
| PageCount.DashSuffixFallback | my_data_app.py:13-30 | without `page=` and a digit in the last paginator link, an `href` ending in `-` and digits gives those digits as the page count |
| PageCount.NoPatternMeansOnePage | my_data_app.py:31 | an `href` matching neither pattern gives 1 |
| PageCount.OnlyLastItemInspected | my_data_app.py:22-24 | items before the last one do not affect the count |
| PageCount.PageCountCanBeZero | my_data_app.py:27-28 | `?page=0` gives a count of 0 |
| Listing.TitleText | my_data_app.py:66-67 | the stripped title or `"N/A"`; described by `TitleSplit` and `MissingTitle` |
| Listing.Brand | my_data_app.py:71 | `clean_text(titre[:-4])`; described by `TitleSplit`, `TitleOfCapitals` and `MissingTitle` |
| Listing.Year | my_data_app.py:72 | `clean_numeric(titre[-4:])`; described by `TitleSplit` and `MissingTitle` |
| Listing.MileageOf | my_data_app.py:82 | item 1 of the properties cleaned as a number, else `None`; described by `PropertiesByCategory` |
| Listing.GearboxOf | my_data_app.py:84 | item 2 of the properties cleaned as text, else the raw `"N/A"`; described by `PropertiesByCategory` |
| Listing.FuelOf | my_data_app.py:85 | item 3 of the properties cleaned as text, else the raw `"N/A"`; described by `PropertiesByCategory` |
| Listing.AuthorLinkText | my_data_app.py:88-89 | the author link text when the author block, its paragraph and its link exist; described by `OwnerAfterLabel`, `ShortAuthorLinkIsUnknown` and `MissingOwnerIsRaw` |
| Listing.Owner | my_data_app.py:88-92 | the owner after the four-character label, else the raw `"N/A"`; described by `OwnerAfterLabel`, `ShortAuthorLinkIsUnknown` and `MissingOwnerIsRaw` |
| Listing.BuildRecord | my_data_app.py:64-92 | the keys specific to a category are present exactly when the card has a properties block, and then they are that category's keys |
| Listing.RecordConforms | my_data_app.py:78-85 | every record has either no category-specific key or exactly its category's keys |
| Listing.TitleSplit | my_data_app.py:66-72 | a title ending in a four-digit year gives the cleaned brand and that year |
| Listing.TitleOfCapitals | my_data_app.py:66-72 | a trimmed capitals brand followed by a four-digit year, such as "TOYOTA COROLLA2015", gives back exactly that brand and year |
| Listing.BrandNeverEmpty | my_data_app.py:66-71 | the brand of every record is non-empty: `INCONNU` or text starting with a non-space character |
| Listing.OwnerNeverEmpty | my_data_app.py:88-92 | the owner of every record is non-empty |
| Listing.MissingTitle | my_data_app.py:66-72 | a card without a title gets brand `INCONNU` and no year |
| Listing.MissingPriceIsZero | my_data_app.py:68-73 | a card without a price gets price 0, not `None` |
| Listing.MissingProvinceIsUnknown | my_data_app.py:74 | a card without a province gets address `INCONNU` |
| Listing.PropertiesByCategory | my_data_app.py:78-85 | cars get mileage, gearbox and fuel from items 1, 2 and 3; motorcycles get only mileage; rentals get none; short lists give `None` or raw `"N/A"` |
| Listing.ShortAuthorLinkIsUnknown | my_data_app.py:88-90 | an author link text of at most four characters gives owner `INCONNU` |
| Listing.OwnerAfterLabel | my_data_app.py:88-90 | the owner is the cleaned text after the four-character label |
| Listing.MissingOwnerIsRaw | my_data_app.py:88-92 | without author link the owner is the raw `"N/A"` |
| Scraper.BaseUrl | my_data_app.py:50-54 | the listing URL of each of the three categories, a table of constants |
| Scraper.PageUrl | my_data_app.py:57 | the base followed by the page number; described by `PageUrls` and `PageUrlInjective` |
| Scraper.PageUrls | my_data_app.py:56-57 | one URL per page 1..max_pages, the category base followed by the page number |
| Scraper.Kept | my_data_app.py:59-95 | a raise at block `i` of the page keeps `i` blocks, no raise keeps them all, and never more than the page has |
| Scraper.BuildAll | my_data_app.py:64-94 | one record per block |
| Scraper.BuildAllAt | my_data_app.py:64-94 | record `i` is built from block `i` |
| Scraper.PageRecords | my_data_app.py:59-95 | a failed page adds nothing; a parsed page adds one record per block handled before a raise |
| Scraper.PageRecordsAt | my_data_app.py:64-94 | record `i` of a parsed page is built from block `i`, which comes before the block that raised |
| Scraper.CompletePageKeepsAll | my_data_app.py:64-94 | a page without a raise contributes the records of all its blocks, in order |
| Scraper.PageOf | my_data_app.py:56-95 | what page `p` contributes, as a function of `p`; described by `PageEntry` and `ScrapedReadsOnlyPageUrls` |
| Scraper.Scraped | my_data_app.py:56-95 | the records of pages 1..n; described by `ScrapedIsConcatOfPages`, `ScrapedGrowsByPages` and `ScrapedConforms` |
| Scraper.BuildData | my_data_app.py:66-92 | the dictionary built step by step equals the record of the card |
| Scraper.AppendPage | my_data_app.py:59-95 | the accumulated list grows by exactly the page's records |
| Scraper.ProgressLog | my_data_app.py:96 | one progress fraction p/max_pages per page |
| Scraper.ScrapeDakarAuto | my_data_app.py:45-100 | the records are the concatenation of the page records, the URLs fetched are the page URLs in order, and the progress log has one entry per page |
| Scraper.ScrapePages | my_data_app.py:56-97 | the loop over pages 1..max_pages for a given listing URL: after it, records, requested URLs and progress log equal `Scraped`, `PageUrls` and `ProgressLog` of max_pages |
| Scraper.ScrapePage | my_data_app.py:56-96 | one pass of the loop extends all three logs from pages 1..p-1 to pages 1..p |
| Scraper.ScrapeStep | my_data_app.py:56-96 | appending page p's URL, records and progress entry to the logs of pages 1..p-1 gives the logs of pages 1..p |
| Scraper.BuildAllSnoc | my_data_app.py:64-94 | the records of the first i+1 blocks are those of the first i followed by the record of block i |
| PageLoop.Gather | my_data_app.py:56-95 | what appending each page's list in page order gives; described by `GatherIsConcat`, `GatherGrows`, `GatherAgrees` and `GatherMember` |
| PageLoop.Concat | my_data_app.py:94 | the concatenation of a list of lists; described by `ConcatSnoc` and `GatherIsConcat` |
| PageLoop.Pages | my_data_app.py:56-95 | one entry per page 1..n |
| PageLoop.PagesAt | my_data_app.py:56-95 | entry `i` is the contribution of page `i + 1` |
| PageLoop.ConcatSnoc | my_data_app.py:94 | appending one more page's contribution extends the concatenation by it |
| PageLoop.GatherIsConcat | my_data_app.py:56-95 | the loop's result is the concatenation, in page order, of the per-page contributions |
| PageLoop.GatherGrows | my_data_app.py:56-95 | looping over more pages only appends to what fewer pages gave |
| PageLoop.GatherAgrees | my_data_app.py:56-95 | two page functions that agree on pages 1..n give the same result |
| PageLoop.GatherMember | my_data_app.py:56-95 | every element of the result comes from some page in 1..n |
| Scraper.ScrapedIsConcatOfPages | my_data_app.py:56-95 | the scrape is the concatenation of the per-page records |
| Scraper.PageEntry | my_data_app.py:56-60 | the per-page entry `i` is what fetching the URL of page `i + 1` gave |
| Scraper.NoPagesNoRecords | my_data_app.py:56 | `max_pages <= 0` gives no records |
| Scraper.ScrapedGrowsByPages | my_data_app.py:56-95 | asking for more pages only extends the result |
| Scraper.FailedPageAddsNothing | my_data_app.py:95 | a failed page leaves the result as it was |
| Scraper.PartialPageKeepsPrefix | my_data_app.py:64-95 | a raise at block `k` keeps exactly the records of blocks before `k` |
| Scraper.BuildAllConforms | my_data_app.py:64-94 | every record built from a page's blocks has its category's keys or none |
| Scraper.ScrapedConforms | my_data_app.py:78-94 | every scraped record has its category's keys or none |
| Scraper.ScrapedReadsOnlyPageUrls | my_data_app.py:56-60 | two fetchers that agree on the URLs of pages 1..n give the same scrape: nothing else is read |
| Scraper.PageUrlInjective | my_data_app.py:57 | for a fixed base URL, different page numbers give different URLs |
| Scraper.TwoPageRun | my_data_app.py:56-95 | three listings on page 1 and a failed fetch of page 2 give three records |

## Left out

- Streamlit UI (sidebar, buttons, `st.progress`, `st.empty`, status text): I/O, not modelled. The progress value appears only as the list of fractions `ProgressLog`, with numerator and denominator kept separate instead of a float.
- `requests.get`, timeouts, `BeautifulSoup` parsing, `time.sleep`: network, clock and parsing are the parameter `fetch` (and the `Probe` value for `get_total_pages`). Which exceptions occur is abstracted as `FetchFailed` or `raisedAt`.
- `pd.DataFrame(all_data)`: the result is the list of records. Column order and the union of columns across records are not modelled.
- The CSV import path (`pd.read_csv` of `datas/<category>.csv`, lines 144-153) and the dashboard (card count, mean and maximum price, top brands, listings per year, lines 155-174) are UI and file I/O outside the scraping engine and are not modelled; neither is the evaluation page with its two form links.
- Dictionary key order is not modelled; records are datatypes with `Slot`s for optional keys.
- An unknown category key (`KeyError` at the URL lookup) cannot occur, since `Category` has exactly the three values.
- Text.Digits: `\D` and `int()` are modelled for ASCII digits only. Python also accepts other Unicode decimal digits.
- PageCount.FindPageParam, PageCount.DigitRun, PageCount.TrailingDigits: `\d` in `page=(\d+)` and `-(\d+)$` also matches other Unicode decimal digits in Python (`page=٣` gives 3); the model recognises ASCII digits only and gives 1 there.
- Text.Upper: upper-casing is modelled for ASCII and Latin-1 only, and `ß` (which Python turns into `SS`) is left unchanged.
- FieldNormalizer.CleanNumeric: the 4300-digit limit on `int()` of Python 3.11 and later is not modelled. Such a `ValueError` would be caught by the page's `except` and drop the rest of the page.
- PageCount.GetTotalPages: the same 4300-digit limit applies to `int()` at lines 28 and 30; Python then returns 1 from the `except`, the model returns the number.
- Text.DropLast, Text.LastN: stated for every `k`, but they agree with Python's `s[:-k]` and `s[-k:]` only for `k >= 1` (Python's `s[:-0]` is empty and `s[-0:]` is all of `s`); the scraper uses `k = 4` only.
- PageCount.TrailingDashNumberMatches: `$` in Python also matches before a final newline; the model anchors at the very end.
- The round trip "the page number read back from a generated page URL is that page" is not stated: it needs a character-by-character argument about the literal base URLs.
