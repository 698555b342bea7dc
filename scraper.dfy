/**
 * The page loop of `scraper_dakar_auto`: pages 1 to `max_pages` of one
 * category, fetched in order, each page's blocks turned into records and
 * appended, a failing page dropping only what it had not yet appended.
 */
module Scraper {
  import opened Wrappers
  import opened Text
  import opened FieldNormalizer
  import opened Listing
  import opened PageLoop

  /**
   * What the fetch and parse of one page URL gave. `FetchFailed`: the request
   * or the parse raised before any block was read. `Parsed`: the listing
   * blocks in document order, and the index of the block whose processing
   * raised, if one did.
   */
  datatype PageOutcome = FetchFailed | Parsed(blocks: seq<Block>, raisedAt: Option<nat>)

  /** The listing URL of each category, waiting for its page number. */
  function BaseUrl(cat: Category): string {
    match cat
    case Cars => "https://dakar-auto.com/senegal/voitures-4?&page="
    case Motorcycles => "https://dakar-auto.com/senegal/motos-and-scooters-3?&page="
    case Rentals => "https://dakar-auto.com/senegal/location-de-voitures-19?&page="
  }

  /** `f"{urls[type_vehicule]}{p}"`. */
  function PageUrl(base: string, p: nat): string {
    base + Decimal(p)
  }

  /** The URLs of pages 1 to `n`, in that order. */
  function PageUrls(base: string, n: int): (r: seq<string>)
    decreases n
    ensures |r| == if n < 0 then 0 else n
    ensures forall i :: 0 <= i < |r| ==> r[i] == PageUrl(base, i + 1)
  {
    if n <= 0 then [] else PageUrls(base, n - 1) + [PageUrl(base, n)]
  }

  /** How many blocks of a parsed page get their record appended. */
  function Kept(blocks: seq<Block>, raisedAt: Option<nat>): (k: nat)
    ensures k <= |blocks|
    ensures raisedAt.None? ==> k == |blocks|
    ensures raisedAt.Some? && raisedAt.value < |blocks| ==> k == raisedAt.value
    ensures raisedAt.Some? && raisedAt.value >= |blocks| ==> k == |blocks|
  {
    match raisedAt
    case Some(i) => if i < |blocks| then i else |blocks|
    case None => |blocks|
  }

  /** The records of `blocks`, one per block. */
  function BuildAll(cat: Category, blocks: seq<Block>): (r: seq<Record>)
    ensures |r| == |blocks|
  {
    if blocks == [] then []
    else BuildAll(cat, blocks[..|blocks| - 1]) + [BuildRecord(cat, blocks[|blocks| - 1])]
  }

  /** The records of `blocks` are in document order: record `i` is built from block `i`. */
  lemma {:induction false} BuildAllAt(cat: Category, blocks: seq<Block>, i: nat)
    requires i < |blocks|
    ensures BuildAll(cat, blocks)[i] == BuildRecord(cat, blocks[i])
  {
    if i < |blocks| - 1 {
      BuildAllAt(cat, blocks[..|blocks| - 1], i);
    }
  }

  /** The records one page contributes: those of its blocks before the one that raised. */
  function PageRecords(cat: Category, outcome: PageOutcome): (r: seq<Record>)
    ensures outcome.FetchFailed? ==> r == []
    ensures outcome.Parsed? ==> |r| == Kept(outcome.blocks, outcome.raisedAt)
  {
    match outcome
    case FetchFailed => []
    case Parsed(blocks, raisedAt) => BuildAll(cat, blocks[..Kept(blocks, raisedAt)])
  }

  /**
   * The records of a parsed page are those of its kept blocks, in document
   * order: record `i` is built from block `i`.
   */
  lemma PageRecordsAt(cat: Category, blocks: seq<Block>, raisedAt: Option<nat>, i: nat)
    requires i < |PageRecords(cat, Parsed(blocks, raisedAt))|
    ensures i < Kept(blocks, raisedAt) <= |blocks|
    ensures PageRecords(cat, Parsed(blocks, raisedAt))[i] == BuildRecord(cat, blocks[i])
  {
    var kept := blocks[..Kept(blocks, raisedAt)];
    BuildAllAt(cat, kept, i);
    assert kept[i] == blocks[i];
  }

  /** A page whose blocks are all handled without a raise contributes a record for every block. */
  lemma CompletePageKeepsAll(cat: Category, blocks: seq<Block>)
    ensures PageRecords(cat, Parsed(blocks, None)) == BuildAll(cat, blocks)
  {
    assert blocks[..|blocks|] == blocks;
  }

  /** What page `p` of `cat` contributes, where `fetch` answers each URL. */
  function PageOf(cat: Category, base: string, fetch: string -> PageOutcome): nat -> seq<Record> {
    (p: nat) => PageRecords(cat, fetch(PageUrl(base, p)))
  }

  /** The result of scraping pages 1 to `n` of `cat`, where `fetch` answers each URL. */
  function Scraped(cat: Category, base: string, fetch: string -> PageOutcome, n: int): seq<Record> {
    Gather(PageOf(cat, base, fetch), n)
  }

  /**
   * The body of the `for ann in annonces` loop: the `data` dictionary of one
   * block, its keys inserted one after another, the category keys only when
   * the properties block exists.
   */
  method BuildData(cat: Category, ann: Block) returns (data: Record)
    ensures data == BuildRecord(cat, ann)
  {
    ghost var expected := BuildRecord(cat, ann);
    var title := TitleText(ann);
    data := Record(Brand(title), Year(title), CleanNumeric(ann.price.GetOr("0")),
                   CleanText(ann.province.GetOr(Missing)), Absent, Absent, Absent, Missing);
    if ann.properties.Some? {
      var lis := ann.properties.value;
      if cat == Cars || cat == Motorcycles {
        data := data.(mileage := Present(MileageOf(lis)));
      }
      if cat == Cars {
        data := data.(gearbox := Present(GearboxOf(lis)));
        data := data.(fuel := Present(FuelOf(lis)));
      }
    }
    assert data.mileage == expected.mileage && data.gearbox == expected.gearbox && data.fuel == expected.fuel;
    var auth := AuthorLinkText(ann);
    if auth.Some? {
      data := data.(owner := CleanText(Strip(DropFirst(auth.value, 4))));
    } else {
      data := data.(owner := Missing);
    }
    assert data.owner == expected.owner;
  }

  /** The records of one more block: those of the blocks before it, then its own. */
  lemma BuildAllSnoc(cat: Category, blocks: seq<Block>, i: nat)
    requires i < |blocks|
    ensures BuildAll(cat, blocks[..i + 1]) == BuildAll(cat, blocks[..i]) + [BuildRecord(cat, blocks[i])]
  {
    assert blocks[..i + 1][..i] == blocks[..i];
  }

  /** Appending to an accumulator that already holds a prefix. */
  lemma AppendStep<T>(acc: seq<T>, prefix: seq<T>, x: T, whole: seq<T>)
    requires whole == prefix + [x]
    ensures (acc + prefix) + [x] == acc + whole
  {
  }

  /**
   * The `try` block of one page: the records of its blocks appended to
   * `allData` in document order, up to the block whose processing raised.
   */
  method AppendPage(cat: Category, outcome: PageOutcome, allData: seq<Record>) returns (result: seq<Record>)
    ensures result == allData + PageRecords(cat, outcome)
  {
    result := allData;
    if outcome.Parsed? {
      var blocks := outcome.blocks;
      var i := 0;
      while i < |blocks| && outcome.raisedAt != Some(i)
        invariant i <= Kept(blocks, outcome.raisedAt)
        invariant result == allData + BuildAll(cat, blocks[..i])
      {
        var data := BuildData(cat, blocks[i]);
        BuildAllSnoc(cat, blocks, i);
        AppendStep(allData, BuildAll(cat, blocks[..i]), data, BuildAll(cat, blocks[..i + 1]));
        result := result + [data];
        i := i + 1;
      }
      assert i == Kept(blocks, outcome.raisedAt);
    }
  }

  /** The progress reports of pages 1 to `n`: page number and `max_pages`. */
  function ProgressLog(n: int, maxPages: int): (r: seq<(int, int)>)
    decreases n
    ensures |r| == if n < 0 then 0 else n
    ensures forall i :: 0 <= i < |r| ==> r[i] == (i + 1, maxPages)
  {
    if n <= 0 then [] else ProgressLog(n - 1, maxPages) + [(n, maxPages)]
  }

  /** Page `p` of the loop: its URL, records and report come after those of pages 1 to `p - 1`. */
  lemma ScrapeStep(cat: Category, base: string, fetch: string -> PageOutcome, p: nat, maxPages: int,
                   records: seq<Record>, requested: seq<string>, progress: seq<(int, int)>)
    requires 1 <= p
    requires records == Scraped(cat, base, fetch, p - 1) && requested == PageUrls(base, p - 1)
    requires progress == ProgressLog(p - 1, maxPages)
    ensures records + PageRecords(cat, fetch(PageUrl(base, p))) == Scraped(cat, base, fetch, p)
    ensures requested + [PageUrl(base, p)] == PageUrls(base, p)
    ensures progress + [(p, maxPages)] == ProgressLog(p, maxPages)
  {
  }

  /**
   * One pass of the page loop: request page `p`, append its records and
   * report `(p, max_pages)`. After it the three logs cover pages 1 to `p`.
   */
  method ScrapePage(p: nat, maxPages: int, cat: Category, base: string, fetch: string -> PageOutcome,
                    records: seq<Record>, requested: seq<string>, progress: seq<(int, int)>)
    returns (records': seq<Record>, requested': seq<string>, progress': seq<(int, int)>)
    requires 1 <= p
    requires records == Scraped(cat, base, fetch, p - 1) && requested == PageUrls(base, p - 1)
    requires progress == ProgressLog(p - 1, maxPages)
    ensures records' == Scraped(cat, base, fetch, p)
    ensures requested' == PageUrls(base, p)
    ensures progress' == ProgressLog(p, maxPages)
  {
    var url := PageUrl(base, p);
    ScrapeStep(cat, base, fetch, p, maxPages, records, requested, progress);
    requested' := requested + [url];
    records' := AppendPage(cat, fetch(url), records);
    progress' := progress + [(p, maxPages)];
  }

  /**
   * The page loop of `scraper_dakar_auto` for the listing URL `base`. Besides
   * the records it returns the URLs it requested and the `(page, max_pages)`
   * pairs it reported as progress, both in order.
   */
  method ScrapePages(maxPages: int, cat: Category, base: string, fetch: string -> PageOutcome)
    returns (records: seq<Record>, requested: seq<string>, progress: seq<(int, int)>)
    ensures records == Scraped(cat, base, fetch, maxPages)
    ensures requested == PageUrls(base, maxPages)
    ensures progress == ProgressLog(maxPages, maxPages)
  {
    records, requested, progress := [], [], [];
    var p := 1;
    while p <= maxPages
      invariant p == 1 || 1 < p <= maxPages + 1
      invariant records == Scraped(cat, base, fetch, p - 1)
      invariant requested == PageUrls(base, p - 1)
      invariant progress == ProgressLog(p - 1, maxPages)
    {
      records, requested, progress := ScrapePage(p, maxPages, cat, base, fetch, records, requested, progress);
      p := p + 1;
    }
    if maxPages <= 0 {
      NoPagesNoRecords(cat, base, fetch, maxPages);
    } else {
      assert p - 1 == maxPages;
    }
  }

  /**
   * `scraper_dakar_auto(max_pages, type_vehicule)`, with the network as the
   * function `fetch` from URL to outcome: the page loop over the category's
   * listing URL.
   */
  method ScrapeDakarAuto(maxPages: int, cat: Category, fetch: string -> PageOutcome)
    returns (records: seq<Record>, requested: seq<string>, progress: seq<(int, int)>)
    ensures records == Scraped(cat, BaseUrl(cat), fetch, maxPages)
    ensures requested == PageUrls(BaseUrl(cat), maxPages)
    ensures progress == ProgressLog(maxPages, maxPages)
  {
    records, requested, progress := ScrapePages(maxPages, cat, BaseUrl(cat), fetch);
  }

  /** The result is the concatenation, in page order, of what each page from 1 to `n` contributes. */
  lemma ScrapedIsConcatOfPages(cat: Category, base: string, fetch: string -> PageOutcome, n: nat)
    ensures Scraped(cat, base, fetch, n) == Concat(Pages(PageOf(cat, base, fetch), n))
  {
    GatherIsConcat(PageOf(cat, base, fetch), n);
  }

  /** Entry `i` of the per-page list holds what fetching page `i + 1` gave. */
  lemma PageEntry(cat: Category, base: string, fetch: string -> PageOutcome, n: nat, i: nat)
    requires i < n
    ensures Pages(PageOf(cat, base, fetch), n)[i] == PageRecords(cat, fetch(PageUrl(base, i + 1)))
  {
    PagesAt(PageOf(cat, base, fetch), n, i);
  }

  /** No page is scraped when `max_pages` is zero or negative. */
  lemma NoPagesNoRecords(cat: Category, base: string, fetch: string -> PageOutcome, n: int)
    requires n <= 0
    ensures Scraped(cat, base, fetch, n) == [] && PageUrls(base, n) == [] && ProgressLog(n, n) == []
  {
  }

  /**
   * Scraping more pages only adds records after those of fewer pages: a
   * failing page never removes what earlier pages gave, nor stops later ones.
   */
  lemma ScrapedGrowsByPages(cat: Category, base: string, fetch: string -> PageOutcome, m: int, n: int)
    requires m <= n
    ensures |Scraped(cat, base, fetch, m)| <= |Scraped(cat, base, fetch, n)|
    ensures Scraped(cat, base, fetch, n)[..|Scraped(cat, base, fetch, m)|] == Scraped(cat, base, fetch, m)
  {
    GatherGrows(PageOf(cat, base, fetch), m, n);
  }

  /** A page whose fetch fails contributes no record; the loop goes on with the next. */
  lemma FailedPageAddsNothing(cat: Category, base: string, fetch: string -> PageOutcome, n: nat)
    requires n >= 1 && fetch(PageUrl(base, n)).FetchFailed?
    ensures Scraped(cat, base, fetch, n) == Scraped(cat, base, fetch, n - 1)
  {
  }

  /** A page that raises at block `k` contributes the records of its first `k` blocks. */
  lemma PartialPageKeepsPrefix(cat: Category, base: string, fetch: string -> PageOutcome, n: nat, k: nat)
    requires n >= 1
    requires fetch(PageUrl(base, n)).Parsed? && fetch(PageUrl(base, n)).raisedAt == Some(k)
    requires k <= |fetch(PageUrl(base, n)).blocks|
    ensures Scraped(cat, base, fetch, n)
         == Scraped(cat, base, fetch, n - 1) + BuildAll(cat, fetch(PageUrl(base, n)).blocks[..k])
  {
    var outcome := fetch(PageUrl(base, n));
    assert Kept(outcome.blocks, outcome.raisedAt) == k;
    assert PageOf(cat, base, fetch)(n) == BuildAll(cat, outcome.blocks[..k]);
    assert Scraped(cat, base, fetch, n) == Scraped(cat, base, fetch, n - 1) + PageOf(cat, base, fetch)(n);
  }

  /** Every record built from a sequence of blocks has the keys its category allows. */
  lemma {:induction false} BuildAllConforms(cat: Category, blocks: seq<Block>)
    ensures forall r :: r in BuildAll(cat, blocks) ==> Conforms(cat, r)
  {
    if blocks != [] {
      var init := blocks[..|blocks| - 1];
      BuildAllConforms(cat, init);
      RecordConforms(cat, blocks[|blocks| - 1]);
    }
  }

  /** Every record of a run has the keys its category allows, and only those. */
  lemma ScrapedConforms(cat: Category, base: string, fetch: string -> PageOutcome, n: int)
    ensures forall r :: r in Scraped(cat, base, fetch, n) ==> Conforms(cat, r)
  {
    forall r | r in Scraped(cat, base, fetch, n) ensures Conforms(cat, r) {
      GatherMember(PageOf(cat, base, fetch), n, r);
      var p :| 1 <= p <= n && r in PageOf(cat, base, fetch)(p);
      var outcome := fetch(PageUrl(base, p));
      assert r in PageRecords(cat, outcome);
      BuildAllConforms(cat, outcome.blocks[..Kept(outcome.blocks, outcome.raisedAt)]);
    }
  }

  /** The run reads the network only at the URLs of pages 1 to `n`. */
  lemma ScrapedReadsOnlyPageUrls(
    cat: Category, base: string, fetch: string -> PageOutcome, fetch': string -> PageOutcome, n: int)
    requires forall p :: 1 <= p <= n ==> fetch(PageUrl(base, p)) == fetch'(PageUrl(base, p))
    ensures Scraped(cat, base, fetch, n) == Scraped(cat, base, fetch', n)
  {
    forall p | 1 <= p <= n ensures PageOf(cat, base, fetch)(p) == PageOf(cat, base, fetch')(p) {
      assert fetch(PageUrl(base, p)) == fetch'(PageUrl(base, p));
    }
    GatherAgrees(PageOf(cat, base, fetch), PageOf(cat, base, fetch'), n);
  }

  /** Distinct pages of a category have distinct URLs. */
  lemma PageUrlInjective(base: string, p: nat, q: nat)
    requires PageUrl(base, p) == PageUrl(base, q)
    ensures p == q
  {
    assert Decimal(p) == PageUrl(base, p)[|base|..];
    assert Decimal(q) == PageUrl(base, q)[|base|..];
    DecimalInjective(p, q);
  }

  /** Three listings on page 1 and a failed fetch of page 2 give three records. */
  lemma TwoPageRun(cat: Category, base: string, fetch: string -> PageOutcome, blocks: seq<Block>)
    requires |blocks| == 3
    requires fetch(PageUrl(base, 1)) == Parsed(blocks, None)
    requires fetch(PageUrl(base, 2)).FetchFailed?
    ensures |Scraped(cat, base, fetch, 2)| == 3
  {
    assert Scraped(cat, base, fetch, 1) == PageRecords(cat, Parsed(blocks, None));
  }
}
