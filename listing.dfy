/**
 * One listing block of a category page and the record the scraper builds
 * from it (the body of the `for ann in annonces` loop of `scraper_dakar_auto`).
 */
module Listing {
  import opened Wrappers
  import opened Text
  import opened FieldNormalizer

  /** The three listing categories: `voitures`, `motos` and `location`. */
  datatype Category = Cars | Motorcycles | Rentals

  /** The `<p class="time-author">` element, with the text of its first `<a>` if any. */
  datatype TimeAuthor = TimeAuthor(link: Option<string>)

  /** The `<div class="author-meta">` element, with its `time-author` paragraph if any. */
  datatype AuthorMeta = AuthorMeta(timeAuthor: Option<TimeAuthor>)

  /**
   * What the scraper reads of one `listings-cards__list-item` block: the
   * text of the title, the price and the province elements, the texts of the
   * `<li>` items of the properties block, and the author block. `None` stands
   * for an element that is not there.
   */
  datatype Block = Block(
    title: Option<string>,
    price: Option<string>,
    province: Option<string>,
    properties: Option<seq<string>>,
    author: Option<AuthorMeta>)

  /** A key of the record dictionary that is set or left out; `Present` holds its value. */
  datatype Slot<T> = Absent | Present(value: T)

  /**
   * One scraped record: `Marque`, `Année`, `Prix`, `Adresse`, the optional
   * `Kilométrage`, `Boite vitesse` and `Carburant`, and `Propriétaire`.
   */
  datatype Record = Record(
    brand: string,
    year: Option<nat>,
    price: Option<nat>,
    address: string,
    mileage: Slot<Option<nat>>,
    gearbox: Slot<string>,
    fuel: Slot<string>,
    owner: string)

  /** The keys of a record that only some categories carry. */
  datatype OptionalKey = MileageKey | GearboxKey | FuelKey

  function OptionalKeys(r: Record): set<OptionalKey> {
    (if r.mileage.Present? then {MileageKey} else {})
    + (if r.gearbox.Present? then {GearboxKey} else {})
    + (if r.fuel.Present? then {FuelKey} else {})
  }

  /** The optional keys each category's records carry. */
  function CategoryKeys(cat: Category): set<OptionalKey> {
    match cat
    case Cars => {MileageKey, GearboxKey, FuelKey}
    case Motorcycles => {MileageKey}
    case Rentals => {}
  }

  /** A record of `cat`: either none of the optional keys or exactly the category's. */
  predicate Conforms(cat: Category, r: Record) {
    OptionalKeys(r) == {} || OptionalKeys(r) == CategoryKeys(cat)
  }

  /** The title text, stripped, or the missing marker. */
  function TitleText(b: Block): string {
    match b.title
    case Some(t) => Strip(t)
    case None => Missing
  }

  /** `clean_text(titre[:-4])`: all of the title but its last four characters. */
  function Brand(title: string): string {
    CleanText(DropLast(title, 4))
  }

  /** `clean_numeric(titre[-4:])`: the last four characters of the title. */
  function Year(title: string): Option<nat> {
    CleanNumeric(LastN(title, 4))
  }

  /** The text of the author link, when the author block, its paragraph and its link all exist. */
  function AuthorLinkText(b: Block): Option<string> {
    match b.author
    case None => None
    case Some(meta) =>
      match meta.timeAuthor
      case None => None
      case Some(p) => p.link
  }

  /** The owner: the author link text without its first four characters, cleaned; else `"N/A"`. */
  function Owner(b: Block): string {
    match AuthorLinkText(b)
    case Some(text) => CleanText(Strip(DropFirst(text, 4)))
    case None => Missing
  }

  /** `Kilométrage`: the second property item, when there is one. */
  function MileageOf(lis: seq<string>): Option<nat> {
    if |lis| > 1 then CleanNumeric(lis[1]) else None
  }

  /** `Boite vitesse`: the third property item, when there is one; else the raw `"N/A"`. */
  function GearboxOf(lis: seq<string>): string {
    if |lis| > 2 then CleanText(lis[2]) else Missing
  }

  /** `Carburant`: the fourth property item, when there is one; else the raw `"N/A"`. */
  function FuelOf(lis: seq<string>): string {
    if |lis| > 3 then CleanText(lis[3]) else Missing
  }

  /**
   * The record the scraper builds from block `b` of a `cat` page. The
   * category keys are set only when the properties block exists.
   */
  function BuildRecord(cat: Category, b: Block): (r: Record)
    ensures OptionalKeys(r) == if b.properties.Some? then CategoryKeys(cat) else {}
  {
    var title := TitleText(b);
    var lis := b.properties.GetOr([]);
    var hasProps := b.properties.Some?;
    Record(
      Brand(title),
      Year(title),
      CleanNumeric(b.price.GetOr("0")),
      CleanText(b.province.GetOr(Missing)),
      if hasProps && (cat == Cars || cat == Motorcycles) then Present(MileageOf(lis)) else Absent,
      if hasProps && cat == Cars then Present(GearboxOf(lis)) else Absent,
      if hasProps && cat == Cars then Present(FuelOf(lis)) else Absent,
      Owner(b))
  }

  /** A record built for `cat` has the optional keys of `cat`, or none of them. */
  lemma RecordConforms(cat: Category, b: Block)
    ensures Conforms(cat, BuildRecord(cat, b))
  {
  }

  /**
   * The fixed-width title split: a stripped title that is a brand followed by
   * a four-digit year gives that brand, cleaned, and that year.
   */
  lemma TitleSplit(cat: Category, b: Block, brand: string, year: nat)
    requires b.title.Some? && Strip(b.title.value) == brand + Decimal(year)
    requires 1000 <= year <= 9999
    ensures BuildRecord(cat, b).brand == CleanText(brand)
    ensures BuildRecord(cat, b).year == Some(year)
  {
    var title := brand + Decimal(year);
    DecimalFourDigits(year);
    assert DropLast(title, 4) == brand;
    assert LastN(title, 4) == Decimal(year);
    CleanNumericDecimal(year);
  }

  /**
   * A title made of a brand in capitals followed by a four-digit year, such
   * as `"TOYOTA COROLLA2015"`, gives back exactly that brand and that year.
   */
  lemma TitleOfCapitals(cat: Category, b: Block, brand: string, year: nat)
    requires brand != "" && Trimmed(brand) && Capitals(brand)
    requires b.title.Some? && Strip(b.title.value) == brand + Decimal(year)
    requires 1000 <= year <= 9999
    ensures BuildRecord(cat, b).brand == brand
    ensures BuildRecord(cat, b).year == Some(year)
  {
    TitleSplit(cat, b, brand, year);
    UpperOfCapitals(brand);
  }

  /**
   * The brand is never empty: the title is stripped or is `"N/A"`, so what is
   * left after cutting the year is empty (giving the sentinel) or starts with
   * a non-space character, which `clean_text` keeps.
   */
  lemma BrandNeverEmpty(cat: Category, b: Block)
    ensures BuildRecord(cat, b).brand != ""
  {
    var title := TitleText(b);
    assert Trimmed(title) by {
      if b.title.None? { assert !IsSpace('N') && !IsSpace('A'); }
    }
    var cut := DropLast(title, 4);
    if cut != "" {
      assert cut[0] == title[0];
      assert !IsSpace(cut[0]);
      assert !IsBlank(cut);
    }
  }

  /** The owner is never empty: a blank name after the label gives the sentinel. */
  lemma OwnerNeverEmpty(cat: Category, b: Block)
    ensures BuildRecord(cat, b).owner != ""
  {
    match AuthorLinkText(b)
    case None =>
    case Some(text) =>
      var name := Strip(DropFirst(text, 4));
      if name != "" {
        assert !IsSpace(name[0]);
        assert !IsBlank(name);
      }
  }

  /** A block without a title gives the sentinel brand and no year. */
  lemma MissingTitle(cat: Category, b: Block)
    requires b.title.None?
    ensures BuildRecord(cat, b).brand == Unknown
    ensures BuildRecord(cat, b).year == None
  {
    assert DropLast(Missing, 4) == "";
    assert LastN(Missing, 4) == Missing;
  }

  /** A missing price is read as `"0"`, so it gives 0, not nothing. */
  lemma MissingPriceIsZero(cat: Category, b: Block)
    requires b.price.None?
    ensures BuildRecord(cat, b).price == Some(0)
  {
    assert "0" == Decimal(0);
    CleanNumericDecimal(0);
  }

  /** A missing province gives the sentinel address. */
  lemma MissingProvinceIsUnknown(cat: Category, b: Block)
    requires b.province.None?
    ensures BuildRecord(cat, b).address == Unknown
  {
  }

  /**
   * The category keys, when the properties list `lis` exists: mileage from
   * item 1 for cars and motorcycles, gearbox and fuel from items 2 and 3 for
   * cars only, each guarded by the list's length.
   */
  lemma PropertiesByCategory(cat: Category, b: Block, lis: seq<string>)
    requires b.properties == Some(lis)
    ensures var r := BuildRecord(cat, b);
      && (cat != Rentals ==> r.mileage == Present(if |lis| < 2 then None else CleanNumeric(lis[1])))
      && (cat == Cars ==> r.gearbox == Present(if |lis| < 3 then Missing else CleanText(lis[2])))
      && (cat == Cars ==> r.fuel == Present(if |lis| < 4 then Missing else CleanText(lis[3])))
      && (cat == Rentals ==> r.mileage == Absent)
      && (cat != Cars ==> r.gearbox == Absent && r.fuel == Absent)
  {
  }

  /** An author link of four characters or fewer leaves nothing after the cut: the sentinel. */
  lemma ShortAuthorLinkIsUnknown(cat: Category, b: Block)
    requires AuthorLinkText(b).Some? && |AuthorLinkText(b).value| <= 4
    ensures BuildRecord(cat, b).owner == Unknown
  {
    assert DropFirst(AuthorLinkText(b).value, 4) == "";
  }

  /** The owner is what follows the four-character label of the author link, cleaned. */
  lemma OwnerAfterLabel(cat: Category, b: Block, prefix: string, name: string)
    requires |prefix| == 4 && AuthorLinkText(b) == Some(prefix + name)
    ensures BuildRecord(cat, b).owner == CleanText(Strip(name))
  {
    assert DropFirst(prefix + name, 4) == name;
  }

  /** Without the author block, its paragraph or its link, the owner is the raw `"N/A"`. */
  lemma MissingOwnerIsRaw(cat: Category, b: Block)
    requires AuthorLinkText(b).None?
    ensures BuildRecord(cat, b).owner == Missing
  {
  }
}
