/**
 * The scraped records (bundestags_scraper/items.py). A record is seen the way
 * `ItemAdapter(item).asdict()` sees it: its class, and the fields that were set,
 * each holding a Python `str` or `None`. A field that was never set is absent
 * from the map, so `item[k]` on it raises KeyError while `item.get(k)` gives None.
 */
module Items {
  import opened Wrappers

  /** A field value: `Some(s)` for a `str`, `None` for Python's None. */
  type Value = Option<string>

  type Fields = map<string, Value>

  datatype ItemClass =
    | SourceDomainItem
    | SourcePageItem
    | LegislativePeriodItem
    | PoliticianItem
    | PoliticianContent
    | PoliticianBiography

  datatype Item = Item(cls: ItemClass, data: Fields)

  /** `d.get(k)` */
  function Get(d: Fields, k: string): (v: Value)
    ensures k !in d ==> v == None
    ensures k in d ==> v == d[k]
  {
    if k in d then d[k] else None
  }

  /** Python truthiness of a `str`-or-None value. */
  predicate Truthy(v: Value) {
    v.Some? && v.value != ""
  }

  /** The fields each item class declares (every class also inherits `item_type`). */
  function DeclaredFields(cls: ItemClass): set<string> {
    {"item_type"} +
    match cls
    case SourceDomainItem => {"domain", "description"}
    case SourcePageItem => {"url", "title", "full_html", "source_domain"}
    case LegislativePeriodItem => {"period_number", "name", "start_date", "end_date", "source_page", "detail_page"}
    case PoliticianItem =>
      {"legislative_period_number", "full_name", "firstname", "lastname", "birthname", "birth_year",
       "death_year", "political_party", "federate_state", "constituency", "remarks", "source_page", "detail_page"}
    case PoliticianContent => {"source_page", "content", "section_header", "section_content"}
    case PoliticianBiography => {"full_text"}
  }

  /** Only declared fields are set (Scrapy raises KeyError on any other). */
  predicate WellFormed(item: Item) {
    item.data.Keys <= DeclaredFields(item.cls)
  }
}
