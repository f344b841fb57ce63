/**
 * `SourceMixin` (bundestags_scraper/spiders/base_spider.py): the part of every
 * spider that announces the pages and domains it crawls, and checks that a
 * record has its mandatory fields. `urlparse(url).netloc` is a parameter of
 * the spider; the JSON logging is recorded as the list of missing-field reports
 * the spider writes.
 */
module BaseSpider {
  import opened Wrappers
  import opened Items

  /**
   * What a spider uses of a Scrapy response: its URL, the whitespace-normalised
   * text of its `<title>` (an XPath string value, so `""` when there is none)
   * and its body.
   */
  datatype Response = Response(url: string, title: string, text: string)

  /** The record announcing a domain seen for the first time. */
  function DomainItem(url: string, domain: string): (r: Item)
    ensures r.cls == SourceDomainItem && WellFormed(r)
    ensures Get(r.data, "item_type") == Some("domain")
    ensures Get(r.data, "domain") == Some(domain)
    ensures Get(r.data, "description") == Some("Domain extracted from " + url)
  {
    Item(SourceDomainItem, map["item_type" := Some("domain"), "domain" := Some(domain),
                               "description" := Some("Domain extracted from " + url)])
  }

  /** The record announcing a crawled page. */
  function PageItem(resp: Response, domain: string): (r: Item)
    ensures r.cls == SourcePageItem && WellFormed(r)
    ensures Get(r.data, "item_type") == Some("page")
    ensures Get(r.data, "url") == Some(resp.url)
    ensures Get(r.data, "title") == Some(resp.title)
    ensures Get(r.data, "full_html") == Some(resp.text)
    ensures Get(r.data, "source_domain") == Some(domain)
  {
    Item(SourcePageItem, map["item_type" := Some("page"), "url" := Some(resp.url), "title" := Some(resp.title),
                             "full_html" := Some(resp.text), "source_domain" := Some(domain)])
  }

  /** The mandatory fields that are not truthy, in the order `mandatory` lists them. */
  function Missing(item: Fields, mandatory: seq<string>): (missing: seq<string>)
    ensures |missing| <= |mandatory|
  {
    if mandatory == [] then []
    else (if Truthy(Get(item, mandatory[0])) then [] else [mandatory[0]]) + Missing(item, mandatory[1..])
  }

  /** A field is reported missing exactly when `mandatory` names it and it is not truthy. */
  lemma {:induction false} MissingMembers(item: Fields, mandatory: seq<string>, f: string)
    ensures f in Missing(item, mandatory) <==> f in mandatory && !Truthy(Get(item, f))
  {
    if mandatory != [] {
      MissingMembers(item, mandatory[1..], f);
      assert mandatory == [mandatory[0]] + mandatory[1..];
    }
  }

  /** Filtering keeps order: the missing fields of a concatenation are those of its parts, concatenated. */
  lemma {:induction false} MissingConcat(item: Fields, a: seq<string>, b: seq<string>)
    ensures Missing(item, a + b) == Missing(item, a) + Missing(item, b)
  {
    if a == [] {
      assert a + b == b;
    } else {
      var head := if Truthy(Get(item, a[0])) then [] else [a[0]];
      assert (a + b)[0] == a[0];
      assert (a + b)[1..] == a[1..] + b;
      assert Missing(item, a + b) == head + Missing(item, a[1..] + b);
      MissingConcat(item, a[1..], b);
      assert Missing(item, a) == head + Missing(item, a[1..]);
    }
  }

  /** Every missing field is reported once per time `mandatory` names it. */
  lemma {:induction false} MissingCount(item: Fields, mandatory: seq<string>, f: string)
    ensures multiset(Missing(item, mandatory))[f]
            == if Truthy(Get(item, f)) then 0 else multiset(mandatory)[f]
  {
    if mandatory != [] {
      var head := if Truthy(Get(item, mandatory[0])) then [] else [mandatory[0]];
      assert Missing(item, mandatory) == head + Missing(item, mandatory[1..]);
      MissingCount(item, mandatory[1..], f);
      assert mandatory == [mandatory[0]] + mandatory[1..];
      assert multiset(mandatory)[f] == multiset([mandatory[0]])[f] + multiset(mandatory[1..])[f];
    }
  }

  /** The records `add_source_page` yields for a response: the domain record when `domain` is new, then the page record. */
  function SourceItems(seen: set<string>, resp: Response, domain: string): (items: seq<Item>)
    ensures 1 <= |items| <= 2
    ensures items[|items| - 1] == PageItem(resp, domain)
    ensures |items| == 2 <==> domain !in seen
    ensures |items| == 2 ==> items[0] == DomainItem(resp.url, domain)
  {
    (if domain in seen then [] else [DomainItem(resp.url, domain)]) + [PageItem(resp, domain)]
  }

  /** The `(url, missing)` report `log_missing` writes. */
  datatype MissingReport = MissingReport(url: string, missing: seq<string>, item: Fields)

  class SourceMixin {
    /** `urlparse(url).netloc` */
    const netloc: string -> string
    var seenDomains: set<string>
    /** The reports written to the missing-field log, oldest first. */
    var missingLog: seq<MissingReport>

    /** A fresh spider instance has seen no domain and logged nothing. */
    constructor(netloc: string -> string)
      ensures this.netloc == netloc && seenDomains == {} && missingLog == []
    {
      this.netloc := netloc;
      seenDomains := {};
      missingLog := [];
    }

    /** `get_domain(response)` */
    function GetDomain(resp: Response): string {
      netloc(resp.url)
    }

    /**
     * `generate_source_domain_item(response)`: the domain record the first time the
     * spider sees the response's domain, and None afterwards.
     */
    method GenerateSourceDomainItem(resp: Response) returns (r: Option<Item>)
      modifies this
      ensures seenDomains == old(seenDomains) + {netloc(resp.url)}
      ensures missingLog == old(missingLog)
      ensures r.Some? <==> netloc(resp.url) !in old(seenDomains)
      ensures r.Some? ==> r.value == DomainItem(resp.url, netloc(resp.url))
    {
      var domain := GetDomain(resp);
      if domain !in seenDomains {
        seenDomains := seenDomains + {domain};
        return Some(DomainItem(resp.url, domain));
      }
      return None;
    }

    /** `generate_source_page_item(response)` */
    method GenerateSourcePageItem(resp: Response) returns (r: Item)
      ensures r == PageItem(resp, netloc(resp.url))
    {
      var domain := GetDomain(resp);
      return PageItem(resp, domain);
    }

    /**
     * `add_source_page(response)`: the domain record when the domain is new,
     * then always the page record.
     */
    method AddSourcePage(resp: Response) returns (items: seq<Item>)
      modifies this
      ensures seenDomains == old(seenDomains) + {netloc(resp.url)}
      ensures missingLog == old(missingLog)
      ensures items == SourceItems(old(seenDomains), resp, netloc(resp.url))
    {
      items := [];
      var dom := GenerateSourceDomainItem(resp);
      if dom.Some? {
        items := items + [dom.value];
      }
      var page := GenerateSourcePageItem(resp);
      items := items + [page];
    }

    /**
     * `validate_item(item, mandatory, url)`: True exactly when every mandatory
     * field is truthy; a report is logged only when some field is missing.
     */
    method ValidateItem(item: Fields, mandatory: seq<string>, url: string) returns (ok: bool)
      modifies this
      ensures seenDomains == old(seenDomains)
      ensures ok <==> forall f :: f in mandatory ==> Truthy(Get(item, f))
      ensures ok <==> Missing(item, mandatory) == []
      ensures missingLog == old(missingLog) + (if ok then [] else [MissingReport(url, Missing(item, mandatory), item)])
    {
      var missing := Missing(item, mandatory);
      if missing != [] {
        MissingMembers(item, mandatory, missing[0]);
        missingLog := missingLog + [MissingReport(url, missing, item)];
      } else {
        assert forall f :: f in mandatory ==> Truthy(Get(item, f)) by {
          forall f | f in mandatory ensures Truthy(Get(item, f)) {
            MissingMembers(item, mandatory, f);
          }
        }
      }
      ok := missing == [];
    }
  }
}
