/** The search request, `searchAnimeRequest(page, query, params)`: the
    `/filter` URL with `keyword` and `page` always set and every other
    parameter only when it differs from its default. The request is modelled
    as the URL without its query and the query's (name, value) pairs in
    order, before percent-encoding. */
module Search {
  import opened Wrappers
  import opened Numbers
  import opened Filters

  const BASE_URL := "https://hianime.to"

  datatype Request = Request(url: string, query: seq<(string, string)>)

  /** The optional parameters as (name, value, default) triples, in the
      order the request adds them. */
  function OptionalFields(p: SearchParameters): seq<(string, string, string)> {
    [("type", p.animeType, "all"), ("status", p.status, "all"), ("rated", p.rated, "all"),
     ("score", p.score, "all"), ("season", p.season, "all"), ("language", p.language, "all"),
     ("sort", p.sort, "default"), ("genres", p.genres, "")]
  }

  /** `if (value != default) addQueryParameter(name, value)`, field by field. */
  function NonDefault(fields: seq<(string, string, string)>): (r: seq<(string, string)>)
    ensures |r| <= |fields|
  {
    if fields == [] then []
    else (if fields[0].1 != fields[0].2 then [(fields[0].0, fields[0].1)] else []) + NonDefault(fields[1..])
  }

  /** The query parameters the request carries, in the order they are added:
      the keyword and the page first, then at most the eight filters. */
  function SearchQuery(page: int, query: string, p: SearchParameters): (r: seq<(string, string)>)
    ensures 2 <= |r| <= 10
    ensures r[0] == ("keyword", query) && r[1] == ("page", IntToString(page))
  {
    [("keyword", query), ("page", IntToString(page))] + NonDefault(OptionalFields(p))
  }

  /** The request goes to the `/filter` page whatever the parameters. */
  function SearchRequest(page: int, query: string, p: SearchParameters): (r: Request)
    ensures r.url == BASE_URL + "/filter"
    ensures |r.query| >= 2 && r.query[0] == ("keyword", query) && r.query[1] == ("page", IntToString(page))
  {
    Request(BASE_URL + "/filter", SearchQuery(page, query, p))
  }

  /** The value of the first parameter called `name`. */
  function Lookup(ps: seq<(string, string)>, name: string): Option<string> {
    if ps == [] then None
    else if ps[0].0 == name then Some(ps[0].1)
    else Lookup(ps[1..], name)
  }

  lemma {:induction false} LookupConcat(a: seq<(string, string)>, b: seq<(string, string)>, name: string)
    ensures Lookup(a + b, name) == if Lookup(a, name).Some? then Lookup(a, name) else Lookup(b, name)
  {
    if a == [] {
      assert a + b == b;
    } else {
      assert (a + b)[1..] == a[1..] + b;
      LookupConcat(a[1..], b, name);
    }
  }

  lemma {:induction false} LookupAbsent(ps: seq<(string, string)>, name: string)
    requires forall i :: 0 <= i < |ps| ==> ps[i].0 != name
    ensures Lookup(ps, name) == None
  {
    if ps != [] {
      LookupAbsent(ps[1..], name);
    }
  }

  /** Every parameter that `NonDefault` adds is named after one of the fields. */
  lemma {:induction false} NonDefaultNames(fields: seq<(string, string, string)>, name: string)
    requires forall i :: 0 <= i < |fields| ==> fields[i].0 != name
    ensures Lookup(NonDefault(fields), name) == None
  {
    if fields != [] {
      NonDefaultNames(fields[1..], name);
      var first := if fields[0].1 != fields[0].2 then [(fields[0].0, fields[0].1)] else [];
      LookupConcat(first, NonDefault(fields[1..]), name);
    }
  }

  /** Among fields with distinct names, field `k` is present exactly when
      its value differs from its default, and then with that value. */
  lemma {:induction false} NonDefaultLookup(fields: seq<(string, string, string)>, k: nat)
    requires k < |fields|
    requires forall i, j :: 0 <= i < j < |fields| ==> fields[i].0 != fields[j].0
    ensures Lookup(NonDefault(fields), fields[k].0) == if fields[k].1 != fields[k].2 then Some(fields[k].1) else None
  {
    var name := fields[k].0;
    var first := if fields[0].1 != fields[0].2 then [(fields[0].0, fields[0].1)] else [];
    LookupConcat(first, NonDefault(fields[1..]), name);
    if k == 0 {
      NonDefaultNames(fields[1..], name);
    } else {
      NonDefaultLookup(fields[1..], k - 1);
    }
  }

  /** The default parameters add nothing beyond the keyword and the page. */
  lemma DefaultSearchQuery(page: int, query: string)
    ensures SearchQuery(page, query, DEFAULT_PARAMETERS) == [("keyword", query), ("page", IntToString(page))]
  {
  }

  /** Each filter parameter is present exactly when its field differs from
      the default, and then carries the field's value; the keyword and the
      page are always present, and the page reads back as the number. */
  lemma SearchQueryParameters(page: int, query: string, p: SearchParameters)
    requires INT_MIN <= page <= INT_MAX
    ensures var q := SearchQuery(page, query, p);
      && Lookup(q, "keyword") == Some(query)
      && Lookup(q, "page").Some? && ParseInt(Lookup(q, "page").value) == Some(page)
      && Lookup(q, "type") == (if p.animeType != "all" then Some(p.animeType) else None)
      && Lookup(q, "status") == (if p.status != "all" then Some(p.status) else None)
      && Lookup(q, "rated") == (if p.rated != "all" then Some(p.rated) else None)
      && Lookup(q, "score") == (if p.score != "all" then Some(p.score) else None)
      && Lookup(q, "season") == (if p.season != "all" then Some(p.season) else None)
      && Lookup(q, "language") == (if p.language != "all" then Some(p.language) else None)
      && Lookup(q, "sort") == (if p.sort != "default" then Some(p.sort) else None)
      && Lookup(q, "genres") == (if p.genres != "" then Some(p.genres) else None)
  {
    ParseIntToString(page, INT_MIN, INT_MAX);
    FieldParameter(page, query, p, 0);
    FieldParameter(page, query, p, 1);
    FieldParameter(page, query, p, 2);
    FieldParameter(page, query, p, 3);
    FieldParameter(page, query, p, 4);
    FieldParameter(page, query, p, 5);
    FieldParameter(page, query, p, 6);
    FieldParameter(page, query, p, 7);
  }

  /** One optional parameter, looked up in the whole query. */
  lemma FieldParameter(page: int, query: string, p: SearchParameters, k: nat)
    requires k < 8
    ensures var f := OptionalFields(p)[k];
            Lookup(SearchQuery(page, query, p), f.0) == if f.1 != f.2 then Some(f.1) else None
  {
    var head := [("keyword", query), ("page", IntToString(page))];
    var fields := OptionalFields(p);
    LookupConcat(head, NonDefault(fields), fields[k].0);
    NonDefaultLookup(fields, k);
  }

  /** A search from a fresh filter list sends only the keyword and the page. */
  lemma UntouchedFiltersSearch(page: int, query: string)
    ensures GetSearchParameters(FilterList()).Some?
    ensures SearchQuery(page, query, GetSearchParameters(FilterList()).value) == [("keyword", query), ("page", IntToString(page))]
  {
    UntouchedFiltersGiveDefaults();
    DefaultSearchQuery(page, query);
  }
}
