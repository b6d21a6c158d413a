/** The search filters of the extension (`HiAnimeFilters`): the option lists,
    the filter list the app shows, and how the filters' state becomes the
    `SearchParameters` of a search. Only the filters' state is modelled: a
    select filter's chosen index, a group's checkbox flags. */
module Filters {
  import opened Wrappers
  import opened Text

  /** One checkbox of a group filter: its label, the query value it stands
      for, and whether it is ticked. */
  datatype CheckBox = CheckBox(name: string, value: string, checked: bool)

  /** The filters a filter list can hold. A select filter keeps its options
      as (label, query value) pairs and the index the user chose. */
  datatype Filter =
    | SelectFilter(displayName: string, query: string, vals: seq<(string, string)>, state: int)
    | GroupFilter(displayName: string, query: string, boxes: seq<CheckBox>)
    | Separator

  /** `QueryUriSelectFilter(displayName, query, vals)`, which starts on the
      default index 0. */
  function NewSelect(displayName: string, query: string, vals: seq<(string, string)>): Filter {
    SelectFilter(displayName, query, vals, 0)
  }

  /** `QueryUriGroupFilter(displayName, query, vals)`: one checkbox per pair,
      all unticked. */
  function NewGroup(displayName: string, query: string, vals: seq<(string, string)>): (f: Filter)
    ensures f.GroupFilter? && |f.boxes| == |vals|
    ensures forall i :: 0 <= i < |vals| ==> f.boxes[i] == CheckBox(vals[i].0, vals[i].1, false)
  {
    GroupFilter(displayName, query, seq(|vals|, i requires 0 <= i < |vals| => CheckBox(vals[i].0, vals[i].1, false)))
  }

  /** `QueryUriSelectFilter.getValue()`: the query value of the chosen
      option; None stands for the index-out-of-bounds exception. */
  function SelectValue(vals: seq<(string, string)>, state: int): (r: Option<string>)
    ensures r.Some? <==> 0 <= state < |vals|
  {
    if 0 <= state < |vals| then Some(vals[state].1) else None
  }

  /** The values of the ticked boxes, in list order; none when no box is
      ticked. */
  function CheckedValues(boxes: seq<CheckBox>): (r: seq<string>)
    ensures |r| <= |boxes|
    ensures (forall i :: 0 <= i < |boxes| ==> !boxes[i].checked) ==> r == []
  {
    if boxes == [] then []
    else CheckedValues(boxes[..|boxes| - 1]) + (if boxes[|boxes| - 1].checked then [boxes[|boxes| - 1].value] else [])
  }

  /** `QueryUriGroupFilter.getValue()`: the ticked values joined with ",";
      "" when no box is ticked. */
  function GroupValue(boxes: seq<CheckBox>): (r: string)
    ensures (forall i :: 0 <= i < |boxes| ==> !boxes[i].checked) ==> r == ""
  {
    Join(CheckedValues(boxes), ',')
  }

  const TYPE_LIST: seq<(string, string)> :=
    [("All", "all"), ("Movie", "1"), ("TV", "2"), ("OVA", "3"), ("ONA", "4"), ("Special", "5"), ("Music", "6")]

  const STATUS_LIST: seq<(string, string)> :=
    [("All", "all"), ("Finished Airing", "1"), ("Currently Airing", "2"), ("Not Yet Aired", "3")]

  const RATED_LIST: seq<(string, string)> :=
    [("All", "all"), ("G - All Ages", "1"), ("PG - Children", "2"), ("PG-13 - Teens 13 or older", "3"),
     ("R - 17+ (violence & profanity)", "4"), ("R+ - Mild Nudity", "5")]

  const SCORE_LIST: seq<(string, string)> :=
    [("All", "all"), ("(1) Appalling", "1"), ("(2) Horrible", "2"), ("(3) Very Bad", "3"), ("(4) Bad", "4"),
     ("(5) Average", "5"), ("(6) Fine", "6"), ("(7) Good", "7"), ("(8) Very Good", "8"), ("(9) Great", "9"),
     ("(10) Masterpiece", "10")]

  const SEASON_LIST: seq<(string, string)> :=
    [("All", "all"), ("Spring", "1"), ("Summer", "2"), ("Fall", "3"), ("Winter", "4")]

  const LANGUAGE_LIST: seq<(string, string)> :=
    [("All", "all"), ("SUB", "1"), ("DUB", "2"), ("SUB & DUB", "3")]

  const SORT_LIST: seq<(string, string)> :=
    [("Default", "default"), ("Recently Added", "recently_added"), ("Recently Updated", "recently_updated"),
     ("Score", "score"), ("Name A-Z", "name_az"), ("Released Date", "released_date"), ("Most Viewed", "most_viewed")]

  const GENRES_LIST: seq<(string, string)> :=
    [("Action", "1"), ("Adventure", "2"), ("Cars", "3"), ("Comedy", "4"), ("Dementia", "5"), ("Demons", "6"),
     ("Drama", "7"), ("Ecchi", "8"), ("Fantasy", "9"), ("Game", "10"), ("Harem", "11"), ("Historical", "12"),
     ("Horror", "13"), ("Isekai", "40"), ("Josei", "14"), ("Kids", "15"), ("Magic", "16"), ("Martial Arts", "17"),
     ("Mecha", "18"), ("Military", "19"), ("Music", "20"), ("Mystery", "21"), ("Parody", "22"), ("Police", "23"),
     ("Psychological", "24"), ("Romance", "25"), ("Samurai", "26"), ("School", "27"), ("Sci-Fi", "28"),
     ("Seinen", "29"), ("Shoujo", "30"), ("Shoujo Ai", "31"), ("Shounen", "32"), ("Shounen Ai", "33"),
     ("Slice of Life", "34"), ("Space", "35"), ("Sports", "36"), ("Super Power", "37"), ("Supernatural", "38"),
     ("Thriller", "39"), ("Vampire", "41")]

  /** `FILTER_LIST`: a fresh list of the extension's filters. */
  function FilterList(): seq<Filter> {
    [NewSelect("Type", "type", TYPE_LIST),
     NewSelect("Status", "status", STATUS_LIST),
     NewSelect("Rated", "rated", RATED_LIST),
     NewSelect("Score", "score", SCORE_LIST),
     NewSelect("Season", "season", SEASON_LIST),
     NewSelect("Language", "language", LANGUAGE_LIST),
     NewSelect("Sort", "sort", SORT_LIST),
     Separator,
     NewGroup("Genres", "genres", GENRES_LIST)]
  }

  /** `SearchParameters`; `animeType` is the `type` field. */
  datatype SearchParameters = SearchParameters(
    animeType: string, status: string, rated: string, score: string,
    season: string, language: string, sort: string, genres: string)

  /** `SearchParameters()` with every field at its default. */
  const DEFAULT_PARAMETERS := SearchParameters("all", "all", "all", "all", "all", "all", "default", "")

  predicate IsSelect(f: Filter, query: string) {
    f.SelectFilter? && f.query == query
  }

  predicate IsGroup(f: Filter, query: string) {
    f.GroupFilter? && f.query == query
  }

  /** `filterIsInstance<QueryUriSelectFilter>().firstOrNull { it.query == query }?.getValue() ?: default`;
      None when the value lookup throws. */
  function FirstSelectValue(filters: seq<Filter>, query: string, default: string): (r: Option<string>)
    ensures (forall j :: 0 <= j < |filters| ==> !IsSelect(filters[j], query)) ==> r == Some(default)
    ensures r.None? ==>
              exists j :: 0 <= j < |filters| && IsSelect(filters[j], query) && !(0 <= filters[j].state < |filters[j].vals|)
  {
    if filters == [] then Some(default)
    else if IsSelect(filters[0], query) then SelectValue(filters[0].vals, filters[0].state)
    else FirstSelectValue(filters[1..], query, default)
  }

  /** The same lookup among the group filters, whose value cannot throw. */
  function FirstGroupValue(filters: seq<Filter>, query: string, default: string): (r: string)
    ensures (forall j :: 0 <= j < |filters| ==> !IsGroup(filters[j], query)) ==> r == default
  {
    if filters == [] then default
    else if IsGroup(filters[0], query) then GroupValue(filters[0].boxes)
    else FirstGroupValue(filters[1..], query, default)
  }

  /** `getSearchParameters(filters)`; None when a chosen index is out of
      range, where the source throws. */
  function GetSearchParameters(filters: seq<Filter>): (r: Option<SearchParameters>)
    ensures filters == [] ==> r == Some(DEFAULT_PARAMETERS)
    ensures r.None? ==>
              exists j :: 0 <= j < |filters| && filters[j].SelectFilter? && !(0 <= filters[j].state < |filters[j].vals|)
  {
    if filters == [] then Some(DEFAULT_PARAMETERS)
    else
      var animeType := FirstSelectValue(filters, "type", "all");
      var status := FirstSelectValue(filters, "status", "all");
      var rated := FirstSelectValue(filters, "rated", "all");
      var score := FirstSelectValue(filters, "score", "all");
      var season := FirstSelectValue(filters, "season", "all");
      var language := FirstSelectValue(filters, "language", "all");
      var sort := FirstSelectValue(filters, "sort", "default");
      if animeType.None? || status.None? || rated.None? || score.None? || season.None? || language.None? || sort.None? then None
      else Some(SearchParameters(animeType.value, status.value, rated.value, score.value, season.value, language.value,
                                 sort.value, FirstGroupValue(filters, "genres", "")))
  }

  // ---------------------------------------------------------------------------
  // Select and group values

  /** A ticked box's value is among the group's values, and every value comes
      from a ticked box. */
  lemma {:induction false} CheckedValuesMembers(boxes: seq<CheckBox>, v: string)
    ensures v in CheckedValues(boxes) <==> exists i :: 0 <= i < |boxes| && boxes[i].checked && boxes[i].value == v
  {
    if boxes != [] {
      var init := boxes[..|boxes| - 1];
      CheckedValuesMembers(init, v);
      if exists i :: 0 <= i < |init| && init[i].checked && init[i].value == v {
        var i :| 0 <= i < |init| && init[i].checked && init[i].value == v;
        assert boxes[i] == init[i];
      }
      if exists i :: 0 <= i < |boxes| && boxes[i].checked && boxes[i].value == v {
        var i :| 0 <= i < |boxes| && boxes[i].checked && boxes[i].value == v;
        if i < |init| {
          assert init[i] == boxes[i];
        }
      }
    }
  }

  /** Ticked values keep the order of their boxes: the values of two runs of
      boxes are the values of the first run followed by those of the second. */
  lemma {:induction false} CheckedValuesConcat(a: seq<CheckBox>, b: seq<CheckBox>)
    ensures CheckedValues(a + b) == CheckedValues(a) + CheckedValues(b)
  {
    if b == [] {
      assert a + b == a;
    } else {
      CheckedValuesConcat(a, b[..|b| - 1]);
      assert (a + b)[..|a + b| - 1] == a + b[..|b| - 1];
    }
  }

  /** When some box is ticked and no value holds a ',', splitting the group's
      value on ',' gives back the ticked values in order. */
  lemma GroupValueSplits(boxes: seq<CheckBox>)
    requires exists i :: 0 <= i < |boxes| && boxes[i].checked
    requires forall i :: 0 <= i < |boxes| ==> ',' !in boxes[i].value
    ensures Split(GroupValue(boxes), ',') == CheckedValues(boxes)
  {
    var vs := CheckedValues(boxes);
    var i :| 0 <= i < |boxes| && boxes[i].checked;
    CheckedValuesMembers(boxes, boxes[i].value);
    forall k | 0 <= k < |vs| ensures ',' !in vs[k] {
      CheckedValuesMembers(boxes, vs[k]);
    }
    SplitJoin(vs, ',');
  }

  // ---------------------------------------------------------------------------
  // Parameter assembly

  /** The first select filter with the query decides the value. */
  lemma {:induction false} FirstSelectWins(filters: seq<Filter>, query: string, default: string, i: nat)
    requires i < |filters| && IsSelect(filters[i], query)
    requires forall j :: 0 <= j < i ==> !IsSelect(filters[j], query)
    ensures FirstSelectValue(filters, query, default) == SelectValue(filters[i].vals, filters[i].state)
  {
    if i > 0 {
      assert !IsSelect(filters[0], query);
      FirstSelectWins(filters[1..], query, default, i - 1);
    }
  }

  /** The first group filter with the query decides the value. */
  lemma {:induction false} FirstGroupWins(filters: seq<Filter>, query: string, default: string, i: nat)
    requires i < |filters| && IsGroup(filters[i], query)
    requires forall j :: 0 <= j < i ==> !IsGroup(filters[j], query)
    ensures FirstGroupValue(filters, query, default) == GroupValue(filters[i].boxes)
  {
    if i > 0 {
      assert !IsGroup(filters[0], query);
      FirstGroupWins(filters[1..], query, default, i - 1);
    }
  }

  /** A list of filters none of which is a query filter (only separators)
      yields the defaults, as the empty list does. */
  lemma OnlySeparatorsGiveDefaults(filters: seq<Filter>)
    requires forall j :: 0 <= j < |filters| ==> filters[j].Separator?
    ensures GetSearchParameters(filters) == Some(DEFAULT_PARAMETERS)
  {
  }

  /** Every select option list starts with its default value, at the index
      the filters start on. */
  lemma OptionListsStartWithDefault()
    ensures TYPE_LIST[0].1 == STATUS_LIST[0].1 == RATED_LIST[0].1 == "all"
    ensures SCORE_LIST[0].1 == SEASON_LIST[0].1 == LANGUAGE_LIST[0].1 == "all"
    ensures SORT_LIST[0].1 == "default"
  {
  }

  /** Seven fresh select filters on the queries of `SearchParameters`, in
      its order, each starting on its default, give every default. */
  lemma FreshSelects(fs: seq<Filter>)
    requires |fs| >= 7
    requires forall j :: 0 <= j < 7 ==> fs[j].SelectFilter? && fs[j].state == 0 && |fs[j].vals| > 0
    requires fs[0].query == "type" && fs[1].query == "status" && fs[2].query == "rated" && fs[3].query == "score"
    requires fs[4].query == "season" && fs[5].query == "language" && fs[6].query == "sort"
    requires forall j :: 0 <= j < 6 ==> fs[j].vals[0].1 == "all"
    requires fs[6].vals[0].1 == "default"
    ensures FirstSelectValue(fs, "type", "all") == Some("all") && FirstSelectValue(fs, "status", "all") == Some("all")
    ensures FirstSelectValue(fs, "rated", "all") == Some("all") && FirstSelectValue(fs, "score", "all") == Some("all")
    ensures FirstSelectValue(fs, "season", "all") == Some("all") && FirstSelectValue(fs, "language", "all") == Some("all")
    ensures FirstSelectValue(fs, "sort", "default") == Some("default")
  {
    FirstSelectWins(fs, "type", "all", 0);
    FirstSelectWins(fs, "status", "all", 1);
    FirstSelectWins(fs, "rated", "all", 2);
    FirstSelectWins(fs, "score", "all", 3);
    FirstSelectWins(fs, "season", "all", 4);
    FirstSelectWins(fs, "language", "all", 5);
    FirstSelectWins(fs, "sort", "default", 6);
  }

  /** The parameters are the values the first filters of each query give. */
  lemma AssembledParameters(filters: seq<Filter>, p: SearchParameters)
    requires filters != []
    requires FirstSelectValue(filters, "type", "all") == Some(p.animeType)
    requires FirstSelectValue(filters, "status", "all") == Some(p.status)
    requires FirstSelectValue(filters, "rated", "all") == Some(p.rated)
    requires FirstSelectValue(filters, "score", "all") == Some(p.score)
    requires FirstSelectValue(filters, "season", "all") == Some(p.season)
    requires FirstSelectValue(filters, "language", "all") == Some(p.language)
    requires FirstSelectValue(filters, "sort", "default") == Some(p.sort)
    requires FirstGroupValue(filters, "genres", "") == p.genres
    ensures GetSearchParameters(filters) == Some(p)
  {
  }

  /** A list laid out as `FILTER_LIST` is, with every filter untouched,
      yields the default parameters whenever each option list starts with
      its default. */
  lemma {:induction false} FreshListGivesDefaults(typeVals: seq<(string, string)>, statusVals: seq<(string, string)>,
                                                  ratedVals: seq<(string, string)>, scoreVals: seq<(string, string)>,
                                                  seasonVals: seq<(string, string)>, languageVals: seq<(string, string)>,
                                                  sortVals: seq<(string, string)>, genreVals: seq<(string, string)>)
    requires |typeVals| > 0 && typeVals[0].1 == "all" && |statusVals| > 0 && statusVals[0].1 == "all"
    requires |ratedVals| > 0 && ratedVals[0].1 == "all" && |scoreVals| > 0 && scoreVals[0].1 == "all"
    requires |seasonVals| > 0 && seasonVals[0].1 == "all" && |languageVals| > 0 && languageVals[0].1 == "all"
    requires |sortVals| > 0 && sortVals[0].1 == "default"
    ensures GetSearchParameters([NewSelect("Type", "type", typeVals), NewSelect("Status", "status", statusVals),
                                 NewSelect("Rated", "rated", ratedVals), NewSelect("Score", "score", scoreVals),
                                 NewSelect("Season", "season", seasonVals), NewSelect("Language", "language", languageVals),
                                 NewSelect("Sort", "sort", sortVals), Separator, NewGroup("Genres", "genres", genreVals)])
            == Some(DEFAULT_PARAMETERS)
  {
    var fs := [NewSelect("Type", "type", typeVals), NewSelect("Status", "status", statusVals),
               NewSelect("Rated", "rated", ratedVals), NewSelect("Score", "score", scoreVals),
               NewSelect("Season", "season", seasonVals), NewSelect("Language", "language", languageVals),
               NewSelect("Sort", "sort", sortVals), Separator, NewGroup("Genres", "genres", genreVals)];
    assert fs[0].query == "type" && fs[1].query == "status" && fs[2].query == "rated" && fs[3].query == "score";
    assert fs[4].query == "season" && fs[5].query == "language" && fs[6].query == "sort";
    FreshSelects(fs);
    FirstGroupWins(fs, "genres", "", 8);
    var boxes := fs[8].boxes;
    assert forall i :: 0 <= i < |boxes| ==> !boxes[i].checked;
    AssembledParameters(fs, DEFAULT_PARAMETERS);
  }

  /** A fresh filter list yields exactly the default parameters. */
  lemma UntouchedFiltersGiveDefaults()
    ensures GetSearchParameters(FilterList()) == Some(DEFAULT_PARAMETERS)
  {
    FreshListGivesDefaults(TYPE_LIST, STATUS_LIST, RATED_LIST, SCORE_LIST, SEASON_LIST, LANGUAGE_LIST, SORT_LIST, GENRES_LIST);
  }
}
