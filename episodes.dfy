/** Episode-side helpers: reading the anime id and the episode id out of a
    stored URL, and building the episode list from the AJAX episode items. */
module Episodes {
  import opened Wrappers
  import opened Text

  /** The text after the LAST `marker`, up to the first '?', when it is not
      empty; None where the source throws before any request. */
  function IdAfterLast(url: string, marker: string): Option<string> {
    var id := SubstringBefore(SubstringAfterLast(url, marker, ""), "?");
    if id == [] then None else Some(id)
  }

  /** `anime.url.substringAfterLast("-", "").substringBefore("?")`: a
      non-empty, '?'-free text that follows the last '-' of the URL. */
  function AnimeId(url: string): (r: Option<string>)
    ensures r.Some? ==> r.value != [] && '?' !in r.value && 0 <= LastIndexOf(url, "-") && IsAt(url, "-" + r.value, LastIndexOf(url, "-"))
  {
    if IdAfterLast(url, "-").Some? then
      IdIsAfterLastMarker(url, "-");
      IdAfterLast(url, "-")
    else None
  }

  /** `episode.url.substringAfterLast("ep=", "").substringBefore("?")`: a
      non-empty, '?'-free text that follows the last "ep=" of the URL. */
  function EpisodeId(url: string): (r: Option<string>)
    ensures r.Some? ==> r.value != [] && '?' !in r.value && 0 <= LastIndexOf(url, "ep=") && IsAt(url, "ep=" + r.value, LastIndexOf(url, "ep="))
  {
    if IdAfterLast(url, "ep=").Some? then
      IdIsAfterLastMarker(url, "ep=");
      IdAfterLast(url, "ep=")
    else None
  }

  /** An id is read from the last marker on: with the marker last at
      `|pre|`, the id is the text after it up to the first '?'. */
  lemma IdAfterLastOf(url: string, marker: string, pre: string, id: string, rest: string)
    requires |marker| > 0 && url == pre + marker + id + rest
    requires forall j :: |pre| < j < |url| ==> !IsAt(url, marker, j)
    requires id != [] && '?' !in id && (rest == [] || rest[0] == '?')
    ensures IdAfterLast(url, marker) == Some(id)
  {
    assert url[|pre|..|pre| + |marker|] == marker;
    LastOccurrence(url, marker, |pre|);
    var after := SubstringAfterLast(url, marker, "");
    assert url == url[..|pre|] + marker + after;
    assert after == id + rest;
    forall j | 0 <= j < |id| ensures !IsAt(after, "?", j) {
      CharAt(after, '?', j);
    }
    if rest == [] {
      forall j | 0 <= j <= |after| ensures !IsAt(after, "?", j) {
        CharAt(after, '?', j);
      }
      NoOccurrence(after, "?");
      assert after == id;
    } else {
      CharAt(after, '?', |id|);
      FirstOccurrence(after, "?", |id|);
      assert after[..|id|] == id;
    }
  }

  /** A URL without the marker yields no id. */
  lemma NoMarkerNoId(url: string, marker: string)
    requires forall j :: 0 <= j < |url| ==> !IsAt(url, marker, j)
    ensures IdAfterLast(url, marker) == None
  {
  }

  /** What an id is: a non-empty text free of '?' that follows the last
      occurrence of the marker in the URL. */
  lemma IdIsAfterLastMarker(url: string, marker: string)
    requires IdAfterLast(url, marker).Some?
    ensures var id := IdAfterLast(url, marker).value;
            var p := LastIndexOf(url, marker);
            && id != [] && '?' !in id
            && 0 <= p && IsAt(url, marker + id, p)
            && forall j :: p < j < |url| ==> !IsAt(url, marker, j)
  {
    var p := LastIndexOf(url, marker);
    var after := SubstringAfterLast(url, marker, "");
    var id := IdAfterLast(url, marker).value;
    LastIndexFromIsLast(url, marker, |url| - 1);
    SubstringBeforeIsFirst(after, "?");
    forall j | 0 <= j < |id| ensures id[j] != '?' {
      CharAt(after, '?', j);
    }
    assert url[p..p + |marker + id|] == marker + id;
  }

  // ---------------------------------------------------------------------------
  // Episode list

  /** One `a.ssl-item.ep-item` element of the AJAX answer: its `href` and
      `title` attributes ("" when absent) and the text of its order element,
      if it has one. */
  datatype EpisodeElement = EpisodeElement(href: string, title: string, order: Option<string>)

  /** An `SEpisode` as the list builds it: its url is the href as given. */
  datatype Episode = Episode(url: string, name: string)

  predicate IsComplete(e: EpisodeElement) {
    e.href != [] && e.title != [] && e.order.Some? && e.order.value != []
  }

  function ToEpisode(e: EpisodeElement): Episode {
    Episode(e.href, e.title)
  }

  /** The episodes of the complete elements, in document order. */
  function Kept(es: seq<EpisodeElement>): (r: seq<Episode>)
    ensures |r| <= |es|
    ensures forall i :: 0 <= i < |r| ==> r[i].url != [] && r[i].name != []
  {
    if es == [] then []
    else Kept(es[..|es| - 1]) + (if IsComplete(es[|es| - 1]) then [ToEpisode(es[|es| - 1])] else [])
  }

  /** Kotlin's `reversed()`. */
  function Reverse<T>(s: seq<T>): (r: seq<T>)
    ensures |r| == |s|
    ensures forall i :: 0 <= i < |s| ==> r[i] == s[|s| - 1 - i]
  {
    if s == [] then [] else [s[|s| - 1]] + Reverse(s[..|s| - 1])
  }

  /** `parseEpisodesFromAjax`: keeps the complete elements as episodes, then
      reverses the list. */
  method ParseEpisodesFromAjax(elements: seq<EpisodeElement>) returns (episodes: seq<Episode>)
    ensures episodes == Reverse(Kept(elements))
  {
    var episodeList := [];
    for i := 0 to |elements|
      invariant episodeList == Kept(elements[..i])
    {
      assert elements[..i + 1][..i] == elements[..i];
      if IsComplete(elements[i]) {
        episodeList := episodeList + [ToEpisode(elements[i])];
      }
    }
    assert elements[..|elements|] == elements;
    episodes := Reverse(episodeList);
  }

  lemma {:induction false} KeptConcat(a: seq<EpisodeElement>, b: seq<EpisodeElement>)
    ensures Kept(a + b) == Kept(a) + Kept(b)
  {
    if b != [] {
      KeptConcat(a, b[..|b| - 1]);
      assert (a + b)[..|a + b| - 1] == a + b[..|b| - 1];
    } else {
      assert a + b == a;
    }
  }

  /** Every episode comes from a complete element, and every complete
      element gives one. */
  lemma {:induction false} KeptMembers(es: seq<EpisodeElement>, ep: Episode)
    ensures ep in Kept(es) <==> exists i :: 0 <= i < |es| && IsComplete(es[i]) && ToEpisode(es[i]) == ep
  {
    if es != [] {
      var init := es[..|es| - 1];
      KeptMembers(init, ep);
      if exists i :: 0 <= i < |init| && IsComplete(init[i]) && ToEpisode(init[i]) == ep {
        var i :| 0 <= i < |init| && IsComplete(init[i]) && ToEpisode(init[i]) == ep;
        assert es[i] == init[i];
      }
      if exists i :: 0 <= i < |es| && IsComplete(es[i]) && ToEpisode(es[i]) == ep {
        var i :| 0 <= i < |es| && IsComplete(es[i]) && ToEpisode(es[i]) == ep;
        if i < |init| {
          assert init[i] == es[i];
        }
      }
    }
  }

  /** When every element is complete, the list is the elements' episodes,
      last element first. */
  lemma {:induction false} AllCompleteReversed(es: seq<EpisodeElement>)
    requires forall i :: 0 <= i < |es| ==> IsComplete(es[i])
    ensures |Reverse(Kept(es))| == |es|
    ensures forall j :: 0 <= j < |es| ==> Reverse(Kept(es))[j] == ToEpisode(es[|es| - 1 - j])
  {
    AllCompleteKept(es);
  }

  lemma {:induction false} AllCompleteKept(es: seq<EpisodeElement>)
    requires forall i :: 0 <= i < |es| ==> IsComplete(es[i])
    ensures |Kept(es)| == |es|
    ensures forall i :: 0 <= i < |es| ==> Kept(es)[i] == ToEpisode(es[i])
  {
    if es != [] {
      AllCompleteKept(es[..|es| - 1]);
    }
  }

  /** An element missing its href, its title or its order number is skipped. */
  lemma IncompleteSkipped(a: seq<EpisodeElement>, e: EpisodeElement, b: seq<EpisodeElement>)
    requires !IsComplete(e)
    ensures Kept(a + [e] + b) == Kept(a + b)
  {
    KeptConcat(a + [e], b);
    KeptConcat(a, [e]);
    KeptConcat(a, b);
    assert Kept([e]) == Kept([]) + [];
  }
}
