/** `parseStatus`: the anime status text of the details page, mapped to the
    app's status codes. */
module Details {
  import opened Wrappers
  import opened Text

  /** The `SAnime` status codes the extension uses. */
  const UNKNOWN := 0
  const ONGOING := 1
  const COMPLETED := 2

  /** `statusString?.trim()?.lowercase()`. */
  function Normalize(s: string): string {
    ToLower(Trim(s))
  }

  /** The `when` on the normalised text. */
  function StatusOf(s: string): (r: int)
    ensures r == COMPLETED <==> s in {"finished airing", "completed"}
    ensures r == ONGOING <==> s in {"currently airing", "ongoing"}
    ensures r in {UNKNOWN, ONGOING, COMPLETED}
  {
    if s == "finished airing" || s == "completed" then COMPLETED
    else if s == "currently airing" || s == "ongoing" then ONGOING
    else UNKNOWN
  }

  function ParseStatus(status: Option<string>): (r: int)
    ensures r == UNKNOWN || r == ONGOING || r == COMPLETED
  {
    if status.None? then UNKNOWN else StatusOf(Normalize(status.value))
  }

  /** Lower-casing keeps whitespace and non-whitespace apart. */
  lemma LowerKeepsWhitespace(c: char)
    ensures IsWhitespace(LowerChar(c)) <==> IsWhitespace(c)
  {
  }

  lemma {:induction false} TrimStartLower(s: string)
    ensures TrimStart(ToLower(s)) == ToLower(TrimStart(s))
  {
    if s != [] {
      LowerKeepsWhitespace(s[0]);
      assert ToLower(s)[1..] == ToLower(s[1..]);
      TrimStartLower(s[1..]);
    }
  }

  lemma {:induction false} TrimEndLower(s: string)
    ensures TrimEnd(ToLower(s)) == ToLower(TrimEnd(s))
  {
    if s != [] {
      LowerKeepsWhitespace(s[|s| - 1]);
      assert ToLower(s)[..|s| - 1] == ToLower(s[..|s| - 1]);
      TrimEndLower(s[..|s| - 1]);
    }
  }

  lemma LowerIdempotent(s: string)
    ensures ToLower(ToLower(s)) == ToLower(s)
  {
  }

  /** Case does not matter: an upper-case or mixed-case text reads the same
      as its lower-case form. */
  lemma StatusIgnoresCase(s: string)
    ensures ParseStatus(Some(ToLower(s))) == ParseStatus(Some(s))
  {
    TrimStartLower(s);
    TrimEndLower(TrimStart(s));
    LowerIdempotent(TrimEnd(TrimStart(s)));
    assert Normalize(ToLower(s)) == Normalize(s);
  }

  lemma {:induction false} TrimStartBlankPrefix(pre: string, s: string)
    requires IsBlank(pre) && (s == [] || !IsWhitespace(s[0]))
    ensures TrimStart(pre + s) == s
  {
    if pre != [] {
      assert (pre + s)[1..] == pre[1..] + s;
      TrimStartBlankPrefix(pre[1..], s);
    } else {
      assert pre + s == s;
    }
  }

  lemma {:induction false} TrimEndBlankSuffix(s: string, post: string)
    requires IsBlank(post) && (s == [] || !IsWhitespace(s[|s| - 1]))
    ensures TrimEnd(s + post) == s
  {
    if post != [] {
      assert (s + post)[..|s + post| - 1] == s + post[..|post| - 1];
      TrimEndBlankSuffix(s, post[..|post| - 1]);
    } else {
      assert s + post == s;
    }
  }

  /** A word without surrounding whitespace, padded with blanks, trims back
      to itself. */
  lemma PaddedTrim(pre: string, word: string, post: string)
    requires IsBlank(pre) && IsBlank(post)
    requires word != [] && !IsWhitespace(word[0]) && !IsWhitespace(word[|word| - 1])
    ensures Trim(pre + word + post) == word
  {
    assert pre + word + post == pre + (word + post);
    TrimStartBlankPrefix(pre, word + post);
    TrimEndBlankSuffix(word, post);
  }

  /** Whitespace around a status word does not matter. */
  lemma StatusIgnoresPadding(pre: string, word: string, post: string)
    requires IsBlank(pre) && IsBlank(post)
    requires word != [] && !IsWhitespace(word[0]) && !IsWhitespace(word[|word| - 1])
    ensures ParseStatus(Some(pre + word + post)) == ParseStatus(Some(word))
  {
    PaddedTrim(pre, word, post);
    PaddedTrim([], word, []);
    assert [] + word + [] == word;
  }

  /** The recognised texts, and everything else. */
  lemma StatusCodes(s: string)
    ensures ParseStatus(Some(s)) == COMPLETED <==> Normalize(s) in {"finished airing", "completed"}
    ensures ParseStatus(Some(s)) == ONGOING <==> Normalize(s) in {"currently airing", "ongoing"}
    ensures ParseStatus(Some(s)) == UNKNOWN <==> Normalize(s) !in {"finished airing", "completed", "currently airing", "ongoing"}
  {
    var n := Normalize(s);
    assert ParseStatus(Some(s)) == StatusOf(n);
  }
}
