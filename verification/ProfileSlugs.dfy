/** Profile links: a game name and a tag line, percent-encoded and joined by a hyphen. */
module ProfileSlugs {
  import opened Options
  import opened PercentEncoding

  datatype Margin = Blanks | Slashes
  {
    /** The characters trimmed: what counts as white space in text, or slashes. */
    predicate Drops(c: char) {
      match this
      case Slashes => c == '/'
      case Blanks =>
        var n := c as int;
        || 0x09 <= n <= 0x0D || 0x1C <= n <= 0x20 || n == 0x85 || n == 0xA0 || n == 0x1680 || 0x2000 <= n <= 0x200A
        || n == 0x2028 || n == 0x2029 || n == 0x202F || n == 0x205F || n == 0x3000
    }
  }

  function TrimLeft(s: string, margin: Margin): (t: string)
    ensures t == [] || !margin.Drops(t[0])
    ensures |t| <= |s| && t == s[|s| - |t|..]
  {
    if s != [] && margin.Drops(s[0]) then TrimLeft(s[1..], margin) else s
  }

  function TrimRight(s: string, margin: Margin): (t: string)
    ensures t == [] || !margin.Drops(t[|t| - 1])
    ensures |t| <= |s| && t == s[..|t|]
  {
    if s != [] && margin.Drops(s[|s| - 1]) then TrimRight(s[..|s| - 1], margin) else s
  }

  function Trim(s: string, margin: Margin): string {
    TrimRight(TrimLeft(s, margin), margin)
  }

  function Strip(s: string): string {
    Trim(s, Blanks)
  }

  predicate Reserved(s: string) {
    || s == "docs" || s == "favicon.ico" || s == "jobs" || s == "ladders" || s == "lol"
    || s == "manager" || s == "openapi.json" || s == "profiles" || s == "redoc" || s == "riot"
  }

  /** Where the last hyphen is; -1 when there is none. */
  function LastHyphen(s: string): (p: int)
    ensures -1 <= p < |s|
    ensures p >= 0 ==> s[p] == '-'
    ensures forall k | p < k < |s| :: s[k] != '-'
  {
    if s == [] then -1 else if s[|s| - 1] == '-' then |s| - 1 else LastHyphen(s[..|s| - 1])
  }

  datatype Profile = Profile(gameName: string, tagLine: string, riotId: string, profileSlug: string)

  function BuildProfileSlug(gameName: string, tagLine: string): string {
    Quote(Strip(gameName)) + ['-'] + Quote(Strip(tagLine))
  }

  function Named(gameName: string, tagLine: string): Profile {
    Profile(gameName, tagLine, gameName + ['#'] + tagLine, BuildProfileSlug(gameName, tagLine))
  }

  /** What the two sides of a hyphen name, when both name something. */
  function Split(slug: string, p: nat): Option<Profile>
    requires p < |slug|
  {
    if p == 0 || p == |slug| - 1 then None
    else
      var gameName, tagLine := Strip(Unquote(slug[..p])), Strip(Unquote(slug[p + 1..]));
      if gameName == [] || tagLine == [] || '#' in gameName || '#' in tagLine then None
      else Some(Named(gameName, tagLine))
  }

  function ParseProfileSlug(slug: string): Option<Profile> {
    var normalized := Trim(slug, Slashes);
    if normalized == [] || '/' in normalized || Reserved(normalized) then None
    else if LastHyphen(normalized) < 0 then None
    else Split(normalized, LastHyphen(normalized))
  }

  // Trimming.

  lemma {:induction false} TrimmedStays(s: string, margin: Margin)
    requires s == [] || (!margin.Drops(s[0]) && !margin.Drops(s[|s| - 1]))
    ensures Trim(s, margin) == s
  {
  }

  lemma {:induction false} TrimIsTrimmed(s: string, margin: Margin)
    ensures var t := Trim(s, margin); t == [] || (!margin.Drops(t[0]) && !margin.Drops(t[|t| - 1]))
    ensures Trim(Trim(s, margin), margin) == Trim(s, margin)
  {
    var l := TrimLeft(s, margin);
    var t := TrimRight(l, margin);
    assert t != [] ==> t[0] == l[0];
    TrimmedStays(t, margin);
  }

  lemma {:induction false} LastHyphenAt(s: string, p: nat)
    requires p < |s| && s[p] == '-' && forall k | p < k < |s| :: s[k] != '-'
    ensures LastHyphen(s) == p
  {
  }

  lemma {:induction false} ReservedHaveNoHyphen(s: string)
    requires '-' in s
    ensures !Reserved(s)
  {
  }

  lemma {:induction false} QuotedHasNoSlash(s: string)
    ensures forall k | 0 <= k < |Quote(s)| :: Quote(s)[k] != '/'
  {
    QuotedCharacters(s);
    hide Quote;
  }

  lemma {:induction false} NoSlashesStays(s: string)
    requires forall k | 0 <= k < |s| :: s[k] != '/'
    ensures Trim(s, Slashes) == s
  {
    TrimmedStays(s, Slashes);
  }

  /** A slug survives the removal of slashes and is never a reserved path. */
  lemma {:induction false} JoinedIsNormal(game: string, tag: string)
    requires forall k | 0 <= k < |game| :: game[k] != '/'
    requires forall k | 0 <= k < |tag| :: tag[k] != '/'
    ensures var slug := game + ['-'] + tag;
      Trim(slug, Slashes) == slug && slug != [] && '/' !in slug && !Reserved(slug)
  {
    hide Trim, Reserved;
    var slug := game + ['-'] + tag;
    assert slug[|game|] == '-';
    NoSlashesStays(slug);
    ReservedHaveNoHyphen(slug);
  }

  lemma {:induction false} ParseSplits(slug: string, p: nat)
    requires Trim(slug, Slashes) == slug && slug != [] && '/' !in slug && !Reserved(slug)
    requires LastHyphen(slug) == p
    ensures ParseProfileSlug(slug) == Split(slug, p)
  {
    hide Trim, Reserved, Split, LastHyphen;
  }

  /** When the tag line has no hyphen, the slug splits where it was joined. */
  lemma {:induction false} SplitWhereJoined(game: string, tag: string)
    requires '-' !in tag
    ensures ParseProfileSlug(Quote(game) + ['-'] + Quote(tag))
            == Split(Quote(game) + ['-'] + Quote(tag), |Quote(game)|)
  {
    QuotedHasNoSlash(game);
    QuotedHasNoSlash(tag);
    QuotedCharacters(tag);
    var g, t := Quote(game), Quote(tag);
    hide Quote, ParseProfileSlug, Split, Trim, Reserved;
    JoinedIsNormal(g, t);
    var slug := g + ['-'] + t;
    forall k | |g| < k < |slug|
      ensures slug[k] != '-'
    {
      assert slug[k] == t[k - |g| - 1];
    }
    LastHyphenAt(slug, |g|);
    ParseSplits(slug, |g|);
  }

  predicate NameLike(s: string) {
    s != [] && '#' !in s
  }

  lemma {:induction false} StripTwice(s: string)
    ensures Strip(Strip(s)) == Strip(s)
  {
    TrimIsTrimmed(s, Blanks);
  }

  lemma {:induction false} QuotedEmpty(s: string)
    ensures Quote(s) == [] <==> s == []
  {
    QuotedCharacters(s);
    QuoteNothing();
  }

  lemma {:induction false} SplitJoined(game: string, tag: string)
    requires Strip(game) == game && Strip(tag) == tag
    ensures Split(Quote(game) + ['-'] + Quote(tag), |Quote(game)|)
            == if NameLike(game) && NameLike(tag) then Some(Named(game, tag)) else None
  {
    UnquoteQuote(game);
    UnquoteQuote(tag);
    QuotedEmpty(game);
    QuotedEmpty(tag);
    hide Quote, Unquote, Strip, Named;
    var g, t := Quote(game), Quote(tag);
    var slug := g + ['-'] + t;
    assert slug[..|g|] == g && slug[|g| + 1..] == t;
  }

  /** A slug whose tag line has no hyphen parses to the stripped names exactly when neither is empty
      and neither has a hash sign, and to nothing otherwise. */
  lemma {:induction false} ParseBuilt(gameName: string, tagLine: string)
    requires '-' !in Strip(tagLine)
    ensures ParseProfileSlug(BuildProfileSlug(gameName, tagLine))
            == if NameLike(Strip(gameName)) && NameLike(Strip(tagLine))
               then Some(Named(Strip(gameName), Strip(tagLine))) else None
  {
    hide Strip, Quote, ParseProfileSlug, Split, Named;
    var game, tag := Strip(gameName), Strip(tagLine);
    SplitWhereJoined(game, tag);
    StripTwice(gameName);
    StripTwice(tagLine);
    SplitJoined(game, tag);
  }

  lemma {:induction false} StripHasNoHyphen(s: string)
    requires '-' !in s
    ensures '-' !in Strip(s)
  {
    var l := TrimLeft(s, Blanks);
    var t := Strip(s);
    forall k | 0 <= k < |t|
      ensures t[k] != '-'
    {
      assert t[k] == l[k] == s[|s| - |l| + k];
    }
  }

  lemma {:induction false} SplitTagHasNoHyphen(game: string, tag: string)
    requires '-' !in tag
    ensures var p := Split(Quote(game) + ['-'] + Quote(tag), |Quote(game)|); p.Some? ==> '-' !in p.value.tagLine
  {
    UnquoteQuote(tag);
    StripHasNoHyphen(tag);
    hide Quote, Unquote, Strip, BuildProfileSlug;
    var g, t := Quote(game), Quote(tag);
    var slug := g + ['-'] + t;
    assert slug[|g| + 1..] == t;
  }

  lemma {:induction false} QuoteAroundHyphen(s: string, t: string)
    ensures Quote(s + ['-'] + t) == Quote(s) + ['-'] + Quote(t)
  {
    QuoteOne('-');
    hide Quote;
    QuoteConcat(s, ['-']);
    QuoteConcat(s + ['-'], t);
  }

  /** A hyphen in the tag line is taken for the separator: whatever the slug parses to, it is not that
      tag line. */
  lemma {:induction false} HyphenatedTagIsLost(gameName: string, tagLine: string)
    requires '-' in Strip(tagLine)
    ensures var p := ParseProfileSlug(BuildProfileSlug(gameName, tagLine));
      p.Some? ==> p.value.tagLine != Strip(tagLine)
  {
    hide Strip, Quote, ParseProfileSlug, Split;
    var game, tag := Strip(gameName), Strip(tagLine);
    var p := LastHyphen(tag);
    var front, back := tag[..p], tag[p + 1..];
    assert tag == front + ['-'] + back;
    assert '-' !in back;
    QuoteAroundHyphen(front, back);
    QuoteAroundHyphen(game, front);
    assert BuildProfileSlug(gameName, tagLine) == Quote(game + ['-'] + front) + ['-'] + Quote(back);
    SplitWhereJoined(game + ['-'] + front, back);
    SplitTagHasNoHyphen(game + ['-'] + front, back);
  }

  /** Parsing a built slug gives back the stripped names and the same canonical slug if and only if neither
      name is empty or has a hash sign and the tag line has no hyphen, whatever else the names hold. */
  lemma {:induction false} SlugRoundTrip(gameName: string, tagLine: string)
    ensures ParseProfileSlug(BuildProfileSlug(gameName, tagLine)) == Some(Named(Strip(gameName), Strip(tagLine))) <==>
            NameLike(Strip(gameName)) && NameLike(Strip(tagLine)) && '-' !in Strip(tagLine)
    ensures Named(Strip(gameName), Strip(tagLine)).profileSlug == BuildProfileSlug(gameName, tagLine)
  {
    StripTwice(gameName);
    StripTwice(tagLine);
    hide Strip, ParseProfileSlug, Quote;
    if '-' in Strip(tagLine) {
      HyphenatedTagIsLost(gameName, tagLine);
    } else {
      ParseBuilt(gameName, tagLine);
    }
  }

  /** The canonical slug of a parsed profile leads back to that profile if and only if its tag line has
      no hyphen, which a slug can smuggle in percent-encoded. */
  lemma {:induction false} CanonicalSlugIsStable(slug: string)
    requires ParseProfileSlug(slug).Some?
    ensures var profile := ParseProfileSlug(slug).value;
      ParseProfileSlug(profile.profileSlug) == Some(profile) <==> '-' !in profile.tagLine
  {
    var normalized := Trim(slug, Slashes);
    var p := LastHyphen(normalized);
    var g, t := Unquote(normalized[..p]), Unquote(normalized[p + 1..]);
    StripTwice(g);
    StripTwice(t);
    hide Strip, Quote, Trim, Reserved, Unquote;
    assert ParseProfileSlug(slug).value == Named(Strip(g), Strip(t));
    assert NameLike(Strip(g)) && NameLike(Strip(t));
    SlugRoundTrip(Strip(g), Strip(t));
  }

  /** Whatever a slug parses to, its names are not empty, trimmed and without a hash sign, its Riot id is the two joined
      by one, and its canonical slug is the two quoted and joined by a hyphen. */
  lemma {:induction false} ParsedNames(slug: string)
    ensures var parsed := ParseProfileSlug(slug);
      parsed.Some? ==>
        var game, tag := parsed.value.gameName, parsed.value.tagLine;
        && game != [] && tag != [] && '#' !in game && '#' !in tag
        && game == Strip(game) && tag == Strip(tag)
        && parsed.value.riotId == game + "#" + tag
        && parsed.value.profileSlug == Quote(game) + "-" + Quote(tag)
  {
    var normalized := Trim(slug, Slashes);
    var p := LastHyphen(normalized);
    if 0 < p < |normalized| - 1 {
      StripTwice(Unquote(normalized[..p]));
      StripTwice(Unquote(normalized[p + 1..]));
    }
    hide Strip, Quote, Unquote, Trim, Reserved, LastHyphen;
  }
}
