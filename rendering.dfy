/** What the page draws from normalised records: a show item whose
    "Episodes" button is bound to the show's id, and the text of an
    episode list item. Markup and styling are not modelled. */
module Rendering {
  import opened Wrappers
  import opened JsText
  import opened Catalog

  /** A rendered show: the record it was drawn from (its `data-show-id`
      attribute is `show.id`) and the id its "Episodes" click handler
      captured when the item was built. */
  datatype ShowItem = ShowItem(show: Show, boundId: int)

  /** The item `populateShows` builds for one show: the click handler closes
      over that show's own id. */
  function RenderShow(show: Show): ShowItem {
    ShowItem(show, show.id)
  }

  /** The items of a shows list drawn from `shows`, one per show and in order,
      each button bound to its own show's id. */
  function RenderShows(shows: seq<Show>): (items: seq<ShowItem>)
    ensures |items| == |shows|
    ensures forall k :: 0 <= k < |shows| ==> items[k].show == shows[k] && items[k].boundId == shows[k].id
  {
    seq(|shows|, k requires 0 <= k < |shows| => RenderShow(shows[k]))
  }

  /** Drawing one more show appends exactly one item. */
  lemma RenderShowsAppend(shows: seq<Show>, show: Show)
    ensures RenderShows(shows + [show]) == RenderShows(shows) + [RenderShow(show)]
  {
  }

  const SEASON_TEXT: string := " (season "
  const NUMBER_TEXT: string := ", number "
  const CLOSE_TEXT: string := ")"

  /** The text of an episode's list item: `${name} (season ${season}, number ${number})`. */
  function EpisodeLabel(e: Episode): (text: string)
    ensures |text| > |e.name| && text[..|e.name|] == e.name
    ensures text[|text| - 1] == ')'
  {
    e.name + SEASON_TEXT + Interpolate(e.season) + NUMBER_TEXT + Interpolate(e.number) + CLOSE_TEXT
  }

  /** The labels of `episodes`, one per episode and in order. */
  function EpisodeLabels(episodes: seq<Episode>): (labels: seq<string>)
    ensures |labels| == |episodes|
    ensures forall k :: 0 <= k < |episodes| ==> labels[k] == EpisodeLabel(episodes[k])
  {
    seq(|episodes|, k requires 0 <= k < |episodes| => EpisodeLabel(episodes[k]))
  }

  /** Labelling one more episode appends exactly one label. */
  lemma EpisodeLabelsAppend(episodes: seq<Episode>, e: Episode)
    ensures EpisodeLabels(episodes + [e]) == EpisodeLabels(episodes) + [EpisodeLabel(e)]
  {
  }

  /** The length of the run of digits that starts `s`. */
  function SpanDigits(s: string): (k: nat)
    ensures k <= |s| && AllDigits(s[..k])
    ensures k < |s| ==> !IsDigit(s[k])
  {
    if s == [] || !IsDigit(s[0]) then 0 else 1 + SpanDigits(s[1..])
  }

  lemma {:induction false} SpanDigitsOfNumeral(d: string, rest: string)
    requires AllDigits(d)
    requires rest == [] || !IsDigit(rest[0])
    ensures SpanDigits(d + rest) == |d|
    decreases |d|
  {
    if d != [] {
      assert (d + rest)[1..] == d[1..] + rest;
      SpanDigitsOfNumeral(d[1..], rest);
    }
  }

  /** The length of the optionally signed numeral that starts `s`. */
  function SpanNumeral(s: string): (k: nat)
    ensures k <= |s|
  {
    if |s| > 0 && s[0] == '-' then 1 + SpanDigits(s[1..]) else SpanDigits(s)
  }

  lemma SpanNumeralOfDecimal(n: int, rest: string)
    requires rest == [] || !IsDigit(rest[0])
    ensures SpanNumeral(IntToDecimal(n) + rest) == |IntToDecimal(n)|
  {
    var d := IntToDecimal(n);
    if n < 0 {
      assert (d + rest)[0] == '-';
      assert (d + rest)[1..] == NatToDecimal(-n) + rest;
      SpanDigitsOfNumeral(NatToDecimal(-n), rest);
    } else {
      assert (d + rest)[0] == d[0];
      SpanDigitsOfNumeral(d, rest);
    }
  }

  /** Reads season and number back from the label of an episode named `name`,
      when both were written as integers. */
  function ParseEpisodeLabel(text: string, name: string): Option<(int, int)> {
    if |name| <= |text| && text[..|name|] == name then ParseLabelTail(text[|name|..]) else None
  }

  /** Reads ` (season S, number N)`. */
  function ParseLabelTail(t: string): Option<(int, int)> {
    if |SEASON_TEXT| <= |t| && t[..|SEASON_TEXT|] == SEASON_TEXT then ParseSeasonOnward(t[|SEASON_TEXT|..]) else None
  }

  /** Reads `S, number N)`. */
  function ParseSeasonOnward(u: string): Option<(int, int)> {
    var k := SpanNumeral(u);
    var v := u[k..];
    if |NUMBER_TEXT| <= |v| && v[..|NUMBER_TEXT|] == NUMBER_TEXT then
      match (ParseInt(u[..k]), ParseNumberOnward(v[|NUMBER_TEXT|..]))
      case (Some(s), Some(n)) => Some((s, n))
      case _ => None
    else None
  }

  /** Reads `N)`. */
  function ParseNumberOnward(w: string): Option<int> {
    var j := SpanNumeral(w);
    if w[j..] == CLOSE_TEXT then ParseInt(w[..j]) else None
  }

  lemma NumberOnwardRoundTrip(n: int)
    ensures ParseNumberOnward(IntToDecimal(n) + CLOSE_TEXT) == Some(n)
  {
    var d := IntToDecimal(n);
    SpanNumeralOfDecimal(n, CLOSE_TEXT);
    assert (d + CLOSE_TEXT)[..|d|] == d;
    assert (d + CLOSE_TEXT)[|d|..] == CLOSE_TEXT;
    IntToDecimalRoundTrip(n);
  }

  lemma SeasonOnwardRoundTrip(s: int, n: int)
    ensures ParseSeasonOnward(IntToDecimal(s) + (NUMBER_TEXT + (IntToDecimal(n) + CLOSE_TEXT))) == Some((s, n))
  {
    var d, rest := IntToDecimal(s), NUMBER_TEXT + (IntToDecimal(n) + CLOSE_TEXT);
    SpanNumeralOfDecimal(s, rest);
    assert (d + rest)[..|d|] == d;
    assert (d + rest)[|d|..] == rest;
    assert rest[|NUMBER_TEXT|..] == IntToDecimal(n) + CLOSE_TEXT;
    NumberOnwardRoundTrip(n);
    IntToDecimalRoundTrip(s);
  }

  /** An episode whose season and number are integer numbers can be read
      back from its label: the format keeps both apart. */
  lemma EpisodeLabelRoundTrip(e: Episode)
    requires e.season.JsNumber? && e.number.JsNumber?
    ensures ParseEpisodeLabel(EpisodeLabel(e), e.name) == Some((e.season.n, e.number.n))
  {
    var s, n := IntToDecimal(e.season.n), IntToDecimal(e.number.n);
    var u := s + (NUMBER_TEXT + (n + CLOSE_TEXT));
    var t := SEASON_TEXT + u;
    assert EpisodeLabel(e) == e.name + t;
    assert (e.name + t)[..|e.name|] == e.name;
    assert (e.name + t)[|e.name|..] == t;
    assert t[|SEASON_TEXT|..] == u;
    SeasonOnwardRoundTrip(e.season.n, e.number.n);
  }

  /** Two episodes of the same name with integer season and number get the
      same label only when their season and number agree. */
  lemma EpisodeLabelDistinguishes(a: Episode, b: Episode)
    requires a.name == b.name
    requires a.season.JsNumber? && a.number.JsNumber?
    requires b.season.JsNumber? && b.number.JsNumber?
    ensures EpisodeLabel(a) == EpisodeLabel(b) <==> a.season == b.season && a.number == b.number
  {
    EpisodeLabelRoundTrip(a);
    EpisodeLabelRoundTrip(b);
  }
}
