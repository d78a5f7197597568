/** The remote catalog client of tvmaze.ts: the two request URLs, the raw
    records the catalog answers with, and their normalisation into the
    records the page displays. The HTTP transport itself is a parameter. */
module Catalog {
  import opened Wrappers
  import opened JsText

  /** Fallback picture for a show whose search hit carries no medium image. */
  const DEFAULT_IMG: string := "https://t4.ftcdn.net/jpg/03/03/62/45/240_F_303624505_u0bFT1Rnoj8CMUSs8wMCwoKlnWlh5Jiq.jpg"

  const SEARCH_URL_PREFIX: string := "https://api.tvmaze.com/search/shows?q="
  const EPISODES_URL_PREFIX: string := "http://api.tvmaze.com/shows/"
  const EPISODES_URL_SUFFIX: string := "/episodes"

  // ---------------------------------------------------------------------------
  // Records

  /** The `image` object of a raw show; either size may be absent or null. */
  datatype RawImage = RawImage(medium: Option<string>, original: Option<string>)

  /** The nested `show` object of one search hit; `image` may be absent or null. */
  datatype RawShow = RawShow(id: int, name: string, summary: string, image: Option<RawImage>)

  /** One element of the search endpoint's answer: `{score, show}`; the
      nested `show` may be absent or null. */
  datatype RawHit = RawHit(show: Option<RawShow>)

  /** One element of the episode endpoint's answer (only the fields read). */
  datatype RawEpisode = RawEpisode(id: int, name: string, season: JsValue, number: JsValue, airdate: Option<string>)

  /** `ShowInterface`. */
  datatype Show = Show(id: int, name: string, summary: string, image: string)

  /** `EpisodeInterface`; season and number are whatever JSON values the catalog sent. */
  datatype Episode = Episode(id: int, name: string, season: JsValue, number: JsValue)

  /** The two catalog endpoints, as functions from the requested URL to the
      response data; None stands for a rejected request. */
  datatype CatalogService = CatalogService(
    search: string -> Option<seq<RawHit>>,
    episodes: string -> Option<seq<RawEpisode>>)

  // ---------------------------------------------------------------------------
  // Request URLs

  /** The search request URL: the term is appended as it is, without escaping. */
  function SearchUrl(term: string): (url: string)
    ensures |url| == |SEARCH_URL_PREFIX| + |term|
    ensures url[..|SEARCH_URL_PREFIX|] == SEARCH_URL_PREFIX && url[|SEARCH_URL_PREFIX|..] == term
  {
    SEARCH_URL_PREFIX + term
  }

  /** Reads the search term back out of a search URL. */
  function TermOfSearchUrl(url: string): Option<string> {
    if |SEARCH_URL_PREFIX| <= |url| && url[..|SEARCH_URL_PREFIX|] == SEARCH_URL_PREFIX
    then Some(url[|SEARCH_URL_PREFIX|..])
    else None
  }

  /** A URL is the search URL of `term` exactly when `term` reads back from it:
      every character of the term, `&`, `#` and spaces included, lands in the
      URL unchanged. */
  lemma SearchUrlCharacterised(url: string, term: string)
    ensures TermOfSearchUrl(url) == Some(term) <==> url == SearchUrl(term)
  {
  }

  /** The episode-list request URL of a show id. */
  function EpisodesUrl(id: int): (url: string)
    ensures |url| > |EPISODES_URL_PREFIX| + |EPISODES_URL_SUFFIX|
  {
    EPISODES_URL_PREFIX + IntToDecimal(id) + EPISODES_URL_SUFFIX
  }

  /** Reads the show id back out of an episode-list URL. */
  function IdOfEpisodesUrl(url: string): Option<int> {
    var p, q := |EPISODES_URL_PREFIX|, |EPISODES_URL_SUFFIX|;
    if p + q <= |url| && url[..p] == EPISODES_URL_PREFIX && url[|url| - q..] == EPISODES_URL_SUFFIX
    then ParseInt(url[p..|url| - q])
    else None
  }

  lemma EpisodesUrlRoundTrip(id: int)
    ensures IdOfEpisodesUrl(EpisodesUrl(id)) == Some(id)
  {
    var url, d := EpisodesUrl(id), IntToDecimal(id);
    var p, q := |EPISODES_URL_PREFIX|, |EPISODES_URL_SUFFIX|;
    assert url[..p] == EPISODES_URL_PREFIX;
    assert url[|url| - q..] == EPISODES_URL_SUFFIX;
    assert url[p..|url| - q] == d;
    IntToDecimalRoundTrip(id);
  }

  /** Different shows' episodes are requested from different URLs. */
  lemma EpisodesUrlInjective(a: int, b: int)
    ensures EpisodesUrl(a) == EpisodesUrl(b) <==> a == b
  {
    EpisodesUrlRoundTrip(a);
    EpisodesUrlRoundTrip(b);
  }

  // ---------------------------------------------------------------------------
  // Normalisation

  /** `show.show?.image?.medium || DEFAULT_IMG`: the medium URL when it is
      present and not the empty (falsy) string, otherwise the fallback. The
      `original` size is never used. (The `?.` after `show.show` never
      matters: a missing nested show has already thrown when its id was read.) */
  function ImageOf(image: Option<RawImage>): (img: string)
    ensures img != ""
    ensures img == DEFAULT_IMG || (image.Some? && image.value.medium == Some(img))
    ensures image.Some? && image.value.medium.Some? && image.value.medium.value != ""
            ==> img == image.value.medium.value
  {
    match image
    case Some(RawImage(Some(m), _)) => if m != "" then m else DEFAULT_IMG
    case _ => DEFAULT_IMG
  }

  /** The picture falls back to the default exactly when the hit has no
      usable medium image (or its medium image is the default itself). */
  lemma ImageDefaulting(image: Option<RawImage>)
    ensures ImageOf(image) == DEFAULT_IMG <==>
            (image.None? || image.value.medium.None? || image.value.medium.value in {"", DEFAULT_IMG})
  {
  }

  function NormalizeShow(show: RawShow): Show {
    Show(show.id, show.name, show.summary, ImageOf(show.image))
  }

  /** The `data.map(...)` of `getShowsByTerm`. Reading `show.show.id` of a hit
      without a nested show throws, so the whole search rejects (None) when
      any hit lacks one. Otherwise: one show per hit, in order, with id, name
      and summary copied from the hit's nested show and a non-empty image. */
  function NormalizeShows(data: seq<RawHit>): (shows: Option<seq<Show>>)
    ensures shows.Some? <==> forall i :: 0 <= i < |data| ==> data[i].show.Some?
    ensures shows.Some? ==>
              |shows.value| == |data| &&
              forall i :: 0 <= i < |data| ==>
                shows.value[i].id == data[i].show.value.id &&
                shows.value[i].name == data[i].show.value.name &&
                shows.value[i].summary == data[i].show.value.summary &&
                shows.value[i].image == ImageOf(data[i].show.value.image) &&
                shows.value[i].image != ""
  {
    if forall i :: 0 <= i < |data| ==> data[i].show.Some? then
      Some(seq(|data|, i requires 0 <= i < |data| => NormalizeShow(data[i].show.value)))
    else None
  }

  function NormalizeEpisode(raw: RawEpisode): Episode {
    Episode(raw.id, raw.name, raw.season, raw.number)
  }

  /** The `data.map(...)` of `getEpisodesOfShow`: a field-for-field copy of
      id, name, season and number, in order. */
  function NormalizeEpisodes(data: seq<RawEpisode>): (episodes: seq<Episode>)
    ensures |episodes| == |data|
    ensures forall i :: 0 <= i < |data| ==>
              episodes[i].id == data[i].id &&
              episodes[i].name == data[i].name &&
              episodes[i].season == data[i].season &&
              episodes[i].number == data[i].number
  {
    seq(|data|, i requires 0 <= i < |data| => NormalizeEpisode(data[i]))
  }

  // ---------------------------------------------------------------------------
  // Requests

  /** `getShowsByTerm`: asks the search endpoint at `SearchUrl(term)` and
      normalises its answer; a rejected request, or a hit whose
      normalisation throws, propagates uncaught as None. */
  function GetShowsByTerm(term: string, catalog: CatalogService): (r: Option<seq<Show>>)
    ensures catalog.search(SearchUrl(term)).None? ==> r.None?
    ensures catalog.search(SearchUrl(term)).Some? ==> r == NormalizeShows(catalog.search(SearchUrl(term)).value)
  {
    match catalog.search(SearchUrl(term))
    case None => None
    case Some(data) => NormalizeShows(data)
  }

  /** `getEpisodesOfShow`: asks the episode endpoint at `EpisodesUrl(id)` and
      normalises its answer; a rejected request propagates uncaught. */
  function GetEpisodesOfShow(id: int, catalog: CatalogService): (r: Option<seq<Episode>>)
    ensures r.Some? <==> catalog.episodes(EpisodesUrl(id)).Some?
    ensures r.Some? ==> r.value == NormalizeEpisodes(catalog.episodes(EpisodesUrl(id)).value)
  {
    match catalog.episodes(EpisodesUrl(id))
    case None => None
    case Some(data) => Some(NormalizeEpisodes(data))
  }
}
