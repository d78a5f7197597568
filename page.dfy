/** The page state of tvmaze.ts and its three flows: showing a search's
    results, expanding a show's episodes, and the search submission that
    ties them together. The two DOM regions are modelled abstractly: the
    shows list as its items, the episode area as its list texts and
    whether it is shown. */
module TvMaze {
  import opened Wrappers
  import opened Catalog
  import opened Rendering

  class Page {
    /** `#showsList`: the rendered show items, in order. */
    var showsList: seq<ShowItem>
    /** `#episodesList`: the texts of its list items, in order. */
    var episodesList: seq<string>
    /** Whether `#episodesArea` is displayed. */
    var episodesVisible: bool

    /** Every show item's "Episodes" button is bound to that item's own show. */
    ghost predicate Valid()
      reads this
    {
      forall k :: 0 <= k < |showsList| ==> showsList[k].boundId == showsList[k].show.id
    }

    /** The page as loaded: both lists empty, the episode area hidden. */
    constructor ()
      ensures Valid()
      ensures showsList == [] && episodesList == [] && !episodesVisible
    {
      showsList, episodesList, episodesVisible := [], [], false;
    }

    /** `populateShows`: empties the shows list, then appends one item per
        show in order. Whatever the list held before is gone; the episode
        area is not touched. */
    method PopulateShows(shows: seq<Show>)
      requires Valid()
      modifies this
      ensures Valid()
      ensures showsList == RenderShows(shows)
      ensures episodesList == old(episodesList) && episodesVisible == old(episodesVisible)
    {
      showsList := [];
      for i := 0 to |shows|
        invariant showsList == RenderShows(shows[..i])
        invariant episodesList == old(episodesList) && episodesVisible == old(episodesVisible)
      {
        assert shows[..i + 1] == shows[..i] + [shows[i]];
        RenderShowsAppend(shows[..i], shows[i]);
        showsList := showsList + [RenderShow(shows[i])];
      }
      assert shows[..|shows|] == shows;
    }

    /** `populateEpisodes`: appends one item per episode to the episode list,
        without clearing it first, and then shows the episode area. */
    method PopulateEpisodes(episodes: seq<Episode>)
      requires Valid()
      modifies this
      ensures Valid()
      ensures episodesList == old(episodesList) + EpisodeLabels(episodes)
      ensures episodesVisible
      ensures showsList == old(showsList)
    {
      for i := 0 to |episodes|
        invariant episodesList == old(episodesList) + EpisodeLabels(episodes[..i])
        invariant showsList == old(showsList) && episodesVisible == old(episodesVisible)
      {
        assert episodes[..i + 1] == episodes[..i] + [episodes[i]];
        EpisodeLabelsAppend(episodes[..i], episodes[i]);
        episodesList := episodesList + [EpisodeLabel(episodes[i])];
      }
      assert episodes[..|episodes|] == episodes;
      episodesVisible := true;
    }

    /** `displayEpisodesOfShow`: fetches the show's episodes and, once the
        request resolves, appends them. A rejected request leaves the page as
        it was; `resolved` says which happened. */
    method DisplayEpisodesOfShow(showId: int, catalog: CatalogService) returns (resolved: bool)
      requires Valid()
      modifies this
      ensures Valid()
      ensures resolved <==> catalog.episodes(EpisodesUrl(showId)).Some?
      ensures resolved ==>
                episodesList == old(episodesList) + EpisodeLabels(GetEpisodesOfShow(showId, catalog).value) &&
                episodesVisible && showsList == old(showsList)
      ensures !resolved ==>
                showsList == old(showsList) && episodesList == old(episodesList) &&
                episodesVisible == old(episodesVisible)
    {
      var episodes := GetEpisodesOfShow(showId, catalog);
      resolved := episodes.Some?;
      if resolved {
        PopulateEpisodes(episodes.value);
      }
    }

    /** A click on the "Episodes" button of the `k`-th show item: the handler
        bound at render time asks for that show's own episodes. */
    method ClickEpisodes(k: nat, catalog: CatalogService) returns (resolved: bool)
      requires Valid()
      requires k < |showsList|
      modifies this
      ensures Valid()
      ensures resolved <==> catalog.episodes(EpisodesUrl(old(showsList)[k].show.id)).Some?
      ensures resolved ==>
                episodesList == old(episodesList) + EpisodeLabels(GetEpisodesOfShow(old(showsList)[k].show.id, catalog).value) &&
                episodesVisible && showsList == old(showsList)
      ensures !resolved ==>
                showsList == old(showsList) && episodesList == old(episodesList) &&
                episodesVisible == old(episodesVisible)
    {
      resolved := DisplayEpisodesOfShow(showsList[k].boundId, catalog);
    }

    /** `searchForShowAndDisplay` with the search box's text `term`, taken as
        it is: once the search resolves, the episode area is hidden (its list
        is kept) and the shows list is redrawn from the results. A search that
        rejects, whether the request fails or a hit has no nested show, stops
        before the area is hidden and leaves the page as it was. */
    method SearchForShowAndDisplay(term: string, catalog: CatalogService) returns (resolved: bool)
      requires Valid()
      modifies this
      ensures Valid()
      ensures resolved <==> GetShowsByTerm(term, catalog).Some?
      ensures resolved ==>
                !episodesVisible && episodesList == old(episodesList) &&
                showsList == RenderShows(GetShowsByTerm(term, catalog).value)
      ensures !resolved ==>
                showsList == old(showsList) && episodesList == old(episodesList) &&
                episodesVisible == old(episodesVisible)
    {
      var shows := GetShowsByTerm(term, catalog);
      resolved := shows.Some?;
      if resolved {
        episodesVisible := false;
        PopulateShows(shows.value);
      }
    }
  }

  /** Drawing the same shows twice leaves exactly one drawing of them. */
  method PopulateShowsTwice(page: Page, shows: seq<Show>)
    requires page.Valid()
    modifies page
    ensures page.showsList == RenderShows(shows) && |page.showsList| == |shows|
    ensures page.episodesList == old(page.episodesList) && page.episodesVisible == old(page.episodesVisible)
  {
    page.PopulateShows(shows);
    ghost var once := page.showsList;
    page.PopulateShows(shows);
    assert page.showsList == once;
  }

  /** Expanding a show, searching again and expanding another show: the
      search only hides the first show's episodes, and the second expansion
      appends to them instead of replacing them. */
  method ExpandSearchExpand(page: Page, first: int, term: string, second: int, catalog: CatalogService)
    requires catalog.episodes(EpisodesUrl(first)).Some? && catalog.episodes(EpisodesUrl(second)).Some?
    requires GetShowsByTerm(term, catalog).Some?
    requires page.Valid()
    modifies page
    ensures page.episodesVisible
    ensures page.episodesList == old(page.episodesList)
                                 + EpisodeLabels(GetEpisodesOfShow(first, catalog).value)
                                 + EpisodeLabels(GetEpisodesOfShow(second, catalog).value)
    ensures page.showsList == RenderShows(GetShowsByTerm(term, catalog).value)
  {
    var ok := page.DisplayEpisodesOfShow(first, catalog);
    ok := page.SearchForShowAndDisplay(term, catalog);
    assert !page.episodesVisible;
    ok := page.DisplayEpisodesOfShow(second, catalog);
  }
}
