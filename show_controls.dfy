/** The show search box and the show dropdown built by `setup`. */
module ShowControls {
  import opened Catalog
  import opened Search
  import opened Dropdown

  /** What picking an option of the show dropdown leads to. */
  datatype ShowAction = ClearPage | LoadEpisodes(showId: int)

  class ShowPanel {
    /** The full show list `setup` was called with. */
    const shows: seq<Show>
    const select: Select
    /** The current text of the show search box. */
    var searchText: string

    /** The dropdown lists exactly the shows the current search text matches. */
    ghost predicate Valid()
      reads this, select
    {
      select.options == ShowOptions(FilterShows(shows, searchText))
    }

    /** Builds the controls and fills the dropdown with every show. */
    constructor (shows: seq<Show>)
      ensures Valid() && fresh(select)
      ensures this.shows == shows && searchText == ""
      ensures select.options == ShowOptions(shows)
    {
      this.shows := shows;
      searchText := "";
      select := new Select();
      new;
      PopulateShowSelect(select, shows);
      BlankQueryKeepsShows(shows, "");
    }

    /** An edit of the show search box refills the dropdown with the matching shows. */
    method Search(text: string)
      requires Valid()
      modifies this, select
      ensures Valid()
      ensures searchText == text
      ensures select.options == ShowOptions(FilterShows(shows, text))
    {
      searchText := text;
      PopulateShowSelect(select, FilterShows(shows, text));
    }

    /**
     * Picking option `k` of the dropdown: the default option clears the page;
     * any other option loads the episodes of a show from the full list that
     * the current search matches.
     */
    method Choose(k: nat) returns (action: ShowAction)
      requires Valid() && k < |select.options|
      ensures k == 0 ==> action == ClearPage
      ensures k > 0 ==>
        var show := FilterShows(shows, searchText)[k - 1];
        action == LoadEpisodes(show.id) && show in shows && ShowMatches(show, Normalize(searchText))
    {
      var visible := FilterShows(shows, searchText);
      ShowOptionsLayout(visible);
      FilterShowsSpec(shows, searchText);
      if k > 0 {
        assert select.options[(k - 1) + 1] == SelectOption(Choice(visible[k - 1].id), visible[k - 1].name);
      }
      match select.options[k].value
      case NoChoice =>
        action := ClearPage;
      case Choice(id) =>
        action := LoadEpisodes(id);
    }
  }
}
