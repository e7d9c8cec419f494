/**
 * `setup(shows, episodes)`: builds a fresh set of controls. The show controls
 * are always built; the episode controls only when an episode list is given
 * and is not empty. Every call starts from an empty search and no choice, so
 * moving to another show resets the episode search and selection together.
 */
module Controls {
  import opened Wrappers
  import opened Catalog
  import opened Dropdown
  import opened ShowControls
  import opened EpisodeControls

  method Setup(shows: seq<Show>, episodes: Option<seq<Episode>>) returns (panel: ShowPanel, view: EpisodeView?)
    ensures fresh(panel) && fresh(panel.select) && panel.Valid()
    ensures panel.shows == shows && panel.searchText == "" && panel.select.options == ShowOptions(shows)
    ensures view == null <==> episodes.None? || episodes.value == []
    ensures view != null ==>
      && fresh(view) && fresh(view.select) && view.Valid()
      && view.episodes == episodes.value
      && view.searchText == "" && view.selected == NoChoice && view.displayed == episodes.value
  {
    panel := new ShowPanel(shows);
    if episodes.Some? && |episodes.value| > 0 {
      view := new EpisodeView(episodes.value);
    } else {
      view := null;
    }
  }
}
