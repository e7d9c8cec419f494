/**
 * The episode search box, the episode dropdown and the match count that
 * `setup` builds when a show's episodes are known: a small state machine
 * driven by two events.
 */
module EpisodeControls {
  import opened Wrappers
  import opened Catalog
  import opened Search
  import opened Format
  import opened Dropdown

  class EpisodeView {
    /** The full episode list of the show; the dropdown is filled from it once. */
    const episodes: seq<Episode>
    const select: Select
    /** The current text of the episode search box. */
    var searchText: string
    /** The current value of the episode dropdown. */
    var selected: OptionValue
    /** The episodes on the page. */
    var displayed: seq<Episode>
    /** The text of the match count. */
    var countText: string

    /**
     * The states the two events can reach: the dropdown always lists the full
     * list; the page shows part of the full list, and the count says how much;
     * a picked episode is shown alone with the search box empty; with no
     * episode picked, the page shows the result of the current search.
     */
    ghost predicate Valid()
      reads this, select
    {
      && select.options == EpisodeOptions(episodes)
      && IsSubsequence(displayed, episodes)
      && countText == CountLabel(|displayed|, |episodes|)
      && (selected.Choice? ==>
            0 <= selected.key < |episodes| && displayed == [episodes[selected.key]] && searchText == "")
      && (selected.NoChoice? ==>
            displayed == FilterEpisodes(episodes, searchText))
    }

    /** Builds the controls, fills the dropdown and shows every episode. */
    constructor (episodes: seq<Episode>)
      ensures Valid() && fresh(select)
      ensures this.episodes == episodes
      ensures searchText == "" && selected == NoChoice && displayed == episodes
    {
      this.episodes := episodes;
      select := new Select();
      searchText := "";
      selected := NoChoice;
      new;
      PopulateEpisodeSelect(select, episodes);
      UpdateDisplay(episodes);
      SubsequenceReflexive(episodes);
      BlankQueryKeepsEpisodes(episodes, "");
    }

    /** `updateEpisodeDisplay`: puts `list` on the page and recounts against the full list. */
    method UpdateDisplay(list: seq<Episode>)
      modifies this
      ensures displayed == list && countText == CountLabel(|list|, |episodes|)
      ensures searchText == old(searchText) && selected == old(selected)
    {
      displayed := list;
      countText := CountLabel(|list|, |episodes|);
    }

    /**
     * An edit of the search box: the page shows the episodes matching the new
     * text and the dropdown goes back to its default option.
     */
    method Search(text: string)
      requires Valid()
      modifies this
      ensures Valid()
      ensures searchText == text && selected == NoChoice
      ensures displayed == FilterEpisodes(episodes, text)
    {
      searchText := text;
      var filtered := FilterEpisodes(episodes, text);
      FilterEpisodesSpec(episodes, text);
      UpdateDisplay(filtered);
      selected := NoChoice;
    }

    /**
     * Picking option `k` of the dropdown, which the page reports only when it
     * differs from the option already selected. The default option shows the
     * full list again; it can only be picked away from an episode, so the
     * search box is already empty. Option `k > 0` shows episode `k - 1` on its
     * own and empties the search box.
     */
    method Choose(k: nat)
      requires Valid() && k < |select.options|
      requires select.options[k].value != selected
      modifies this
      ensures Valid()
      ensures selected == select.options[k].value
      ensures k == 0 ==> selected == NoChoice && displayed == episodes && searchText == old(searchText) == ""
      ensures k > 0 ==> selected == Choice(k - 1) && displayed == [episodes[k - 1]] && searchText == ""
    {
      EpisodeChoiceInRange(episodes, k);
      selected := select.options[k].value;
      match selected
      case NoChoice =>
        UpdateDisplay(episodes);
        SubsequenceReflexive(episodes);
        BlankQueryKeepsEpisodes(episodes, searchText);
      case Choice(index) =>
        UpdateDisplay([episodes[index]]);
        SingletonSubsequence(episodes, index);
        searchText := "";
    }
  }

  /**
   * Whatever the events so far, the page never shows more episodes than the
   * show has, and the count reads `Displaying k/n episodes.` with `k` the
   * number shown and `n` the full count.
   */
  lemma ShownWithinTotal(view: EpisodeView)
    requires view.Valid()
    ensures |view.displayed| <= |view.episodes|
    ensures DecodeCountLabel(view.countText) == Some((|view.displayed|, |view.episodes|))
  {
    SubsequenceLength(view.displayed, view.episodes);
    CountLabelRoundTrip(|view.displayed|, |view.episodes|);
  }

  /**
   * A search followed by picking episode `k - 1` from the dropdown: the page
   * shows that episode alone, the search box is empty, and the count reads
   * one out of the full list.
   */
  method SearchThenPick(episodes: seq<Episode>, text: string, k: nat)
    returns (displayed: seq<Episode>, searchText: string, countText: string)
    requires 0 < k <= |episodes|
    ensures displayed == [episodes[k - 1]] && searchText == ""
    ensures countText == CountLabel(1, |episodes|)
  {
    var view := new EpisodeView(episodes);
    view.Search(text);
    EpisodeChoiceInRange(episodes, k);
    view.Choose(k);
    displayed, searchText, countText := view.displayed, view.searchText, view.countText;
  }

  /**
   * A search, a pick of episode `k - 1`, then the default option again: the
   * page shows the full list, the search box stays empty, and the count reads
   * the full list out of itself.
   */
  method SearchPickThenDefault(episodes: seq<Episode>, text: string, k: nat)
    returns (displayed: seq<Episode>, searchText: string, countText: string)
    requires 0 < k <= |episodes|
    ensures displayed == episodes && searchText == ""
    ensures countText == CountLabel(|episodes|, |episodes|)
  {
    var view := new EpisodeView(episodes);
    view.Search(text);
    EpisodeChoiceInRange(episodes, k);
    view.Choose(k);
    EpisodeChoiceInRange(episodes, 0);
    view.Choose(0);
    displayed, searchText, countText := view.displayed, view.searchText, view.countText;
  }

  /**
   * Picking one episode and then another: the page shows only the second,
   * with one out of the full list counted.
   */
  method PickThenPickAnother(episodes: seq<Episode>, j: nat, k: nat)
    returns (displayed: seq<Episode>, countText: string)
    requires 0 < j <= |episodes| && 0 < k <= |episodes| && j != k
    ensures displayed == [episodes[k - 1]]
    ensures countText == CountLabel(1, |episodes|)
  {
    var view := new EpisodeView(episodes);
    EpisodeChoiceInRange(episodes, j);
    view.Choose(j);
    EpisodeChoiceInRange(episodes, k);
    view.Choose(k);
    displayed, countText := view.displayed, view.countText;
  }
}
