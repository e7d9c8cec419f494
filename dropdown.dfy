/**
 * The two `<select>` elements: a default option with an empty value, then one
 * option per item, appended in order by a `forEach` loop.
 */
module Dropdown {
  import opened Catalog
  import opened Format

  /** An option's value: `""` for the default option, otherwise a number (a show id or an episode index). */
  datatype OptionValue = NoChoice | Choice(key: int)

  datatype SelectOption = SelectOption(value: OptionValue, text: string)

  const ShowPrompt: string := "Select a show..."
  const EpisodePrompt: string := "Select an episode..."

  /** The option for show `show`: valued by its id, labelled with its name. */
  function ShowEntry(show: Show, index: nat): SelectOption
  {
    SelectOption(Choice(show.id), show.name)
  }

  /** The option for episode number `index` of the list: valued by the index, labelled `S01E02 - name`. */
  function EpisodeEntry(episode: Episode, index: nat): SelectOption
  {
    SelectOption(Choice(index), EpisodeOptionLabel(episode.season, episode.number, episode.name))
  }

  /**
   * What a populate function leaves in a dropdown: the default option
   * labelled `prompt`, then `entry(item, index)` for each item in order.
   */
  function Options<T>(prompt: string, items: seq<T>, entry: (T, nat) -> SelectOption): (r: seq<SelectOption>)
    ensures |r| == |items| + 1 && r[0] == SelectOption(NoChoice, prompt)
  {
    if items == [] then [SelectOption(NoChoice, prompt)]
    else Options(prompt, items[..|items| - 1], entry) + [entry(items[|items| - 1], |items| - 1)]
  }

  /** Option `i + 1` is the entry of item `i`. */
  lemma {:induction false} OptionAt<T>(prompt: string, items: seq<T>, entry: (T, nat) -> SelectOption, i: nat)
    requires i < |items|
    ensures Options(prompt, items, entry)[i + 1] == entry(items[i], i)
  {
    var init, n := items[..|items| - 1], |items| - 1;
    if i < n {
      OptionAt(prompt, init, entry, i);
      assert init[i] == items[i];
    }
  }

  /** The options `populateShowSelect(shows)` leaves in the show dropdown. */
  function ShowOptions(shows: seq<Show>): seq<SelectOption>
  {
    Options(ShowPrompt, shows, ShowEntry)
  }

  /** The options `populateEpisodeSelect(episodes)` leaves in the episode dropdown. */
  function EpisodeOptions(episodes: seq<Episode>): seq<SelectOption>
  {
    Options(EpisodePrompt, episodes, EpisodeEntry)
  }

  /**
   * The show dropdown: the default option with an empty value, then option
   * `i + 1` for show `i`, valued by the show's id.
   */
  lemma ShowOptionsLayout(shows: seq<Show>)
    ensures |ShowOptions(shows)| == |shows| + 1 && ShowOptions(shows)[0].value == NoChoice
    ensures forall i :: 0 <= i < |shows| ==> ShowOptions(shows)[i + 1] == SelectOption(Choice(shows[i].id), shows[i].name)
  {
    forall i | 0 <= i < |shows| ensures ShowOptions(shows)[i + 1] == SelectOption(Choice(shows[i].id), shows[i].name) {
      OptionAt(ShowPrompt, shows, ShowEntry, i);
    }
  }

  /**
   * The episode dropdown: the default option with an empty value, then option
   * `i + 1` for episode `i`, valued by `i` and labelled with its code and name.
   */
  lemma EpisodeOptionsLayout(episodes: seq<Episode>)
    ensures |EpisodeOptions(episodes)| == |episodes| + 1 && EpisodeOptions(episodes)[0].value == NoChoice
    ensures forall i :: 0 <= i < |episodes| ==> EpisodeOptions(episodes)[i + 1] == EpisodeEntry(episodes[i], i)
  {
    forall i | 0 <= i < |episodes| ensures EpisodeOptions(episodes)[i + 1] == EpisodeEntry(episodes[i], i) {
      OptionAt(EpisodePrompt, episodes, EpisodeEntry, i);
    }
  }

  /**
   * Whatever option of the episode dropdown is picked, its value is either
   * the default or an index into the full episode list.
   */
  lemma EpisodeChoiceInRange(episodes: seq<Episode>, k: nat)
    requires k < |EpisodeOptions(episodes)|
    ensures EpisodeOptions(episodes)[k].value == (if k == 0 then NoChoice else Choice(k - 1))
    ensures EpisodeOptions(episodes)[k].value.Choice? ==> 0 <= EpisodeOptions(episodes)[k].value.key < |episodes|
  {
    if k > 0 {
      OptionAt(EpisodePrompt, episodes, EpisodeEntry, k - 1);
    }
  }

  /** A `<select>` element, seen through its list of options. */
  class Select {
    var options: seq<SelectOption>

    constructor ()
      ensures options == []
    {
      options := [];
    }

    /** `select.appendChild(option)`. */
    method Append(option: SelectOption)
      modifies this
      ensures options == old(options) + [option]
    {
      options := options + [option];
    }
  }

  /** `populateShowSelect`: clears the dropdown, adds the default option, then one option per show. */
  method PopulateShowSelect(select: Select, shows: seq<Show>)
    modifies select
    ensures select.options == ShowOptions(shows)
  {
    select.options := [];
    select.Append(SelectOption(NoChoice, ShowPrompt));
    var i := 0;
    while i < |shows|
      invariant 0 <= i <= |shows|
      invariant select.options == ShowOptions(shows[..i])
    {
      assert shows[..i + 1][..i] == shows[..i];
      select.Append(ShowEntry(shows[i], i));
      i := i + 1;
    }
    assert shows[..i] == shows;
  }

  /** `populateEpisodeSelect`: clears the dropdown, adds the default option, then one option per episode, valued by its index. */
  method PopulateEpisodeSelect(select: Select, episodes: seq<Episode>)
    modifies select
    ensures select.options == EpisodeOptions(episodes)
  {
    select.options := [];
    select.Append(SelectOption(NoChoice, EpisodePrompt));
    var idx := 0;
    while idx < |episodes|
      invariant 0 <= idx <= |episodes|
      invariant select.options == EpisodeOptions(episodes[..idx])
    {
      assert episodes[..idx + 1][..idx] == episodes[..idx];
      select.Append(EpisodeEntry(episodes[idx], idx));
      idx := idx + 1;
    }
    assert episodes[..idx] == episodes;
  }
}
