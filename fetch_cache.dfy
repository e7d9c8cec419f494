/**
 * `loadShows` and `loadEpisodesForShow`: the show list and each show's
 * episodes are fetched once and then served from the `cache` object. The
 * network is abstracted: each call is handed what its `fetch` would yield,
 * and reports which requests it actually issued.
 */
module FetchCache {
  import opened Wrappers
  import opened Catalog
  import opened ShowOrder

  /** What a `fetch` yields once `response.ok` is looked at: the parsed body, or a failed response. */
  datatype Fetch<T> = Fetched(data: T) | FetchFailed

  /** A request sent to the catalogue: the show list, or one show's episodes. */
  datatype Request = ShowsRequest | EpisodesRequest(showId: int)

  /** How a call of `loadEpisodesForShow` ends. */
  datatype Outcome =
    | Browse(shows: seq<Show>, episodes: seq<Episode>)  // `setup(shows, episodes)` runs
    | LoadError                                         // the "Error loading episodes" message is shown
    | Rejected(message: string)                         // the returned promise rejects with this message

  const NetworkError: string := "Network response was not ok"

  class Cache {
    /** `cache.shows`: `None` until the show list has been fetched once. */
    var shows: Option<seq<Show>>
    /** `cache.episodes`: episode lists by show id. */
    var episodes: map<int, seq<Episode>>

    /** A cached show list is always in name order. */
    ghost predicate Valid()
      reads this
    {
      shows.Some? ==> SortedByName(shows.value)
    }

    constructor ()
      ensures Valid()
      ensures shows == None && episodes == map[]
    {
      shows := None;
      episodes := map[];
    }

    /**
     * `loadShows`: a cached list is returned without a request; otherwise the
     * list is fetched, and only a successful response is sorted, cached and
     * returned. A failed response throws and leaves the cache as it was.
     */
    method LoadShows(response: Fetch<seq<Show>>) returns (result: Result<seq<Show>>, requests: seq<Request>)
      requires Valid()
      modifies this
      ensures Valid()
      ensures episodes == old(episodes)
      ensures old(shows).Some? ==> requests == [] && shows == old(shows) && result == Ok(old(shows).value)
      ensures old(shows).None? ==> requests == [ShowsRequest]
      ensures old(shows).None? && response.FetchFailed? ==> shows == None && result == Err(NetworkError)
      ensures old(shows).None? && response.Fetched? ==>
        shows == Some(SortByName(response.data)) && result == Ok(SortByName(response.data))
    {
      if shows.Some? {
        return Ok(shows.value), [];
      }
      requests := [ShowsRequest];
      match response
      case FetchFailed =>
        result := Err(NetworkError);
      case Fetched(data) =>
        var sorted := SortByName(data);
        SortByNameSpec(data);
        shows := Some(sorted);
        result := Ok(sorted);
    }

    /**
     * `loadEpisodesForShow`. A cached entry is used without requesting the
     * episodes again. Otherwise the episodes are requested; a failure shows
     * the error message and writes nothing, and a success is cached under
     * the show id before the show list is loaded. Entries already cached are
     * never changed.
     */
    method LoadEpisodesForShow(showId: int, episodesResponse: Fetch<seq<Episode>>, showsResponse: Fetch<seq<Show>>)
      returns (outcome: Outcome, requests: seq<Request>)
      requires Valid()
      modifies this
      ensures Valid()
      ensures forall id :: id in old(episodes) ==> id in episodes && episodes[id] == old(episodes)[id]
      ensures outcome.Browse? ==> shows == Some(outcome.shows)
      // a failure of either fetch leaves the show list as it was
      ensures !outcome.Browse? ==> shows == old(shows)
      // a hit: the stored list, and no episode request
      ensures showId in old(episodes) ==>
        && EpisodesRequest(showId) !in requests
        && episodes == old(episodes)
        && requests == (if old(shows).Some? then [] else [ShowsRequest])
        && (outcome.Browse? ==> outcome.episodes == old(episodes)[showId])
        && (old(shows).Some? ==> outcome == Browse(old(shows).value, old(episodes)[showId]))
        && (old(shows).None? && showsResponse.FetchFailed? ==> outcome == Rejected(NetworkError))
        && (old(shows).None? && showsResponse.Fetched? ==>
              outcome == Browse(SortByName(showsResponse.data), old(episodes)[showId]))
      // a miss: the episodes are requested first
      ensures showId !in old(episodes) ==> |requests| >= 1 && requests[0] == EpisodesRequest(showId)
      ensures showId !in old(episodes) && episodesResponse.FetchFailed? ==>
        && requests == [EpisodesRequest(showId)]
        && episodes == old(episodes) && shows == old(shows)
        && outcome == LoadError
      ensures showId !in old(episodes) && episodesResponse.Fetched? ==>
        && requests == [EpisodesRequest(showId)] + (if old(shows).Some? then [] else [ShowsRequest])
        && episodes == old(episodes)[showId := episodesResponse.data]
        && (outcome.Browse? ==> outcome.episodes == episodesResponse.data)
        && (old(shows).Some? ==> outcome == Browse(old(shows).value, episodesResponse.data))
        && (old(shows).None? && showsResponse.FetchFailed? ==> outcome == LoadError)
        && (old(shows).None? && showsResponse.Fetched? ==>
              outcome == Browse(SortByName(showsResponse.data), episodesResponse.data))
    {
      if showId in episodes {
        var loaded;
        loaded, requests := LoadShows(showsResponse);
        match loaded {
          case Ok(list) =>
            outcome := Browse(list, episodes[showId]);
          case Err(message) =>
            outcome := Rejected(message);
        }
        return;
      }
      requests := [EpisodesRequest(showId)];
      match episodesResponse
      case FetchFailed =>
        outcome := LoadError;
      case Fetched(data) =>
        episodes := episodes[showId := data];
        var loaded, more := LoadShows(showsResponse);
        requests := requests + more;
        match loaded
        case Ok(list) =>
          outcome := Browse(list, data);
        case Err(_) =>
          outcome := LoadError;
    }
  }

  /**
   * Loading the same show twice: once the first call has cached the
   * episodes, the second issues no request at all and shows the very same
   * lists, whatever its own fetch would have returned.
   */
  method LoadTwice(showId: int, first: Fetch<seq<Episode>>, second: Fetch<seq<Episode>>, showsResponse: Fetch<seq<Show>>)
    returns (firstOutcome: Outcome, secondOutcome: Outcome, secondRequests: seq<Request>)
    ensures first.Fetched? && showsResponse.Fetched? ==>
      && firstOutcome == Browse(SortByName(showsResponse.data), first.data)
      && secondOutcome == firstOutcome
      && secondRequests == []
  {
    var cache := new Cache();
    var firstRequests;
    firstOutcome, firstRequests := cache.LoadEpisodesForShow(showId, first, showsResponse);
    secondOutcome, secondRequests := cache.LoadEpisodesForShow(showId, second, showsResponse);
  }

  /**
   * A failed load is not remembered: the next load of the same show
   * requests its episodes again and, if that succeeds, shows them.
   */
  method RetryAfterFailure(showId: int, retry: Fetch<seq<Episode>>, showsResponse: Fetch<seq<Show>>)
    returns (firstOutcome: Outcome, secondOutcome: Outcome, secondRequests: seq<Request>)
    ensures firstOutcome == LoadError
    ensures |secondRequests| >= 1 && secondRequests[0] == EpisodesRequest(showId)
    ensures retry.Fetched? && showsResponse.Fetched? ==>
      secondOutcome == Browse(SortByName(showsResponse.data), retry.data)
  {
    var cache := new Cache();
    var firstRequests;
    firstOutcome, firstRequests := cache.LoadEpisodesForShow(showId, FetchFailed, showsResponse);
    secondOutcome, secondRequests := cache.LoadEpisodesForShow(showId, retry, showsResponse);
  }
}
