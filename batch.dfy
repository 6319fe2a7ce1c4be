/**
 * Batch assembly in the backend (main.py): the watch URLs extracted from the
 * video platform's responses by the `fetch_*_videos` helpers and by
 * `start_download`, and the sequential naming of the download tasks.
 *
 * A response is abstracted to the identifiers the comprehensions read; the data
 * API call itself is replaced by its outcome: a response, an `HttpError` with a
 * status code, or some other exception.
 */
module Batch {
  import opened Wrappers
  import Text

  const WatchUrlPrefix := "https://www.youtube.com/watch?v="

  /** `f"https://www.youtube.com/watch?v={...}"`. */
  function WatchUrl(videoId: string): string
  {
    WatchUrlPrefix + videoId
  }

  /** A search result; `item['id']['videoId']`. */
  datatype SearchItem = SearchItem(videoId: string)
  /** A Watch Later playlist entry; `item['contentDetails']['videoId']`. */
  datatype PlaylistItem = PlaylistItem(videoId: string)
  /** A home activity; `item['contentDetails']['upload']['videoId']` when there is an `upload` entry. */
  datatype ActivityItem = ActivityItem(upload: Option<string>)

  /** A response dictionary: its `items` key may be absent. */
  datatype Response<T> = Response(items: Option<seq<T>>)

  /** What `.execute()` does: answer, raise `HttpError`, or raise something else. */
  datatype Lookup<T> = Answered(response: Response<T>) | HttpFailure(status: int) | OtherFailure(message: string)

  /** An exception that escapes a lookup. */
  datatype LookupError = HttpStatus(status: int) | Raised(message: string)

  /** `response.get('items', [])`. */
  function Items<T>(r: Response<T>): seq<T>
  {
    if r.items.Some? then r.items.value else []
  }

  /**
   * The comprehension of main.py:326-329. It differs from `PlaylistUrls` only in
   * the JSON path of the id (`id.videoId` against `contentDetails.videoId`), which
   * the two item types already abstract away.
   */
  function SearchUrls(items: seq<SearchItem>): (urls: seq<string>)
    ensures |urls| == |items|
    ensures forall i :: 0 <= i < |items| ==> urls[i] == WatchUrl(items[i].videoId)
  {
    if items == [] then [] else [WatchUrl(items[0].videoId)] + SearchUrls(items[1..])
  }

  /** The comprehension of main.py:341-344. */
  function PlaylistUrls(items: seq<PlaylistItem>): (urls: seq<string>)
    ensures |urls| == |items|
    ensures forall i :: 0 <= i < |items| ==> urls[i] == WatchUrl(items[i].videoId)
  {
    if items == [] then [] else [WatchUrl(items[0].videoId)] + PlaylistUrls(items[1..])
  }

  /** The comprehension of main.py:361-365 (and 589-593): activities without an upload are skipped. */
  function UploadUrls(items: seq<ActivityItem>): (urls: seq<string>)
    ensures |urls| <= |items|
    ensures forall i :: 0 <= i < |items| && items[i].upload.Some? ==> WatchUrl(items[i].upload.value) in urls
    ensures forall u :: u in urls ==> exists i :: 0 <= i < |items| && items[i].upload.Some? && u == WatchUrl(items[i].upload.value)
  {
    if items == [] then []
    else
      var rest := UploadUrls(items[1..]);
      assert forall i :: 1 <= i < |items| ==> items[i] == items[1..][i - 1];
      if items[0].upload.Some? then [WatchUrl(items[0].upload.value)] + rest else rest
  }

  /** The video id can be read back from its watch URL. */
  lemma WatchUrlInjective(a: string, b: string)
    requires WatchUrl(a) == WatchUrl(b)
    ensures a == b
  {
    assert a == WatchUrl(a)[|WatchUrlPrefix|..];
    assert b == WatchUrl(b)[|WatchUrlPrefix|..];
  }

  /** The activity comprehension keeps the order of the activities. */
  lemma {:induction false} UploadUrlsAppend(a: seq<ActivityItem>, b: seq<ActivityItem>)
    ensures UploadUrls(a + b) == UploadUrls(a) + UploadUrls(b)
  {
    if a != [] {
      assert (a + b)[0] == a[0];
      assert (a + b)[1..] == a[1..] + b;
      UploadUrlsAppend(a[1..], b);
    } else {
      assert a + b == b;
    }
  }

  /** An exception that is not caught leaves the helper. */
  function Propagated<T>(r: Lookup<T>): (e: LookupError)
    requires !r.Answered?
  {
    if r.HttpFailure? then HttpStatus(r.status) else Raised(r.message)
  }

  /** `fetch_search_videos` (main.py:315-329). */
  function FetchSearchVideos(r: Lookup<SearchItem>): Result<seq<string>, LookupError>
  {
    if r.Answered? then Ok(SearchUrls(Items(r.response))) else Err(Propagated(r))
  }

  /** `fetch_watch_later_videos` (main.py:331-349): a 404 gives an empty list, anything else is re-raised. */
  function FetchWatchLaterVideos(r: Lookup<PlaylistItem>): Result<seq<string>, LookupError>
  {
    if r.Answered? then Ok(PlaylistUrls(Items(r.response)))
    else if r == HttpFailure(404) then Ok([])
    else Err(Propagated(r))
  }

  /** `fetch_unwatched_videos` (main.py:351-364). */
  function FetchUnwatchedVideos(r: Lookup<ActivityItem>): Result<seq<string>, LookupError>
  {
    if r.Answered? then Ok(UploadUrls(Items(r.response))) else Err(Propagated(r))
  }

  /** The Watch Later lookup as `start_download` inlines it (main.py:566-578): no 404 rule. */
  function InlineWatchLater(r: Lookup<PlaylistItem>): Result<seq<string>, LookupError>
  {
    if r.Answered? then Ok(PlaylistUrls(Items(r.response))) else Err(Propagated(r))
  }

  /** The 404 rule: an empty result, not an error. */
  lemma WatchLaterNotFoundIsEmpty()
    ensures FetchWatchLaterVideos(HttpFailure(404)) == Ok([])
  {
  }

  /** Every other failure of the Watch Later lookup is re-raised. */
  lemma WatchLaterOtherErrorsRaised(r: Lookup<PlaylistItem>)
    requires !r.Answered? && r != HttpFailure(404)
    ensures FetchWatchLaterVideos(r) == Err(Propagated(r))
  {
  }

  /** The inline copy in `start_download` agrees with the helper except on a 404, which it raises. */
  lemma InlineWatchLaterDiffersOnlyOn404(r: Lookup<PlaylistItem>)
    ensures r != HttpFailure(404) ==> InlineWatchLater(r) == FetchWatchLaterVideos(r)
    ensures r == HttpFailure(404) ==> InlineWatchLater(r) == Err(HttpStatus(404)) && FetchWatchLaterVideos(r) == Ok([])
  {
  }

  /** A response without `items` gives no URLs. */
  lemma MissingItemsGiveNoUrls(s: Response<SearchItem>, p: Response<PlaylistItem>, a: Response<ActivityItem>)
    requires s.items.None? && p.items.None? && a.items.None?
    ensures FetchSearchVideos(Answered(s)) == Ok([])
    ensures FetchWatchLaterVideos(Answered(p)) == Ok([])
    ensures FetchUnwatchedVideos(Answered(a)) == Ok([])
  {
  }

  // ---------------------------------------------------------------------
  // start_download

  /** The request body (main.py:113-120). */
  datatype DownloadRequest = DownloadRequest(
    query: Option<string>,
    category: Option<string>,
    numVideos: int,
    folder: string,
    useRecommended: bool,
    useWatchLater: bool,
    useUnwatched: bool)

  /** Python truthiness of an optional string: `None` and "" are false. */
  predicate Truthy(s: Option<string>)
  {
    s.Some? && s.value != ""
  }

  /** One source's contribution: nothing when the request does not ask for it. */
  function Part(asked: bool, r: Result<seq<string>, LookupError>): Result<seq<string>, LookupError>
  {
    if asked then r else Ok([])
  }

  /**
   * The URL list of `start_download` (main.py:548-593): search results, then
   * Watch Later, then home uploads; the first lookup that raises aborts the request.
   */
  function CollectVideoUrls(req: DownloadRequest, search: Lookup<SearchItem>, playlist: Lookup<PlaylistItem>, activities: Lookup<ActivityItem>): Result<seq<string>, LookupError>
  {
    match Part(Truthy(req.query), FetchSearchVideos(search))
    case Err(e) => Err(e)
    case Ok(a) =>
      match Part(req.useWatchLater, InlineWatchLater(playlist))
      case Err(e) => Err(e)
      case Ok(b) =>
        match Part(req.useUnwatched, FetchUnwatchedVideos(activities))
        case Err(e) => Err(e)
        case Ok(c) => Ok(a + b + c)
  }

  /** The list is the asked-for sources concatenated in the fixed order search, Watch Later, uploads. */
  lemma CollectOrder(req: DownloadRequest, s: Response<SearchItem>, p: Response<PlaylistItem>, a: Response<ActivityItem>)
    ensures CollectVideoUrls(req, Answered(s), Answered(p), Answered(a))
            == Ok((if Truthy(req.query) then SearchUrls(Items(s)) else [])
                + (if req.useWatchLater then PlaylistUrls(Items(p)) else [])
                + (if req.useUnwatched then UploadUrls(Items(a)) else []))
  {
  }

  /** The request fails exactly when a lookup it asks for raises, and then with the first such error. */
  lemma CollectFailsOnFirstError(req: DownloadRequest, search: Lookup<SearchItem>, playlist: Lookup<PlaylistItem>, activities: Lookup<ActivityItem>)
    ensures var r := CollectVideoUrls(req, search, playlist, activities);
      && (r.Err? <==> (Truthy(req.query) && !search.Answered?)
                      || (req.useWatchLater && !playlist.Answered?)
                      || (req.useUnwatched && !activities.Answered?))
      && (Truthy(req.query) && !search.Answered? ==> r == Err(Propagated(search)))
      && ((!(Truthy(req.query) && !search.Answered?) && req.useWatchLater && !playlist.Answered?)
          ==> r == Err(Propagated(playlist)))
      && ((!(Truthy(req.query) && !search.Answered?) && !(req.useWatchLater && !playlist.Answered?)
           && req.useUnwatched && !activities.Answered?)
          ==> r == Err(Propagated(activities)))
  {
  }

  /** A 404 on Watch Later fails the whole request, although the helper would give []. */
  lemma WatchLater404FailsStartDownload(req: DownloadRequest, search: Lookup<SearchItem>, activities: Lookup<ActivityItem>)
    requires req.useWatchLater && !Truthy(req.query)
    ensures CollectVideoUrls(req, search, HttpFailure(404), activities) == Err(HttpStatus(404))
  {
  }

  /** `useRecommended` is accepted but never read. */
  lemma UseRecommendedIgnored(req: DownloadRequest, search: Lookup<SearchItem>, playlist: Lookup<PlaylistItem>, activities: Lookup<ActivityItem>)
    ensures CollectVideoUrls(req.(useRecommended := true), search, playlist, activities)
            == CollectVideoUrls(req.(useRecommended := false), search, playlist, activities)
  {
  }

  /** A request that names no source downloads nothing. */
  lemma NoSourceNoUrls(req: DownloadRequest, search: Lookup<SearchItem>, playlist: Lookup<PlaylistItem>, activities: Lookup<ActivityItem>)
    requires !Truthy(req.query) && !req.useWatchLater && !req.useUnwatched
    ensures CollectVideoUrls(req, search, playlist, activities) == Ok([])
  {
    var none: seq<string> := [];
    assert none + none + none == none;
  }

  /** One `download_video(url, folder, video_id, client_id)` task. */
  datatype Task = Task(url: string, folder: string, videoId: string, clientId: string)

  /** `f"video_{i+1}"`. */
  function VideoId(n: nat): string
  {
    "video_" + Text.NatToString(n)
  }

  /** Task names are distinct. */
  lemma VideoIdInjective(a: nat, b: nat)
    requires VideoId(a) == VideoId(b)
    ensures a == b
  {
    assert Text.NatToString(a) == VideoId(a)[6..];
    assert Text.NatToString(b) == VideoId(b)[6..];
    Text.NatToStringInjective(a, b);
  }

  /** The task loop of `start_download` (main.py:596-602). */
  method LaunchTasks(urls: seq<string>, folder: string, clientId: string) returns (tasks: seq<Task>)
    ensures |tasks| == |urls|
    ensures forall i :: 0 <= i < |urls| ==> tasks[i] == Task(urls[i], folder, VideoId(i + 1), clientId)
    ensures forall i, j :: 0 <= i < j < |tasks| ==> tasks[i].videoId != tasks[j].videoId
  {
    tasks := [];
    for i := 0 to |urls|
      invariant |tasks| == i
      invariant forall k :: 0 <= k < i ==> tasks[k] == Task(urls[k], folder, VideoId(k + 1), clientId)
    {
      var videoId := "video_" + Text.NatToString(i + 1);
      tasks := tasks + [Task(urls[i], folder, videoId, clientId)];
    }
    forall i, j | 0 <= i < j < |tasks|
      ensures tasks[i].videoId != tasks[j].videoId
    {
      if tasks[i].videoId == tasks[j].videoId {
        VideoIdInjective(i + 1, j + 1);
      }
    }
  }
}
