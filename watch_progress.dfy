/** src/hooks/useWatchProgress.ts: the per-learner map from video id to watch
    progress, cached in localStorage under a key named after the learner. */
module WatchProgressHook {
  import opened Common
  import opened Text
  import opened Json
  import opened Types
  import opened Browser
  import ProgressTracker

  /** `getCurrentUser()`: the parsed stored user, `null` when absent or unparsable. */
  function CurrentUser(items: map<string, Item>): Json
  {
    ParsedOrNull(items, CurrentUserKey)
  }

  /** The cache key: `video-progress-${currentUser.employeeId}` for a (truthy)
      current user, `video-progress` otherwise. */
  function StorageKey(currentUser: Json): (k: string)
    ensures StartsWith(k, "video-progress")
    ensures Truthy(Some(currentUser)) ==> k == "video-progress-" + Show(Prop(Some(currentUser), "employeeId"))
    ensures !Truthy(Some(currentUser)) ==> k == "video-progress"
  {
    if Truthy(Some(currentUser)) then "video-progress-" + Show(Prop(Some(currentUser), "employeeId"))
    else "video-progress"
  }

  /** Learners with different employee ids never share a cache entry, and no
      signed-in learner shares the anonymous one. */
  lemma StorageKeysSeparateLearners(u1: Json, u2: Json, e1: string, e2: string)
    requires u1.JObj? && u2.JObj?
    requires Prop(Some(u1), "employeeId") == Some(JStr(e1)) && Prop(Some(u2), "employeeId") == Some(JStr(e2))
    ensures e1 != e2 ==> StorageKey(u1) != StorageKey(u2)
    ensures StorageKey(u1) != StorageKey(JNull)
  {
    var p := "video-progress-";
    assert StorageKey(u1) == p + e1 && StorageKey(u2) == p + e2;
    assert (p + e1)[|p|..] == e1 && (p + e2)[|p|..] == e2;
    assert |StorageKey(u1)| > |StorageKey(JNull)|;
  }

  /** The cache key never collides with the keys the progress tracker writes. */
  lemma StorageKeyIsNotTrackerKey(u: Json, videoId: string)
    ensures StorageKey(u) != ProgressTracker.LocalKey(videoId)
    ensures StorageKey(u) != ProgressTracker.LearningHubIdKey
    ensures StorageKey(u) != CurrentUserKey
  {
    assert StorageKey(u)[0] == 'v';
    assert ProgressTracker.LocalKey(videoId)[0] == 'p';
  }

  /** Watched at least 90 % of the video. */
  predicate Completed(watchedSeconds: real, totalDuration: real)
  {
    watchedSeconds >= totalDuration * 0.9
  }

  /** `Math.min(watched / total * 100, 100)` */
  function RawPercentage(watchedSeconds: real, totalDuration: real): (r: real)
    requires totalDuration > 0.0
    ensures r <= 100.0
    ensures watchedSeconds >= 0.0 ==> r >= 0.0
    ensures r < 100.0 ==> r == watchedSeconds / totalDuration * 100.0
    ensures watchedSeconds / totalDuration * 100.0 >= 100.0 ==> r == 100.0
  {
    var p := watchedSeconds / totalDuration * 100.0;
    if p <= 100.0 then p else 100.0
  }

  /** Completion and the percentage agree: completed exactly when the
      unrounded percentage reaches 90. */
  lemma CompletedIffNinetyPercent(watchedSeconds: real, totalDuration: real)
    requires totalDuration > 0.0
    ensures Completed(watchedSeconds, totalDuration) <==> RawPercentage(watchedSeconds, totalDuration) >= 90.0
  {
    var q := watchedSeconds / totalDuration;
    assert watchedSeconds == q * totalDuration;
    if watchedSeconds >= totalDuration * 0.9 {
      assert q * totalDuration >= 0.9 * totalDuration;
      assert q >= 0.9;
    } else {
      assert q * totalDuration < 0.9 * totalDuration;
      assert q < 0.9;
    }
  }

  /** `Math.round(x)`: the nearest integer, halves rounding up. */
  function Round(x: real): (n: int)
    ensures x - 0.5 < n as real <= x + 0.5
  {
    (x + 0.5).Floor
  }

  /** `Math.round(x * 10) / 10`: to one decimal place. */
  function RoundTenth(x: real): (r: real)
    ensures x - 0.05 < r <= x + 0.05
    ensures (r * 10.0).Floor as real == r * 10.0
  {
    Round(x * 10.0) as real / 10.0
  }

  /** `getProgress`: the entry for the video, `None` (`null`) exactly when there is none. */
  function GetProgress(progressData: map<string, WatchProgress>, videoId: string): (r: Option<WatchProgress>)
    ensures r.None? <==> videoId !in progressData
    ensures r.Some? ==> r.value == progressData[videoId]
  {
    if videoId in progressData then Some(progressData[videoId]) else None
  }

  /** `getProgressPercentage`: 0 without an entry, otherwise the clamped
      percentage rounded to one decimal. */
  function ProgressPercentage(progressData: map<string, WatchProgress>, videoId: string, totalDuration: real): (r: real)
    requires totalDuration > 0.0
    ensures videoId !in progressData ==> r == 0.0
    ensures videoId in progressData ==>
      var raw := RawPercentage(progressData[videoId].watchedSeconds, totalDuration);
      r == RoundTenth(raw) && raw - 0.05 < r <= raw + 0.05
    ensures r <= 100.0
    ensures videoId in progressData && progressData[videoId].watchedSeconds >= 0.0 ==> r >= 0.0
  {
    match GetProgress(progressData, videoId)
    case None => 0.0
    case Some(p) =>
      var raw := RawPercentage(p.watchedSeconds, totalDuration);
      var r := RoundTenth(raw);
      assert Round(raw * 10.0) <= 1000 by {
        assert raw * 10.0 + 0.5 < 1001.0;
      }
      r
  }

  /** 550 of 600 seconds is 91.7 %. */
  lemma PercentageExample()
    ensures ProgressPercentage(map["v1" := WatchProgress("v1", 550.0, true, "t")], "v1", 600.0) == 91.7
  {
    var raw := RawPercentage(550.0, 600.0);
    assert raw == 550.0 / 6.0;
    assert Round(raw * 10.0) == 917;
  }

  /** The state the load effect leaves: `{}` when the key is absent or empty,
      the stored map when it parses, and the previous state when it does not. */
  function Loaded(items: map<string, Item>, current: map<string, WatchProgress>): (r: map<string, WatchProgress>)
    ensures var k := StorageKey(CurrentUser(items));
      (!Stored(items, k) ==> r == map[])
      && (Stored(items, k) && items[k].Progresses? ==> r == items[k].entries)
      && (Stored(items, k) && !items[k].Progresses? ==> r == current)
  {
    var k := StorageKey(CurrentUser(items));
    if !Stored(items, k) then map[]
    else if items[k].Progresses? then items[k].entries
    else current
  }

  /** What `saveProgressToStorage` writes, the next load reads back: the write
      does not touch `currentUser`, so the key is the same. */
  lemma SaveThenLoad(items: map<string, Item>, data: map<string, WatchProgress>, current: map<string, WatchProgress>)
    ensures Loaded(items[StorageKey(CurrentUser(items)) := Progresses(data)], current) == data
  {
    var k := StorageKey(CurrentUser(items));
    StorageKeyIsNotTrackerKey(CurrentUser(items), "");
    assert CurrentUser(items[k := Progresses(data)]) == CurrentUser(items);
  }

  /** `{ ...progressData, [videoId]: newProgress }` */
  function WithEntry(progressData: map<string, WatchProgress>, videoId: string, watchedSeconds: real,
                     totalDuration: real, nowIso: string): (r: map<string, WatchProgress>)
    ensures videoId in r
    ensures r[videoId] == WatchProgress(videoId, watchedSeconds, Completed(watchedSeconds, totalDuration), nowIso)
    ensures forall k :: k != videoId ==> (k in r <==> k in progressData)
    ensures forall k :: k != videoId && k in progressData ==> r[k] == progressData[k]
  {
    progressData[videoId := WatchProgress(videoId, watchedSeconds, Completed(watchedSeconds, totalDuration), nowIso)]
  }

  /** The hook's state. */
  class ProgressHook {
    var progressData: map<string, WatchProgress>

    constructor ()
      ensures progressData == map[]
    {
      progressData := map[];
    }

    /** The mount effect: read the cache for the current learner. */
    method Load(storage: LocalStorage)
      modifies this
      ensures progressData == Loaded(storage.items, old(progressData))
    {
      var k := StorageKey(CurrentUser(storage.items));
      if Stored(storage.items, k) {
        var saved := storage.items[k];
        if saved.Progresses? {
          progressData := saved.entries;
        }
      } else {
        progressData := map[];
      }
    }

    /** `saveProgressToStorage` */
    method SaveProgressToStorage(storage: LocalStorage, data: map<string, WatchProgress>)
      modifies this, storage
      ensures storage.items == old(storage.items)[StorageKey(CurrentUser(old(storage.items))) := Progresses(data)]
      ensures progressData == data
    {
      var k := StorageKey(CurrentUser(storage.items));
      storage.SetItem(k, Progresses(data));
      progressData := data;
    }

    /** `updateProgress`: the cache entry for the video is replaced and written
        to storage first; then, only with a category, the tracker saves the
        (unrounded) percentage, and nothing it does touches the cache key. */
    method UpdateProgress(storage: LocalStorage, videoId: string, watchedSeconds: real, totalDuration: real,
                          categoryId: Option<string>, now: nat, random: string, nowIso: string)
      returns (posted: Option<ProgressTracker.ProgressPost>)
      requires totalDuration > 0.0
      requires ProgressTracker.IdIsText(storage.items)
      modifies this, storage
      ensures progressData == WithEntry(old(progressData), videoId, watchedSeconds, totalDuration, nowIso)
      ensures var k := StorageKey(CurrentUser(old(storage.items)));
        k in storage.items && storage.items[k] == Progresses(progressData)
      ensures var cached := old(storage.items)[StorageKey(CurrentUser(old(storage.items))) := Progresses(progressData)];
        (categoryId.None? || categoryId.value == "" ==> posted.None? && storage.items == cached)
        && (categoryId.Some? && categoryId.value != "" ==>
              var saved := ProgressTracker.SaveLocal(cached, videoId, categoryId.value,
                RawPercentage(watchedSeconds, totalDuration), watchedSeconds,
                ProgressTracker.FreshId(now, random), nowIso);
              storage.items == saved.0 && posted == Some(saved.1))
    {
      var updated := WithEntry(progressData, videoId, watchedSeconds, totalDuration, nowIso);
      ghost var k := StorageKey(CurrentUser(storage.items));
      SaveProgressToStorage(storage, updated);
      if categoryId.Some? && categoryId.value != "" {
        var p := ProgressTracker.SaveProgress(storage, videoId, categoryId.value,
          RawPercentage(watchedSeconds, totalDuration), watchedSeconds, now, random, nowIso);
        StorageKeyIsNotTrackerKey(CurrentUser(old(storage.items)), videoId);
        posted := Some(p);
      } else {
        posted := None;
      }
    }
  }
}
