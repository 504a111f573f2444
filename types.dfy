/** The records of src/types/video.ts and the progress entry of
    src/utils/progressTracker.ts. Seconds and percentages are exact rationals. */
module Types {
  import opened Common

  datatype VideoType = YouTube | Local

  datatype Video = Video(
    id: string,
    title: string,
    description: string,
    youtubeId: Option<string>,
    videoUrl: Option<string>,
    videoType: VideoType,
    duration: int,
    thumbnail: string,
    category: string)

  datatype Topic = Topic(id: string, title: string, description: string, thumbnail: string, videoCount: int)

  datatype WatchProgress = WatchProgress(videoId: string, watchedSeconds: real, completed: bool, lastWatchedAt: string)

  /** The entry `saveProgress` writes under `progress_<videoId>`: the declared
      fields plus the user name and employee id it adds. */
  datatype ProgressData = ProgressData(
    id: string,
    userName: string,
    employeeId: string,
    videoId: string,
    categoryId: string,
    progress: real,
    watchTime: real,
    lastWatched: string)
}

/** The browser's `localStorage`. Each value is kept in the form its writer
    stored it in: raw text, a JSON value, a progress map, or a progress entry. */
module Browser {
  import opened Common
  import opened Json
  import opened Types

  datatype Item =
    | Text(text: string)
    | Value(v: Json)
    | Progresses(entries: map<string, WatchProgress>)
    | Entry(data: ProgressData)

  /** Where the signed-in learner is kept. */
  const CurrentUserKey: string := "currentUser"

  /** `if (localStorage.getItem(k))`: present and not the empty string. */
  predicate Stored(items: map<string, Item>, k: string)
  {
    k in items && items[k] != Text("")
  }

  /** `JSON.parse(localStorage.getItem(k))` for a key holding JSON data, when the
      stored value is truthy; `None` when absent, empty or not parsable. */
  function Parsed(items: map<string, Item>, k: string): (r: Option<Json>)
    ensures r.Some? ==> Stored(items, k) && items[k] == Value(r.value)
  {
    if k in items && items[k].Value? then Some(items[k].v) else None
  }

  /** A guarded `JSON.parse` of the stored value: `null` when it is absent,
      empty or does not parse. */
  function ParsedOrNull(items: map<string, Item>, k: string): (r: Json)
    ensures Parsed(items, k).Some? ==> r == Parsed(items, k).value
    ensures Parsed(items, k).None? ==> r == JNull
  {
    match Parsed(items, k)
    case None => JNull
    case Some(v) => v
  }

  class LocalStorage {
    var items: map<string, Item>

    constructor (initial: map<string, Item>)
      ensures items == initial
    {
      items := initial;
    }

    method SetItem(k: string, v: Item)
      modifies this
      ensures items == old(items)[k := v]
    {
      items := items[k := v];
    }

    method RemoveItem(k: string)
      modifies this
      ensures items == old(items) - {k}
    {
      items := items - {k};
    }
  }
}

/** What the admin screens send: requests to the edge function and picked files. */
module Http {
  import opened Json

  /** A request: method, path below the edge function's base, JSON body. */
  datatype Request = Request(verb: string, path: string, body: Record)

  /** A picked file: name, MIME type and size in bytes. */
  datatype FileInfo = FileInfo(name: string, mimeType: string, size: nat)

  /** A `multipart/form-data` body: each field name holds a file or a text. */
  datatype FormValue = FileValue(file: FileInfo) | TextValue(text: string)
  type MultipartForm = map<string, FormValue>
}
