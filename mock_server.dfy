/** scripts/mock-supabase.js: a local stand-in for the edge function that
    keeps, per learner id, a set of attendance dates, a progress list and a
    name, in one in-memory dictionary. */
module MockServer {
  import opened Common
  import opened Text
  import opened Json

  const Base: string := "/functions/v1/make-server-a8898ff1"
  const DefaultName: string := "Local Test User"

  /** One saved progress entry. Each is built with the same five properties;
      an `undefined` one is `None`. */
  datatype ProgressEntry = ProgressEntry(
    videoId: Json,
    categoryId: Option<Json>,
    progress: JsNumber,
    watchTime: Option<Json>,
    lastWatched: string)

  /** `store[id]`. The logs route creates entries with dates only, the other
      routes with an empty progress list and the default name. */
  datatype UserEntry = UserEntry(attendanceDates: set<string>, progress: Option<seq<ProgressEntry>>, name: Option<string>)

  const DatesOnly: UserEntry := UserEntry({}, None, None)
  const NewUser: UserEntry := UserEntry({}, Some([]), Some(DefaultName))

  /** A request body: none, JSON text, or text `JSON.parse` rejects. */
  datatype Body = NoBody | Parsed(value: Json) | Unparsable

  /** A log timestamp: the current instant, or 09:00 local time on a day of the
      month named by the `month` query's two parts. */
  datatype LogStamp = Now | MonthDay(year: string, month: string, day: nat)

  /** A row of the admin progress list: the owner's id and name, then the entry. */
  datatype Row = Row(id: string, userName: Option<string>, entry: ProgressEntry)

  /** What a request is answered with. */
  datatype Outcome =
    | LogsSent(logs: seq<LogStamp>)
    | AttendanceSet(employeeId: string, name: Option<string>, attendance: bool)
    | ProgressSaved(id: Json, name: Option<string>, saved: seq<ProgressEntry>)
    | ProgressSent(list: Option<seq<ProgressEntry>>)
    | AllProgressSent(rows: seq<Row>)
    | Refused(error: string)
    | NoRoute(path: string)
    | Crashed

  /** The HTTP status of each outcome; 0 for `Crashed`, where a URIError or
      a RangeError escapes the request handler and no reply is sent. */
  function Status(o: Outcome): int
  {
    match o
    case Refused(_) => 400
    case NoRoute(_) => 404
    case Crashed => 0
    case _ => 200
  }

  /** The route a request takes, with the learner id still URI-encoded as it
      stands in the path. */
  datatype Route = Logs(raw: string) | Attendance(raw: string) | SaveProgress | GetProgress(raw: string) | AllProgress | NoMatch
  {
    predicate Keyed() { Logs? || Attendance? || GetProgress? }
  }

  /** The characters `.` does not match in a JavaScript regular expression. */
  predicate IsLineBreak(c: char)
  {
    c == '\n' || c == '\r' || c == '\U{2028}' || c == '\U{2029}'
  }

  /** `^prefix(.+)suffix$`: the text between `prefix` and `suffix`, when it is
      non-empty and has no line break. With the suffix anchored at the end, the
      lazy and greedy captures coincide. */
  function Capture(path: string, prefix: string, suffix: string): (r: Option<string>)
    ensures r.Some? ==> path == prefix + r.value + suffix && r.value != []
  {
    if |prefix| + |suffix| < |path| && StartsWith(path, prefix) && EndsWith(path, suffix) then
      var mid := path[|prefix|..|path| - |suffix|];
      assert path == path[..|prefix|] + mid + path[|path| - |suffix|..];
      if forall i :: 0 <= i < |mid| ==> !IsLineBreak(mid[i]) then Some(mid) else None
    else None
  }

  /** The capture recovers what was put between the prefix and the suffix. */
  lemma CaptureOfJoin(prefix: string, id: string, suffix: string)
    requires id != [] && forall i :: 0 <= i < |id| ==> !IsLineBreak(id[i])
    ensures Capture(prefix + id + suffix, prefix, suffix) == Some(id)
  {
    var path := prefix + id + suffix;
    assert path[..|prefix|] == prefix;
    assert path[|path| - |suffix|..] == suffix;
    assert path[|prefix|..|path| - |suffix|] == id;
  }

  /** The routes in the order the server tries them. */
  function RouteOf(verb: string, path: string): Route
  {
    var logs := Capture(path, Base + "/users/", "/attendance/logs");
    var attendance := Capture(path, Base + "/users/", "/attendance");
    var progress := Capture(path, Base + "/progress/", "");
    if verb == "GET" && logs.Some? then Logs(logs.value)
    else if (verb == "POST" || verb == "PUT") && attendance.Some? then Attendance(attendance.value)
    else if verb == "POST" && path == Base + "/progress" then SaveProgress
    else if verb == "GET" && progress.Some? then GetProgress(progress.value)
    else if verb == "GET" && path == Base + "/admin/progress" then AllProgress
    else NoMatch
  }

  /** The attendance paths the client builds reach the attendance handlers. */
  lemma AttendanceRoutes(employeeId: string)
    requires employeeId != [] && forall i :: 0 <= i < |employeeId| ==> !IsLineBreak(employeeId[i])
    ensures RouteOf("GET", Base + "/users/" + employeeId + "/attendance/logs") == Logs(employeeId)
    ensures RouteOf("POST", Base + "/users/" + employeeId + "/attendance") == Attendance(employeeId)
    ensures RouteOf("PUT", Base + "/users/" + employeeId + "/attendance") == Attendance(employeeId)
  {
    CaptureOfJoin(Base + "/users/", employeeId, "/attendance/logs");
    CaptureOfJoin(Base + "/users/", employeeId, "/attendance");
  }

  /** A learner id the client percent-encodes into the attendance paths is
      the id the server keys its store by. */
  lemma EscapedIdRoutes(id: string)
    requires id != []
    ensures RouteOf("GET", Base + "/users/" + EscapeAll(id) + "/attendance/logs") == Logs(EscapeAll(id))
    ensures RouteOf("POST", Base + "/users/" + EscapeAll(id) + "/attendance") == Attendance(EscapeAll(id))
    ensures DecodeUri(EscapeAll(id)) == Some(id)
  {
    var e := EscapeAll(id);
    EscapeAllChars(id);
    forall i | 0 <= i < |e| ensures !IsLineBreak(e[i]) {
      assert EscapeChar(e[i]);
    }
    AttendanceRoutes(e);
    DecodeEscapeAll(id);
  }

  /** `ToIntegerOrInfinity` of a finite number: its integer part, rounded toward zero. */
  function IntegerPart(x: real): (r: int)
    ensures x >= 0.0 ==> r as real <= x < r as real + 1.0
    ensures x < 0.0 ==> r as real - 1.0 < x <= r as real
  {
    if x >= 0.0 then x.Floor else -((-x).Floor)
  }

  /** The first and the last month whose 1st and 5th lie inside the range of
      a JavaScript `Date` (100,000,000 days either side of 1 January 1970:
      20 April 271822 BC to 13 September 275760), as `year * 12 + monthIndex`. */
  const FirstStampMonth: int := -271821 * 12 + 4
  const LastStampMonth: int := 275760 * 12 + 8

  /** `new Date(y, mm, d, 9, 0, 0)` with `y = Number(year)` and
      `mm = Number(month) - 1` is a valid date for days 1 and 5: both numbers
      are finite, and the month they name, after the `0`..`99` year mapping
      and the carry of month indexes outside `0`..`11` into the year, lies in
      the `Date` range. Otherwise `toISOString` throws a RangeError. */
  predicate StampsInRange(year: string, month: string)
  {
    var y := ToNumber(year);
    var m := ToNumber(month);
    y.Finite? && m.Finite?
    && var yi := IntegerPart(y.value);
       var full := if 0 <= yi <= 99 then 1900 + yi else yi;
       FirstStampMonth <= full * 12 + IntegerPart(m.value - 1.0) <= LastStampMonth
  }

  /** The logs the logs route returns: now, then days 1 and 5 of the month when
      `month` has exactly two `-`-separated parts. `None` when building those
      two days throws a RangeError, which escapes the handler. */
  function LogsFor(month: string): (r: Option<seq<LogStamp>>)
    ensures r.None? <==> |Split(month, '-')| == 2 && !StampsInRange(Split(month, '-')[0], Split(month, '-')[1])
    ensures r.Some? ==> |r.value| >= 1 && r.value[0] == Now
    ensures r.Some? ==> (|r.value| == 3 <==> |Split(month, '-')| == 2)
    ensures r.Some? ==> (|r.value| == 1 <==> |Split(month, '-')| != 2)
  {
    var m := Split(month, '-');
    if |m| == 2 && !StampsInRange(m[0], m[1]) then None
    else Some([Now] + (if |m| == 2 then [MonthDay(m[0], m[1], 1), MonthDay(m[0], m[1], 5)] else []))
  }

  /** The month query `year-month` splits into its two parts. */
  lemma SplitMonth(year: string, month: string)
    requires !HasChar(year, '-') && !HasChar(month, '-')
    ensures Split(year + "-" + month, '-') == [year, month]
  {
    SplitJoin([year, month], '-');
    assert Join([year, month], '-') == year + "-" + month;
  }

  /** For a `YYYY-MM` month the logs are now and the 1st and 5th of it. */
  lemma LogsOfMonth(year: string, month: string)
    requires !HasChar(year, '-') && !HasChar(month, '-')
    requires StampsInRange(year, month)
    ensures LogsFor(year + "-" + month) == Some([Now, MonthDay(year, month, 1), MonthDay(year, month, 5)])
  {
    SplitMonth(year, month);
    var m := Split(year + "-" + month, '-');
    assert m[0] == year && m[1] == month;
    assert [Now] + [MonthDay(year, month, 1), MonthDay(year, month, 5)]
           == [Now, MonthDay(year, month, 1), MonthDay(year, month, 5)];
  }

  /** A digit year up to 9999 and a digit month from 1 to 12, as the calendar
      page sends them, are in range. */
  lemma DigitMonthInRange(year: string, month: string)
    requires year != [] && AllDigits(year) && DigitsValue(year) <= 9999
    requires month != [] && AllDigits(month) && 1 <= DigitsValue(month) <= 12
    ensures StampsInRange(year, month)
  {
    DigitsNumber(year);
    DigitsNumber(month);
    var mi := IntegerPart(DigitsValue(month) as real - 1.0);
    assert mi == DigitsValue(month) - 1;
  }

  /** A year part that is not a number, such as the `a` of `a-b`, makes the
      route throw. */
  lemma NotNumberThrows(year: string, month: string)
    requires !HasChar(year, '-') && !HasChar(month, '-')
    requires ToNumber(year) == NaN
    ensures LogsFor(year + "-" + month) == None
  {
    SplitMonth(year, month);
  }

  /** A single letter is not a number. */
  lemma LetterIsNaN(c: char)
    requires 'a' <= c <= 'z'
    ensures ToNumber([c]) == NaN
  {
    assert !IsSpace(c);
    NoSpaceNumber([c]);
    assert TrimmedNumber([c]) == UnsignedDecimal([c]);
    if c == 'e' {
      assert ExponentAt([c]) == 0;
      assert MantissaOf([c][..0]).None?;
    } else {
      assert ExponentAt([c]) == 1 && [c][..1] == [c];
      assert !HasChar([c], '.') && !IsDigit([c][0]);
      assert MantissaOf([c]).None?;
    }
  }

  /** A year past 275760 is out of the `Date` range. */
  lemma FarYearThrows(year: string, month: string)
    requires year != [] && AllDigits(year) && DigitsValue(year) > 275760
    requires month != [] && AllDigits(month) && DigitsValue(month) <= 12
    ensures LogsFor(year + "-" + month) == None
  {
    assert !HasChar(year, '-') && !HasChar(month, '-') by {
      assert forall i :: 0 <= i < |year| ==> IsDigit(year[i]);
      assert forall i :: 0 <= i < |month| ==> IsDigit(month[i]);
    }
    SplitMonth(year, month);
    DigitsNumber(year);
    DigitsNumber(month);
  }

  /** `store[id] || blank` */
  function EntryOr(store: map<string, UserEntry>, id: string, blank: UserEntry): UserEntry
  {
    if id in store then store[id] else blank
  }

  /** The store after an attendance toggle of `id` for `today`. */
  function Toggled(store: map<string, UserEntry>, id: string, today: string, on: bool): (r: map<string, UserEntry>)
    ensures r.Keys == store.Keys + {id}
    ensures today in r[id].attendanceDates <==> on
    ensures forall k :: k in store && k != id ==> r[k] == store[k]
  {
    var e := EntryOr(store, id, NewUser);
    store[id := e.(attendanceDates := if on then e.attendanceDates + {today} else e.attendanceDates - {today})]
  }

  /** Sending the same toggle twice leaves the store as sending it once. */
  lemma ToggleIdempotent(store: map<string, UserEntry>, id: string, today: string, on: bool)
    ensures Toggled(Toggled(store, id, today, on), id, today, on) == Toggled(store, id, today, on)
  {
    var e := EntryOr(store, id, NewUser);
    var once := Toggled(store, id, today, on);
    var e1 := once[id];
    var again := if on then e1.attendanceDates + {today} else e1.attendanceDates - {today};
    assert again == e1.attendanceDates;
    assert e1.(attendanceDates := again) == e1;
    assert EntryOr(once, id, NewUser) == e1;
    assert once[id := e1] == once;
  }

  /** A toggle changes only the day it is for. */
  lemma ToggleTouchesOnlyToday(store: map<string, UserEntry>, id: string, today: string, on: bool, day: string)
    requires day != today
    ensures day in Toggled(store, id, today, on)[id].attendanceDates <==> day in EntryOr(store, id, NewUser).attendanceDates
    ensures Toggled(store, id, today, on)[id].progress == EntryOr(store, id, NewUser).progress
  {
  }

  /** `const data = body ? JSON.parse(body) : {}`; `None` when parsing throws. */
  function DataOf(body: Body): Option<Json>
  {
    match body
    case NoBody => Some(JObj(map[]))
    case Parsed(v) => Some(v)
    case Unparsable => None
  }

  /** `Number(v)` for the values a parsed body can hold: `undefined` is NaN,
      `null` is 0, booleans are 1 and 0, numbers are themselves, and strings,
      arrays and objects are read from their text. */
  function JsonNumber(v: Option<Json>): JsNumber
  {
    match v
    case None => NaN
    case Some(JNull) => Finite(0.0)
    case Some(JBool(b)) => Finite(if b then 1.0 else 0.0)
    case Some(JNum(n)) => Finite(n as real)
    case Some(j) => ToNumber(ShowValue(j, false))
  }

  /** A number reads the same as its own text. */
  lemma JsonNumberOfText(n: int)
    ensures JsonNumber(Some(JNum(n))) == ToNumber(Show(Some(JNum(n))))
    ensures JsonNumber(Some(JStr(IntToString(n)))) == Finite(n as real)
  {
    NumberOfIntToString(n);
  }

  /** `Number(v) || 0`: NaN (and zero) become 0, every other number is kept. */
  function NumberOrZero(v: Option<Json>): (r: JsNumber)
    ensures r != NaN
    ensures JsonNumber(v) != NaN ==> r == JsonNumber(v)
    ensures JsonNumber(v) == NaN ==> r == Finite(0.0)
  {
    var n := JsonNumber(v);
    if n == NaN || n == Finite(0.0) then Finite(0.0) else n
  }

  /** The progress a client sends, as a number or as its decimal text, is
      stored as that number; a missing or non-numeric one is stored as 0. */
  lemma ProgressNumbers(n: int, hex: string)
    requires AllRadix(hex, 16)
    ensures NumberOrZero(Some(JNum(n))) == Finite(n as real)
    ensures NumberOrZero(Some(JStr(IntToString(n)))) == Finite(n as real)
    ensures NumberOrZero(Some(JStr("-0x" + hex))) == Finite(0.0)
    ensures NumberOrZero(None) == Finite(0.0)
  {
    JsonNumberOfText(n);
    SignedHexNaN(hex);
  }

  /** `===` on JSON values: objects and arrays parsed from different bodies are
      never the same object. */
  predicate StrictEq(a: Json, b: Json)
  {
    !a.JArr? && !a.JObj? && a == b
  }

  /** `findIndex(p => p.videoId === videoId)` */
  function FindVideo(list: seq<ProgressEntry>, videoId: Json): (r: Option<nat>)
    ensures r.None? <==> forall i :: 0 <= i < |list| ==> !StrictEq(list[i].videoId, videoId)
    ensures r.Some? ==>
      r.value < |list| && StrictEq(list[r.value].videoId, videoId)
      && forall i :: 0 <= i < r.value ==> !StrictEq(list[i].videoId, videoId)
  {
    if list == [] then None
    else if StrictEq(list[0].videoId, videoId) then Some(0)
    else match FindVideo(list[1..], videoId)
      case None => None
      case Some(i) => Some(i + 1)
  }

  /** A property value of an entry: a JSON value from the body (or
      `undefined`), or the number the server computed. */
  datatype Value = Plain(json: Option<Json>) | Number(number: JsNumber)

  /** The entry's own properties as a JavaScript object, `undefined` ones kept. */
  function Properties(e: ProgressEntry): map<string, Value>
  {
    map["videoId" := Plain(Some(e.videoId)), "categoryId" := Plain(e.categoryId), "progress" := Number(e.progress),
        "watchTime" := Plain(e.watchTime), "lastWatched" := Plain(Some(JStr(e.lastWatched)))]
  }

  /** `{ ...old, ...entry }` of two entries is the new entry: both own the same
      five properties and the later spread wins on each. */
  lemma SpreadOverEntry(earlier: ProgressEntry, entry: ProgressEntry)
    ensures Properties(earlier) + Properties(entry) == Properties(entry)
  {
    assert (Properties(earlier) + Properties(entry)).Keys == Properties(entry).Keys;
  }

  /** The progress upsert: replace the first entry for the video, else append. */
  function Upsert(list: seq<ProgressEntry>, entry: ProgressEntry): (r: seq<ProgressEntry>)
    ensures FindVideo(list, entry.videoId).None? ==> r == list + [entry]
    ensures FindVideo(list, entry.videoId).Some? ==> r == list[FindVideo(list, entry.videoId).value := entry]
  {
    match FindVideo(list, entry.videoId)
    case None => list + [entry]
    case Some(i) => list[i := entry]
  }

  /** No two entries are for the same video. */
  predicate UniqueVideos(list: seq<ProgressEntry>)
  {
    forall i, j :: 0 <= i < j < |list| ==> !StrictEq(list[i].videoId, list[j].videoId)
  }

  /** The upsert grows the list by at most one, keeps one entry per video, and
      leaves the other videos' entries as they were. */
  lemma UpsertKeepsOnePerVideo(list: seq<ProgressEntry>, entry: ProgressEntry)
    requires UniqueVideos(list)
    ensures UniqueVideos(Upsert(list, entry))
    ensures |list| <= |Upsert(list, entry)| <= |list| + 1
    ensures entry in Upsert(list, entry)
    ensures forall e :: e in list && !StrictEq(e.videoId, entry.videoId) ==> e in Upsert(list, entry)
  {
    var r := Upsert(list, entry);
    match FindVideo(list, entry.videoId)
    case None =>
      assert r[|list|] == entry;
      forall i, j | 0 <= i < j < |r|
        ensures !StrictEq(r[i].videoId, r[j].videoId)
      {
        if j == |list| {
          assert r[i] == list[i];
        }
      }
    case Some(k) =>
      assert r[k] == entry;
      forall i, j | 0 <= i < j < |r|
        ensures !StrictEq(r[i].videoId, r[j].videoId)
      {
        if i == k {
          assert StrictEq(list[k].videoId, entry.videoId) && list[j] == r[j];
        } else if j == k {
          assert StrictEq(list[k].videoId, entry.videoId) && list[i] == r[i];
        }
      }
      forall e | e in list && !StrictEq(e.videoId, entry.videoId)
        ensures e in r
      {
        var i :| 0 <= i < |list| && list[i] == e;
        assert i != k && r[i] == e;
      }
  }

  /** One user's rows in the admin list: `(progress || []).map(...)`. */
  function Tagged(id: string, user: UserEntry): (r: seq<Row>)
    ensures |r| == (if user.progress.Some? then |user.progress.value| else 0)
    ensures forall i :: 0 <= i < |r| ==> r[i] == Row(id, user.name, user.progress.value[i])
  {
    if user.progress.Some? then seq(|user.progress.value|, i requires 0 <= i < |user.progress.value| => Row(id, user.name, user.progress.value[i]))
    else []
  }

  /** The number of progress entries over the listed users. */
  function EntryCount(store: map<string, UserEntry>, order: seq<string>): nat
    requires forall i :: 0 <= i < |order| ==> order[i] in store
  {
    if order == [] then 0
    else (if store[order[0]].progress.Some? then |store[order[0]].progress.value| else 0) + EntryCount(store, order[1..])
  }

  /** The admin list: every listed user's entries, in `Object.keys` order, each
      tagged with its owner. */
  function AllRows(store: map<string, UserEntry>, order: seq<string>): (r: seq<Row>)
    requires forall i :: 0 <= i < |order| ==> order[i] in store
    ensures |r| == EntryCount(store, order)
    ensures forall row :: row in r ==>
      row.id in order && store[row.id].progress.Some? && row.entry in store[row.id].progress.value
      && row.userName == store[row.id].name
    ensures forall k, e :: k in order && store[k].progress.Some? && e in store[k].progress.value ==>
      Row(k, store[k].name, e) in r
  {
    if order == [] then []
    else
      var head := Tagged(order[0], store[order[0]]);
      var rest := AllRows(store, order[1..]);
      forall k, e | k in order && store[k].progress.Some? && e in store[k].progress.value
        ensures Row(k, store[k].name, e) in head + rest
      {
        if k == order[0] {
          var i :| 0 <= i < |store[k].progress.value| && store[k].progress.value[i] == e;
          assert head[i] == Row(k, store[k].name, e);
        } else {
          assert k in order[1..];
        }
      }
      head + rest
  }

  class MockStore {
    var store: map<string, UserEntry>

    constructor ()
      ensures store == map[]
    {
      store := map[];
    }

    /** GET `users/:id/attendance/logs`: the logs, and today recorded for the
        user. A month whose days cannot be built throws before the store is
        touched, and no reply is sent. */
    method GetLogs(employeeId: string, month: string, today: string) returns (o: Outcome)
      modifies this
      ensures LogsFor(month).None? ==> o == Crashed && store == old(store)
      ensures LogsFor(month).Some? ==>
        o == LogsSent(LogsFor(month).value)
        && store == old(store)[employeeId := EntryOr(old(store), employeeId, DatesOnly).(
             attendanceDates := EntryOr(old(store), employeeId, DatesOnly).attendanceDates + {today})]
    {
      var logs := [Now];
      var m := Split(month, '-');
      if |m| == 2 {
        if !StampsInRange(m[0], m[1]) {
          return Crashed;
        }
        logs := logs + [MonthDay(m[0], m[1], 1)];
        logs := logs + [MonthDay(m[0], m[1], 5)];
        assert logs == [Now] + [MonthDay(m[0], m[1], 1), MonthDay(m[0], m[1], 5)];
      } else {
        assert [Now] + [] == logs;
      }
      assert LogsFor(month) == Some(logs);
      var e := EntryOr(store, employeeId, DatesOnly);
      store := store[employeeId := e];
      store := store[employeeId := e.(attendanceDates := e.attendanceDates + {today})];
      o := LogsSent(logs);
    }

    /** POST or PUT `users/:id/attendance`. A body that does not parse is
        refused and changes nothing; a `null` body is refused after the entry
        was created; otherwise today is added or removed as `attendance` is
        truthy or not. */
    method SetAttendance(employeeId: string, body: Body, today: string) returns (o: Outcome)
      modifies this
      ensures DataOf(body).None? ==> o == Refused("invalid json") && store == old(store)
      ensures DataOf(body) == Some(JNull) ==>
        o == Refused("invalid json") && store == old(store)[employeeId := EntryOr(old(store), employeeId, NewUser)]
      ensures DataOf(body).Some? && DataOf(body) != Some(JNull) ==>
        var on := Truthy(Prop(DataOf(body), "attendance"));
        store == Toggled(old(store), employeeId, today, on)
        && o == AttendanceSet(employeeId, EntryOr(old(store), employeeId, NewUser).name, on)
    {
      var data := DataOf(body);
      if data.None? {
        return Refused("invalid json");
      }
      store := store[employeeId := EntryOr(store, employeeId, NewUser)];
      if data.value == JNull {
        return Refused("invalid json");
      }
      var on := Truthy(Prop(data, "attendance"));
      var e := store[employeeId];
      if on {
        store := store[employeeId := e.(attendanceDates := e.attendanceDates + {today})];
      } else {
        store := store[employeeId := e.(attendanceDates := e.attendanceDates - {today})];
      }
      o := AttendanceSet(employeeId, e.name, on);
    }

    /** POST `progress`: keyed by the body's `id`, one entry per video. */
    method SaveProgressEntry(body: Body, nowIso: string) returns (o: Outcome)
      modifies this
      ensures DataOf(body).None? || DataOf(body) == Some(JNull) ==> o == Refused("invalid json") && store == old(store)
      ensures (DataOf(body).Some? && DataOf(body) != Some(JNull)
               && !(Truthy(Prop(DataOf(body), "id")) && Truthy(Prop(DataOf(body), "videoId")))) ==>
        o == Refused("id and videoId required") && store == old(store)
      ensures var data := DataOf(body);
        data.Some? && data != Some(JNull) && Truthy(Prop(data, "id")) && Truthy(Prop(data, "videoId")) ==>
          (Status(o) == 200 <==> EntryOr(old(store), Show(Prop(data, "id")), NewUser).progress.Some?)
          && (Status(o) != 200 ==> o == Refused("invalid json"))
      ensures Status(o) == 200 ==>
        var data := DataOf(body);
        var key := Show(Prop(data, "id"));
        var entry := ProgressEntry(Prop(data, "videoId").value, Prop(data, "categoryId"),
                                   NumberOrZero(Prop(data, "progress")), Prop(data, "watchTime"), nowIso);
        var user := EntryOr(old(store), key, NewUser);
        user.progress.Some?
        && store == old(store)[key := user.(progress := Some(Upsert(user.progress.value, entry)))]
        && o == ProgressSaved(Prop(data, "id").value, user.name, Upsert(user.progress.value, entry))
      ensures Status(o) != 200 ==> store == old(store)
    {
      var data := DataOf(body);
      if data.None? || data.value == JNull {
        return Refused("invalid json");
      }
      var id := Prop(data, "id");
      var videoId := Prop(data, "videoId");
      if !Truthy(id) || !Truthy(videoId) {
        return Refused("id and videoId required");
      }
      var key := Show(id);
      var user := EntryOr(store, key, NewUser);
      if user.progress.None? {
        // findIndex on an undefined list throws, and the handler answers as for bad JSON
        return Refused("invalid json");
      }
      var entry := ProgressEntry(videoId.value, Prop(data, "categoryId"), NumberOrZero(Prop(data, "progress")),
                                 Prop(data, "watchTime"), nowIso);
      var list := user.progress.value;
      var idx := FindVideo(list, videoId.value);
      if idx.None? {
        list := list + [entry];
      } else {
        list := list[idx.value := entry];
      }
      store := store[key := user.(progress := Some(list))];
      o := ProgressSaved(id.value, user.name, list);
    }

    /** GET `progress/:id`: the user's list, the user created if unknown. */
    method GetProgressList(id: string) returns (o: Outcome)
      modifies this
      ensures store == old(store)[id := EntryOr(old(store), id, NewUser)]
      ensures o == ProgressSent(EntryOr(old(store), id, NewUser).progress)
    {
      store := store[id := EntryOr(store, id, NewUser)];
      o := ProgressSent(store[id].progress);
    }

    /** GET `admin/progress`. `order` is the engine's `Object.keys(store)` order. */
    method AllProgressList(order: seq<string>) returns (o: Outcome)
      requires forall i :: 0 <= i < |order| ==> order[i] in store
      requires forall k :: k in store ==> k in order
      ensures o == AllProgressSent(AllRows(store, order))
    {
      o := AllProgressSent(AllRows(store, order));
    }

    /** The server's request handler: the first matching route, else 404. The
        id in a learner path is decoded with `decodeURIComponent` first; a
        malformed escape throws there, before anything is changed. */
    method Handle(verb: string, path: string, month: string, body: Body, today: string, nowIso: string, order: seq<string>)
      returns (o: Outcome)
      requires forall i :: 0 <= i < |order| ==> order[i] in store
      requires forall k :: k in store ==> k in order
      modifies this
      ensures RouteOf(verb, path) == NoMatch ==> o == NoRoute(path) && store == old(store)
      ensures RouteOf(verb, path) == AllProgress ==> store == old(store) && o == AllProgressSent(AllRows(store, order))
      ensures RouteOf(verb, path).Keyed() && DecodeUri(RouteOf(verb, path).raw).None? ==> o == Crashed && store == old(store)
      ensures RouteOf(verb, path).Logs? && DecodeUri(RouteOf(verb, path).raw).Some? ==>
        var id := DecodeUri(RouteOf(verb, path).raw).value;
        (LogsFor(month).None? ==> o == Crashed && store == old(store))
        && (LogsFor(month).Some? ==>
              o == LogsSent(LogsFor(month).value)
              && store == old(store)[id := EntryOr(old(store), id, DatesOnly).(
                   attendanceDates := EntryOr(old(store), id, DatesOnly).attendanceDates + {today})])
      ensures RouteOf(verb, path).Attendance? && DecodeUri(RouteOf(verb, path).raw).Some? ==>
        var id := DecodeUri(RouteOf(verb, path).raw).value;
        (DataOf(body).None? ==> o == Refused("invalid json") && store == old(store))
        && (DataOf(body) == Some(JNull) ==>
              o == Refused("invalid json") && store == old(store)[id := EntryOr(old(store), id, NewUser)])
        && (DataOf(body).Some? && DataOf(body) != Some(JNull) ==>
              var on := Truthy(Prop(DataOf(body), "attendance"));
              store == Toggled(old(store), id, today, on)
              && o == AttendanceSet(id, EntryOr(old(store), id, NewUser).name, on))
      ensures RouteOf(verb, path).GetProgress? && DecodeUri(RouteOf(verb, path).raw).Some? ==>
        var id := DecodeUri(RouteOf(verb, path).raw).value;
        store == old(store)[id := EntryOr(old(store), id, NewUser)]
        && o == ProgressSent(EntryOr(old(store), id, NewUser).progress)
      ensures RouteOf(verb, path) == SaveProgress ==>
        var data := DataOf(body);
        (data.None? || data == Some(JNull) ==> o == Refused("invalid json") && store == old(store))
        && (data.Some? && data != Some(JNull) && !(Truthy(Prop(data, "id")) && Truthy(Prop(data, "videoId"))) ==>
              o == Refused("id and videoId required") && store == old(store))
        && (data.Some? && data != Some(JNull) && Truthy(Prop(data, "id")) && Truthy(Prop(data, "videoId")) ==>
              (Status(o) == 200 <==> EntryOr(old(store), Show(Prop(data, "id")), NewUser).progress.Some?)
              && (Status(o) != 200 ==> o == Refused("invalid json")))
        && (Status(o) == 200 ==>
              var key := Show(Prop(data, "id"));
              var entry := ProgressEntry(Prop(data, "videoId").value, Prop(data, "categoryId"),
                                         NumberOrZero(Prop(data, "progress")), Prop(data, "watchTime"), nowIso);
              var user := EntryOr(old(store), key, NewUser);
              user.progress.Some?
              && store == old(store)[key := user.(progress := Some(Upsert(user.progress.value, entry)))]
              && o == ProgressSaved(Prop(data, "id").value, user.name, Upsert(user.progress.value, entry)))
        && (Status(o) != 200 ==> store == old(store))
    {
      var route := RouteOf(verb, path);
      if route.Keyed() {
        var id := DecodeUri(route.raw);
        if id.None? {
          return Crashed;
        }
        match route {
          case Logs(_) => o := GetLogs(id.value, month, today);
          case Attendance(_) => o := SetAttendance(id.value, body, today);
          case GetProgress(_) => o := GetProgressList(id.value);
        }
      } else {
        match route {
          case SaveProgress => o := SaveProgressEntry(body, nowIso);
          case AllProgress => o := AllProgressList(order);
          case NoMatch => o := NoRoute(path);
        }
      }
    }
  }
}
