/** src/utils/progressTracker.ts: the learner's id, the local progress entries
    and the local fallback for the learner's progress list. */
module ProgressTracker {
  import opened Common
  import opened Text
  import opened Json
  import opened Types
  import opened Browser

  const LearningHubIdKey: string := "learningHubid"

  /** `progress_${videoId}` */
  function LocalKey(videoId: string): (k: string)
    ensures StartsWith(k, "progress_")
  {
    "progress_" + videoId
  }

  /** The id read from the stored current user: `employee_` and the trimmed
      `String(employeeId)`, when the user parses and that text is non-empty. */
  function EmployeeId(items: map<string, Item>): (r: Option<string>)
    ensures r.Some? ==> StartsWith(r.value, "employee_") && |r.value| > |"employee_"|
    ensures var e := Prop(Parsed(items, CurrentUserKey), "employeeId");
      (r.Some? <==> Truthy(e) && Trim(Show(e)) != "")
      && (r.Some? ==> r.value == "employee_" + Trim(Show(e)))
  {
    var parsed := Parsed(items, CurrentUserKey);
    var e := Prop(parsed, "employeeId");
    if !Truthy(e) then None
    else
      var t := Trim(Show(e));
      if t == "" then None else Some("employee_" + t)
  }

  /** `user_${Date.now()}_${random}`; `random` is an opaque generated text. */
  function FreshId(now: nat, random: string): (r: string)
    ensures StartsWith(r, "user_")
  {
    "user_" + NatToString(now) + "_" + random
  }

  /** The stored id is raw text (`getId` is its only writer). */
  predicate IdIsText(items: map<string, Item>)
  {
    LearningHubIdKey in items ==> items[LearningHubIdKey].Text?
  }

  /** `getId`: the id it returns and the storage it leaves behind. The id is
      always what `learningHubid` holds afterwards. */
  function IdAndStorage(items: map<string, Item>, newId: string): (r: (string, map<string, Item>))
    requires IdIsText(items)
    requires newId != ""
    ensures r.0 != "" && r.1 == items[LearningHubIdKey := Text(r.0)]
    ensures EmployeeId(items).Some? ==> r.0 == EmployeeId(items).value
    ensures EmployeeId(items).None? && Stored(items, LearningHubIdKey) ==> r == (items[LearningHubIdKey].text, items)
    ensures EmployeeId(items).None? && !Stored(items, LearningHubIdKey) ==> r.0 == newId
  {
    var e := EmployeeId(items);
    if e.Some? then (e.value, items[LearningHubIdKey := Text(e.value)])
    else if Stored(items, LearningHubIdKey) then (items[LearningHubIdKey].text, items)
    else (newId, items[LearningHubIdKey := Text(newId)])
  }

  /** Asking again gives the same id and changes nothing: once `getId` has
      run, a later call (with any other clock or random value) agrees with it. */
  lemma IdIsStable(items: map<string, Item>, newId1: string, newId2: string)
    requires IdIsText(items) && newId1 != "" && newId2 != ""
    ensures var (id, after) := IdAndStorage(items, newId1);
      IdAndStorage(after, newId2) == (id, after)
  {
    var (id, after) := IdAndStorage(items, newId1);
    assert Parsed(after, CurrentUserKey) == Parsed(items, CurrentUserKey);
    assert EmployeeId(after) == EmployeeId(items);
    assert after[LearningHubIdKey := Text(id)] == after;
  }

  /** `getId` as the program runs it: read, then write `learningHubid` when needed. */
  method GetId(storage: LocalStorage, now: nat, random: string) returns (id: string)
    requires IdIsText(storage.items)
    modifies storage
    ensures (id, storage.items) == IdAndStorage(old(storage.items), FreshId(now, random))
  {
    var e := EmployeeId(storage.items);
    if e.Some? {
      if !(LearningHubIdKey in storage.items && storage.items[LearningHubIdKey] == Text(e.value)) {
        storage.SetItem(LearningHubIdKey, Text(e.value));
      } else {
        assert storage.items == storage.items[LearningHubIdKey := Text(e.value)];
      }
      return e.value;
    }
    if Stored(storage.items, LearningHubIdKey) {
      return storage.items[LearningHubIdKey].text;
    }
    id := FreshId(now, random);
    storage.SetItem(LearningHubIdKey, Text(id));
  }

  /** `(v || '').trim()`, or `None` where `.trim` is not a function and throws. */
  function TrimOrThrow(v: Option<Json>): (r: Option<string>)
    ensures r.None? <==> Truthy(v) && !v.value.JStr?
    ensures r.Some? ==> r.value == Trim(TextOr(v))
  {
    var d := Or(v, JStr(""));
    if d.JStr? then Some(Trim(d.s)) else None
  }

  /** The text of a value that is text, `''` for anything else. */
  function TextOr(v: Option<Json>): string
  {
    if v.Some? && v.value.JStr? then v.value.s else ""
  }

  /** A value `(v || '').trim()` accepts: text, or falsy. */
  predicate TextOrFalsy(v: Option<Json>)
  {
    !Truthy(v) || v.value.JStr?
  }

  /** userName and employeeId as `saveProgress` reads them from the stored
      user; a parse failure, a `null` user or a non-text value leaves `''`. */
  function UserFields(items: map<string, Item>): (r: (string, string))
    ensures !Stored(items, CurrentUserKey) ==> r == ("", "")
    ensures Parsed(items, CurrentUserKey).None? || Parsed(items, CurrentUserKey) == Some(JNull) ==> r == ("", "")
    ensures var u := Parsed(items, CurrentUserKey);
      var name := Prop(u, "name");
      var emp := Prop(u, "employeeId");
      u.Some? && u.value != JNull ==>
        (TextOrFalsy(name) && TextOrFalsy(emp) ==> r == (Trim(TextOr(name)), Trim(TextOr(emp))))
        && (!TextOrFalsy(name) ==> r == ("", ""))
        && (TextOrFalsy(name) && !TextOrFalsy(emp) ==> r == (Trim(TextOr(name)), ""))
    ensures r.0 != "" ==> TrimOrThrow(Prop(Parsed(items, CurrentUserKey), "name")) == Some(r.0)
    ensures r.1 != "" ==> TrimOrThrow(Prop(Parsed(items, CurrentUserKey), "employeeId")) == Some(r.1)
  {
    var parsed := Parsed(items, CurrentUserKey);
    if parsed.None? || parsed.value == JNull then ("", "")
    else
      var name := TrimOrThrow(Prop(parsed, "name"));
      if name.None? then ("", "")
      else
        var emp := TrimOrThrow(Prop(parsed, "employeeId"));
        (name.value, if emp.Some? then emp.value else "")
  }

  /** Writing `learningHubid` does not change what is read from the stored user. */
  lemma UserFieldsIgnoreId(items: map<string, Item>, v: Item)
    ensures UserFields(items[LearningHubIdKey := v]) == UserFields(items)
  {
    assert Parsed(items[LearningHubIdKey := v], CurrentUserKey) == Parsed(items, CurrentUserKey);
  }

  /** The JSON body `saveProgress` posts. It names the learner `id`; the
      edge function's progress route reads `userId`. */
  datatype ProgressPost = ProgressPost(
    id: string, userName: string, employeeId: string, videoId: string,
    categoryId: string, progress: real, watchTime: real)

  /** The text fields of the posted body as a JSON object (the two numbers are
      fractional and are not carried by this integer-number JSON view). */
  function PostFields(p: ProgressPost): (r: Record)
    ensures "userId" !in r
    ensures Field(r, "id") == Some(JStr(p.id)) && Field(r, "videoId") == Some(JStr(p.videoId))
  {
    map["id" := JStr(p.id), "userName" := JStr(p.userName), "employeeId" := JStr(p.employeeId),
        "videoId" := JStr(p.videoId), "categoryId" := JStr(p.categoryId)]
  }

  /** The local half of `saveProgress`: the storage after `getId` and the
      `progress_<videoId>` write, and the body then posted. */
  function SaveLocal(items: map<string, Item>, videoId: string, categoryId: string, progress: real,
                     watchTime: real, newId: string, nowIso: string): (r: (map<string, Item>, ProgressPost))
    requires IdIsText(items) && newId != ""
    ensures var id := IdAndStorage(items, newId).0;
      var (name, emp) := UserFields(items);
      r.1 == ProgressPost(id, name, emp, videoId, categoryId, progress, watchTime)
      && r.0 == items[LearningHubIdKey := Text(id)]
           [LocalKey(videoId) := Entry(ProgressData(id, name, emp, videoId, categoryId, progress, watchTime, nowIso))]
  {
    var (id, afterId) := IdAndStorage(items, newId);
    var (name, emp) := UserFields(items);
    (afterId[LocalKey(videoId) := Entry(ProgressData(id, name, emp, videoId, categoryId, progress, watchTime, nowIso))],
     ProgressPost(id, name, emp, videoId, categoryId, progress, watchTime))
  }

  /** `saveProgress`. The local entry is written before the request, and the
      request's outcome (ok, another status, or a thrown error) is only logged,
      so the call never fails and never undoes the local write. */
  method SaveProgress(storage: LocalStorage, videoId: string, categoryId: string, progress: real,
                      watchTime: real, now: nat, random: string, nowIso: string)
    returns (posted: ProgressPost)
    requires IdIsText(storage.items)
    modifies storage
    ensures (storage.items, posted) == SaveLocal(old(storage.items), videoId, categoryId, progress, watchTime,
                                                 FreshId(now, random), nowIso)
  {
    ghost var before := storage.items;
    var id := GetId(storage, now, random);
    UserFieldsIgnoreId(before, Text(id));
    var (userName, employeeId) := UserFields(storage.items);
    storage.SetItem(LocalKey(videoId),
      Entry(ProgressData(id, userName, employeeId, videoId, categoryId, progress, watchTime, nowIso)));
    posted := ProgressPost(id, userName, employeeId, videoId, categoryId, progress, watchTime);
  }

  /** `getLocalProgress`: the entry under `progress_<videoId>`, or `None` for an
      absent key or a value that does not parse as an entry. */
  function GetLocalProgress(items: map<string, Item>, videoId: string): (r: Option<ProgressData>)
    ensures r.Some? <==> LocalKey(videoId) in items && items[LocalKey(videoId)].Entry?
    ensures r.Some? ==> items[LocalKey(videoId)] == Entry(r.value)
  {
    var k := LocalKey(videoId);
    if k in items && items[k].Entry? then Some(items[k].data) else None
  }

  /** Reading back right after saving gives exactly the saved entry. */
  lemma SaveThenRead(items: map<string, Item>, videoId: string, categoryId: string, progress: real,
                     watchTime: real, newId: string, nowIso: string)
    requires IdIsText(items) && newId != ""
    ensures var (after, p) := SaveLocal(items, videoId, categoryId, progress, watchTime, newId, nowIso);
      GetLocalProgress(after, videoId)
        == Some(ProgressData(p.id, p.userName, p.employeeId, videoId, categoryId, progress, watchTime, nowIso))
  {
  }

  /** The fallback's test for one key: a `progress_` entry whose `id` is `id`. */
  function MatchAt(items: map<string, Item>, key: string, id: string): seq<ProgressData>
  {
    if StartsWith(key, "progress_") && key in items && items[key].Entry? && items[key].data.id == id
    then [items[key].data] else []
  }

  /** The entries the fallback collects over `keys`, in key order. */
  function LocalMatches(items: map<string, Item>, keys: seq<string>, id: string): (r: seq<ProgressData>)
    ensures |r| <= |keys|
    ensures forall k :: 0 <= k < |r| ==> r[k].id == id
  {
    if keys == [] then []
    else LocalMatches(items, keys[..|keys| - 1], id) + MatchAt(items, keys[|keys| - 1], id)
  }

  /** Scanning one more key appends that key's match. */
  lemma LocalMatchesStep(items: map<string, Item>, keys: seq<string>, i: nat, id: string)
    requires i < |keys|
    ensures LocalMatches(items, keys[..i + 1], id) == LocalMatches(items, keys[..i], id) + MatchAt(items, keys[i], id)
  {
    assert keys[..i + 1][..i] == keys[..i];
  }

  /** The fallback collects exactly the `progress_` entries carrying the id. */
  lemma {:induction false} LocalMatchesExact(items: map<string, Item>, keys: seq<string>, id: string, p: ProgressData)
    ensures p in LocalMatches(items, keys, id) <==>
      exists j :: 0 <= j < |keys| && MatchAt(items, keys[j], id) == [p]
  {
    if keys != [] {
      var init := keys[..|keys| - 1];
      var last := MatchAt(items, keys[|keys| - 1], id);
      var front := LocalMatches(items, init, id);
      assert LocalMatches(items, keys, id) == front + last;
      assert p in front + last <==> p in front || p in last;
      LocalMatchesExact(items, init, id, p);
      if p in front {
        var j :| 0 <= j < |init| && MatchAt(items, init[j], id) == [p];
        assert keys[j] == init[j];
      } else if p in last {
        assert last == [p];
      }
      if exists j :: 0 <= j < |keys| && MatchAt(items, keys[j], id) == [p] {
        var j :| 0 <= j < |keys| && MatchAt(items, keys[j], id) == [p];
        if j < |init| {
          assert init[j] == keys[j];
        } else {
          assert p in last;
        }
      }
    }
  }

  /** `items` holds, under some `progress_` key, the entry `p` carrying the id. */
  predicate HoldsEntry(items: map<string, Item>, id: string, p: ProgressData)
  {
    exists key :: key in items && MatchAt(items, key, id) == [p]
  }

  /** `keys` lists every key of `items`, the `learningHubid` key aside
      (`getId` may add it; it is no `progress_` key). */
  ghost predicate ListsKeys(items: map<string, Item>, keys: seq<string>)
  {
    forall key :: key != LearningHubIdKey ==> (key in keys <==> key in items)
  }

  /** Scanning every stored key collects exactly the entries the storage
      holds for the id. */
  lemma LocalMatchesOfStorage(items: map<string, Item>, after: map<string, Item>, keys: seq<string>,
                              id: string, p: ProgressData)
    requires ListsKeys(items, keys)
    requires after == items[LearningHubIdKey := Text(id)] || after == items
    ensures p in LocalMatches(after, keys, id) <==> HoldsEntry(after, id, p)
  {
    LocalMatchesExact(after, keys, id, p);
    if p in LocalMatches(after, keys, id) {
      var j :| 0 <= j < |keys| && MatchAt(after, keys[j], id) == [p];
      assert keys[j] in after;
    }
    if HoldsEntry(after, id, p) {
      var key :| key in after && MatchAt(after, key, id) == [p];
      ListedEntryKey(items, after, keys, id, key);
    }
  }

  /** A stored `progress_` key is one of the listed keys. */
  lemma ListedEntryKey(items: map<string, Item>, after: map<string, Item>, keys: seq<string>, id: string, key: string)
    requires ListsKeys(items, keys)
    requires after == items[LearningHubIdKey := Text(id)] || after == items
    requires key in after && StartsWith(key, "progress_")
    ensures key in keys
  {
    assert key != LearningHubIdKey by {
      assert key[0] == 'p' && LearningHubIdKey[0] == 'l';
    }
    assert key in items;
  }

  /** The fallback's scan: the keys in enumeration order, keeping the
      `progress_` entries whose `id` is the learner's. */
  method CollectLocal(items: map<string, Item>, keys: seq<string>, id: string) returns (found: seq<ProgressData>)
    ensures found == LocalMatches(items, keys, id)
  {
    found := [];
    var i := 0;
    while i < |keys|
      invariant 0 <= i <= |keys|
      invariant found == LocalMatches(items, keys[..i], id)
    {
      var key := keys[i];
      if StartsWith(key, "progress_") && key in items {
        var item := items[key];
        if item.Entry? && item.data.id == id {
          found := found + [item.data];
        }
      }
      LocalMatchesStep(items, keys, i, id);
      i := i + 1;
    }
    assert keys[..|keys|] == keys;
  }

  /** What `getUserProgress` returns: the server's list, or the local entries. */
  datatype UserProgress = Remote(list: Json) | LocalFallback(entries: seq<ProgressData>)

  /** `getUserProgress`. `response` is the parsed reply body, `None` when the
      request or `response.json()` threw; `keys` is the order in which
      `localStorage.key(i)` enumerates the stored keys. The fallback holds
      exactly the stored entries that carry the learner's id. */
  method GetUserProgress(storage: LocalStorage, response: Option<Json>, keys: seq<string>, now: nat, random: string)
    returns (r: UserProgress)
    requires IdIsText(storage.items)
    requires ListsKeys(storage.items, keys)
    modifies storage
    ensures var (id, after) := IdAndStorage(old(storage.items), FreshId(now, random));
      storage.items == after
      && (response.Some? && response.value != JNull ==> r == Remote(Or(Prop(response, "progress"), JArr([]))))
      && (response.None? || response.value == JNull ==> r == LocalFallback(LocalMatches(after, keys, id)))
    ensures var (id, after) := IdAndStorage(old(storage.items), FreshId(now, random));
      response.None? || response.value == JNull ==>
        r.LocalFallback? && forall p :: p in r.entries <==> HoldsEntry(after, id, p)
  {
    ghost var before := storage.items;
    var id := GetId(storage, now, random);
    if response.Some? && response.value != JNull {
      return Remote(Or(Prop(response, "progress"), JArr([])));
    }
    var found := CollectLocal(storage.items, keys, id);
    r := LocalFallback(found);
    forall p ensures p in r.entries <==> HoldsEntry(storage.items, id, p) {
      LocalMatchesOfStorage(before, storage.items, keys, id, p);
    }
  }
}
