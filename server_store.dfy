/** The edge-function handlers of supabase/functions/make-server-a8898ff1/index.ts
    as transformations of the lists they keep in the key-value store.
    Each handler reads one list (or nothing) under a key, edits it and writes it
    back; the list edits are functions here, and `KvStore` holds the store. */
module ServerStore {
  import opened Common
  import opened Text
  import opened Json
  import opened Http

  const AdminsKey: string := "admins_list"
  const CategoriesKey: string := "education_categories"
  const UsersKey: string := "users_list"

  function VideosKey(categoryId: string): string { "videos_" + categoryId }

  /** `a === b` for values read from JSON: primitives compare by value,
      objects and arrays are never identical to a separately parsed value. */
  predicate StrictEq(a: Option<Json>, b: Option<Json>)
  {
    a == b && !(a.Some? && (a.value.JArr? || a.value.JObj?))
  }

  /** `r.id === id` */
  predicate HasId(r: Record, id: Option<Json>) { StrictEq(Field(r, "id"), id) }

  /** `list.findIndex(r => r.id === id)` */
  function FindIndex(list: seq<Record>, id: Option<Json>): (i: int)
    ensures -1 <= i < |list|
    ensures i == -1 <==> forall k :: 0 <= k < |list| ==> !HasId(list[k], id)
    ensures i >= 0 ==> HasId(list[i], id) && forall k :: 0 <= k < i ==> !HasId(list[k], id)
  {
    if list == [] then -1
    else if HasId(list[0], id) then 0
    else
      var j := FindIndex(list[1..], id);
      if j == -1 then -1 else j + 1
  }

  /** `list.filter(r => r.id !== id)` */
  function RemoveAll(list: seq<Record>, id: Option<Json>): (r: seq<Record>)
    ensures |r| <= |list|
    ensures forall k :: 0 <= k < |r| ==> !HasId(r[k], id)
  {
    if list == [] then []
    else (if HasId(list[0], id) then [] else [list[0]]) + RemoveAll(list[1..], id)
  }

  /** Filtering keeps exactly the entries without the id: nothing new appears
      and nothing else is lost. */
  lemma {:induction false} RemoveAllKeeps(list: seq<Record>, id: Option<Json>)
    ensures forall x :: x in RemoveAll(list, id) <==> x in list && !HasId(x, id)
  {
    if list != [] {
      RemoveAllKeeps(list[1..], id);
      var h := if HasId(list[0], id) then [] else [list[0]];
      assert RemoveAll(list, id) == h + RemoveAll(list[1..], id);
      assert forall x :: x in list <==> x == list[0] || x in list[1..];
    }
  }

  /** Filtering distributes over concatenation, so the survivors keep their order. */
  lemma {:induction false} RemoveAllAppend(a: seq<Record>, b: seq<Record>, id: Option<Json>)
    ensures RemoveAll(a + b, id) == RemoveAll(a, id) + RemoveAll(b, id)
  {
    if a == [] {
      assert a + b == b;
    } else {
      assert (a + b)[0] == a[0];
      assert (a + b)[1..] == a[1..] + b;
      RemoveAllAppend(a[1..], b, id);
    }
  }

  /** Deleting an id that is not there leaves the list as it was. */
  lemma {:induction false} RemoveAllAbsent(list: seq<Record>, id: Option<Json>)
    requires FindIndex(list, id) == -1
    ensures RemoveAll(list, id) == list
  {
    if list != [] {
      RemoveAllAbsent(list[1..], id);
    }
  }

  /** `list.splice(i, 1)` */
  function RemoveAt(list: seq<Record>, i: nat): (r: seq<Record>)
    requires i < |list|
    ensures |r| == |list| - 1
    ensures forall k :: 0 <= k < i ==> r[k] == list[k]
    ensures forall k :: i <= k < |r| ==> r[k] == list[k + 1]
    ensures multiset(r) + multiset{list[i]} == multiset(list)
  {
    assert list == list[..i] + [list[i]] + list[i + 1..];
    list[..i] + list[i + 1..]
  }

  /** Find by id, then `list[idx] = { ...list[idx], ...patch }`; `None` is the 404 branch. */
  function UpdateById(list: seq<Record>, id: Option<Json>, patch: Record): (r: Option<seq<Record>>)
    ensures r.None? <==> forall k :: 0 <= k < |list| ==> !HasId(list[k], id)
    ensures r.Some? ==> |r.value| == |list|
    ensures r.Some? ==> var i := FindIndex(list, id);
      r.value[i] == Merge(list[i], patch) && forall k :: 0 <= k < |list| && k != i ==> r.value[k] == list[k]
  {
    var i := FindIndex(list, id);
    if i == -1 then None else Some(list[i := Merge(list[i], patch)])
  }

  // ---------------------------------------------------------------- admins

  /** The list `migrateAdminsToList` writes, if any: it acts only when the
      admin list is absent or empty and the legacy `admin_*` entries are not. */
  function MigratedAdmins(current: Option<seq<Record>>, legacy: seq<Record>): (r: Option<seq<Record>>)
    ensures r.Some? <==> (current.None? || current.value == []) && legacy != []
    ensures r.Some? ==> r.value == legacy
  {
    if current.Some? && |current.value| > 0 then None
    else if |legacy| > 0 then Some(legacy)
    else None
  }

  function DefaultAdmin(nowIso: string): (r: Record)
    ensures Field(r, "employeeId") == Some(JStr("ADMIN001"))
    ensures Field(r, "isMainAdmin") == Some(JBool(true))
  {
    map[
      "id" := JStr("admin_001"),
      "name" := JStr("시스템 관리자"),
      "employeeId" := JStr("ADMIN001"),
      "password" := JStr("admin123!"),
      "isMainAdmin" := JBool(true),
      "createdAt" := JStr(nowIso)
    ]
  }

  /** The admin list after the seeding step of `initializeDefaultAdmin`. */
  function SeededAdmins(admins: seq<Record>, nowIso: string): (r: seq<Record>)
    ensures admins == [] ==> r == [DefaultAdmin(nowIso)]
    ensures admins != [] ==> r == admins
  {
    if |admins| == 0 then [DefaultAdmin(nowIso)] else admins
  }

  /** Seeding twice is seeding once: the second run finds a non-empty list. */
  lemma SeedingIdempotent(admins: seq<Record>, t1: string, t2: string)
    ensures SeededAdmins(SeededAdmins(admins, t1), t2) == SeededAdmins(admins, t1)
  {
  }

  /** `a?.employeeId === employeeId && a?.password === password` */
  predicate Credentials(a: Record, employeeId: Option<Json>, password: Option<Json>)
  {
    StrictEq(Field(a, "employeeId"), employeeId) && StrictEq(Field(a, "password"), password)
  }

  /** `admins.find(...)` as an index: the first admin whose credentials match. */
  function FindLogin(admins: seq<Record>, employeeId: Option<Json>, password: Option<Json>): (i: int)
    ensures -1 <= i < |admins|
    ensures i == -1 <==> forall k :: 0 <= k < |admins| ==> !Credentials(admins[k], employeeId, password)
    ensures i >= 0 ==> Credentials(admins[i], employeeId, password)
    ensures i >= 0 ==> forall k :: 0 <= k < i ==> !Credentials(admins[k], employeeId, password)
  {
    if admins == [] then -1
    else if Credentials(admins[0], employeeId, password) then 0
    else
      var j := FindLogin(admins[1..], employeeId, password);
      if j == -1 then -1 else j + 1
  }

  /** The admin object the login reply carries: id, name, employeeId and
      isMainAdmin, where present, and never the password. */
  function PublicView(a: Record): (r: Record)
    ensures "password" !in r
    ensures forall k :: k in r <==> k in a && k in ["id", "name", "employeeId", "isMainAdmin"]
    ensures forall k :: k in r ==> r[k] == a[k]
  {
    map k | k in a && k in ["id", "name", "employeeId", "isMainAdmin"] :: a[k]
  }

  /** `{ ...body, id: body.id || \`admin_${Date.now()}\`, createdAt }` */
  function NewAdmin(body: Record, now: nat, nowIso: string): (r: Record)
    ensures Truthy(Field(body, "id")) ==> Field(r, "id") == Field(body, "id")
    ensures !Truthy(Field(body, "id")) ==> Field(r, "id") == Some(JStr("admin_" + NatToString(now)))
    ensures Field(r, "createdAt") == Some(JStr(nowIso))
    ensures forall k :: k in body && k != "id" && k != "createdAt" ==> k in r && r[k] == body[k]
  {
    Merge(body, map["id" := Or(Field(body, "id"), JStr("admin_" + NatToString(now))), "createdAt" := JStr(nowIso)])
  }

  // ---------------------------------------------------------------- videos

  /** `{ ...video, id: \`${categoryId}_${Date.now()}\`, createdAt }` */
  function NewVideo(video: Record, categoryId: string, now: nat, nowIso: string): (r: Record)
    ensures Field(r, "id") == Some(JStr(categoryId + "_" + NatToString(now)))
    ensures Field(r, "createdAt") == Some(JStr(nowIso))
    ensures forall k :: k in video && k != "id" && k != "createdAt" ==> k in r && r[k] == video[k]
  {
    Merge(video, map["id" := JStr(categoryId + "_" + NatToString(now)), "createdAt" := JStr(nowIso)])
  }

  /** The patch the video update merges: the body, then the path id and the time. */
  function VideoPatch(body: Record, videoId: string, nowIso: string): (r: Record)
    ensures Field(r, "id") == Some(JStr(videoId)) && Field(r, "updatedAt") == Some(JStr(nowIso))
    ensures forall k :: k in body && k != "id" && k != "updatedAt" ==> k in r && r[k] == body[k]
  {
    Merge(body, map["id" := JStr(videoId), "updatedAt" := JStr(nowIso)])
  }

  /** Video update: 404 (`None`) for an unknown id; otherwise only the first
      match changes, and it keeps the path id whatever the body says. */
  lemma UpdateVideoKeepsId(list: seq<Record>, videoId: string, body: Record, nowIso: string)
    requires UpdateById(list, Some(JStr(videoId)), VideoPatch(body, videoId, nowIso)).Some?
    ensures var r := UpdateById(list, Some(JStr(videoId)), VideoPatch(body, videoId, nowIso)).value;
      var i := FindIndex(list, Some(JStr(videoId)));
      r[i]["id"] == JStr(videoId) && HasId(r[i], Some(JStr(videoId)))
  {
  }

  /** Video delete removes only the first match: a second entry with the same
      id survives, where the category and admin delete would remove both. */
  lemma VideoDeleteRemovesOne(a: Record, b: Record, id: string)
    requires HasId(a, Some(JStr(id))) && HasId(b, Some(JStr(id)))
    ensures FindIndex([a, b], Some(JStr(id))) == 0
    ensures RemoveAt([a, b], 0) == [b]
    ensures RemoveAll([a, b], Some(JStr(id))) == []
  {
  }

  /** How the storage upload of `upload-video` ended: the signed URL then
      asked for (which may be missing), or the storage error's message. */
  datatype VideoStorage = StoredVideo(signedUrl: Option<string>) | StorageError(message: string)

  /** `upload-video`, for a request with or without an `Authorization` header
      and the multipart body `form`: the file must come in the field `file`
      and the category in `categoryId`. The success reply names the signed URL
      `url`, and leaves it out when there is none. */
  function UploadVideoReply(authorised: bool, form: MultipartForm, storage: VideoStorage): (r: (int, Record))
    ensures !authorised ==> r == (401, map["error" := JStr("인증이 필요합니다.")])
    ensures authorised && !("file" in form && form["file"].FileValue?) ==>
      r == (400, map["error" := JStr("파일이 필요합니다.")])
    ensures r.0 == 200 <==>
      authorised && "file" in form && form["file"].FileValue?
      && "categoryId" in form && form["categoryId"] != TextValue("") && storage.StoredVideo?
    ensures r.0 == 200 ==>
      "success" in r.1 && r.1.Keys <= {"success", "url"} && r.1["success"] == JBool(true)
      && Field(r.1, "url") == (if storage.signedUrl.Some? then Some(JStr(storage.signedUrl.value)) else None)
    ensures r.0 != 200 ==> r.1.Keys == {"error"}
  {
    if !authorised then (401, map["error" := JStr("인증이 필요합니다.")])
    else if !("file" in form && form["file"].FileValue?) then (400, map["error" := JStr("파일이 필요합니다.")])
    else if !("categoryId" in form && form["categoryId"] != TextValue("")) then
      (400, map["error" := JStr("categoryId가 필요합니다.")])
    else match storage
      case StorageError(message) => (500, map["error" := JStr(message)])
      case StoredVideo(url) =>
        (200, map["success" := JBool(true)] + if url.Some? then map["url" := JStr(url.value)] else map[])
  }

  // ---------------------------------------------------------------- users

  /** The user object the upsert stores: `createdAt` comes from the existing
      entry (absent when it had none), or is the current time for a new user. */
  function UserRecord(userId: Json, name: Json, employeeId: Json, department: Option<Json>,
                      existing: Option<Record>, nowIso: string): (r: Record)
    ensures Field(r, "id") == Some(userId) && Field(r, "name") == Some(name)
    ensures Field(r, "employeeId") == Some(employeeId)
    ensures Field(r, "department") == Some(Or(department, JStr("")))
    ensures Field(r, "updatedAt") == Some(JStr(nowIso))
    ensures existing.None? ==> Field(r, "createdAt") == Some(JStr(nowIso))
    ensures existing.Some? ==> Field(r, "createdAt") == Field(existing.value, "createdAt")
  {
    var base := map[
      "id" := userId, "name" := name, "employeeId" := employeeId,
      "department" := Or(department, JStr("")), "updatedAt" := JStr(nowIso)];
    var created := if existing.None? then Some(JStr(nowIso)) else Field(existing.value, "createdAt");
    if created.Some? then base["createdAt" := created.value] else base
  }

  /** The users list after an upsert with an id that passed validation. */
  function UpsertUsers(users: seq<Record>, userId: Json, name: Json, employeeId: Json,
                       department: Option<Json>, nowIso: string): (r: seq<Record>)
    ensures var i := FindIndex(users, Some(userId));
      if i == -1 then r == users + [UserRecord(userId, name, employeeId, department, None, nowIso)]
      else r == users[i := UserRecord(userId, name, employeeId, department, Some(users[i]), nowIso)]
    ensures |users| <= |r| <= |users| + 1
  {
    var i := FindIndex(users, Some(userId));
    var existing := if i == -1 then None else Some(users[i]);
    var u := UserRecord(userId, name, employeeId, department, existing, nowIso);
    if i == -1 then users + [u] else users[i := u]
  }

  /** Upserting the same user again replaces the entry in place: the list does
      not grow, and the first `createdAt` survives. */
  lemma UpsertTwiceKeepsCreatedAt(users: seq<Record>, userId: Json, name: Json, employeeId: Json,
                                  d1: Option<Json>, d2: Option<Json>, t1: string, t2: string)
    requires !userId.JArr? && !userId.JObj?
    ensures var once := UpsertUsers(users, userId, name, employeeId, d1, t1);
      var twice := UpsertUsers(once, userId, name, employeeId, d2, t2);
      var i := FindIndex(once, Some(userId));
      |twice| == |once| && 0 <= i
      && Field(twice[i], "createdAt") == Field(once[i], "createdAt")
  {
    var once := UpsertUsers(users, userId, name, employeeId, d1, t1);
    var i0 := FindIndex(users, Some(userId));
    var j := if i0 == -1 then |users| else i0;
    assert HasId(once[j], Some(userId));
  }

  // ---------------------------------------------------------------- progress

  /** `progress_${userId}_${videoId}` */
  function ProgressKey(userId: Option<Json>, videoId: Option<Json>): string
  {
    "progress_" + Show(userId) + "_" + Show(videoId)
  }

  /** A property in an object literal: a value of `undefined` leaves no property. */
  function Put(m: Record, k: string, v: Option<Json>): (r: Record)
    ensures v.None? ==> r == m
    ensures v.Some? ==> Field(r, k) == v
    ensures forall j :: j != k ==> Field(r, j) == Field(m, j)
  {
    if v.Some? then m[k := v.value] else m
  }

  /** `typeof v === 'number'` */
  predicate IsNumber(v: Option<Json>) { v.Some? && v.value.JNum? }

  /** The record the progress POST stores for a body that passed validation. */
  function ProgressRecord(body: Record, nowIso: string): Record
  {
    var w := Field(body, "watchTime");
    var fixed := map[
      "userName" := Or(Field(body, "userName"), JStr("")),
      "employeeId" := Or(Field(body, "employeeId"), JStr("")),
      "watchTime" := if IsNumber(w) then w.value else JNum(0),
      "lastWatched" := JStr(nowIso),
      "updatedAt" := JStr(nowIso)];
    Put(Put(Put(Put(fixed, "userId", Field(body, "userId")), "videoId", Field(body, "videoId")),
            "categoryId", Field(body, "categoryId")), "progress", Field(body, "progress"))
  }

  /** The stored record copies userId, videoId, categoryId and progress as sent,
      defaults userName and employeeId to `''`, turns a non-number watchTime
      into 0, and stamps both times with now. */
  lemma ProgressRecordFields(body: Record, nowIso: string)
    ensures var r := ProgressRecord(body, nowIso);
      Field(r, "userId") == Field(body, "userId") && Field(r, "videoId") == Field(body, "videoId")
      && Field(r, "categoryId") == Field(body, "categoryId") && Field(r, "progress") == Field(body, "progress")
      && Field(r, "userName") == Some(Or(Field(body, "userName"), JStr("")))
      && Field(r, "employeeId") == Some(Or(Field(body, "employeeId"), JStr("")))
      && (IsNumber(Field(body, "watchTime")) ==> Field(r, "watchTime") == Field(body, "watchTime"))
      && (!IsNumber(Field(body, "watchTime")) ==> Field(r, "watchTime") == Some(JNum(0)))
      && Field(r, "lastWatched") == Some(JStr(nowIso)) && Field(r, "updatedAt") == Some(JStr(nowIso))
  {
    CopiedFields(body, nowIso);
    DefaultedFields(body, nowIso);
    StampedFields(body, nowIso);
  }

  lemma CopiedFields(body: Record, nowIso: string)
    ensures var r := ProgressRecord(body, nowIso);
      Field(r, "userId") == Field(body, "userId") && Field(r, "videoId") == Field(body, "videoId")
      && Field(r, "categoryId") == Field(body, "categoryId") && Field(r, "progress") == Field(body, "progress")
  {
  }

  lemma DefaultedFields(body: Record, nowIso: string)
    ensures var r := ProgressRecord(body, nowIso);
      Field(r, "userName") == Some(Or(Field(body, "userName"), JStr("")))
      && Field(r, "employeeId") == Some(Or(Field(body, "employeeId"), JStr("")))
      && (IsNumber(Field(body, "watchTime")) ==> Field(r, "watchTime") == Field(body, "watchTime"))
      && (!IsNumber(Field(body, "watchTime")) ==> Field(r, "watchTime") == Some(JNum(0)))
  {
  }

  lemma StampedFields(body: Record, nowIso: string)
    ensures var r := ProgressRecord(body, nowIso);
      Field(r, "lastWatched") == Some(JStr(nowIso)) && Field(r, "updatedAt") == Some(JStr(nowIso))
  {
  }

  /** Outcome of the progress POST on the progress records: 400 without a
      userId or videoId, otherwise the record is written under its key. */
  function PostProgress(records: map<string, Record>, body: Record, nowIso: string): (r: (int, map<string, Record>))
    ensures !Truthy(Field(body, "userId")) || !Truthy(Field(body, "videoId")) ==> r == (400, records)
    ensures Truthy(Field(body, "userId")) && Truthy(Field(body, "videoId")) ==>
      r.0 == 200 && r.1 == records[ProgressKey(Field(body, "userId"), Field(body, "videoId")) := ProgressRecord(body, nowIso)]
  {
    if !Truthy(Field(body, "userId")) || !Truthy(Field(body, "videoId")) then (400, records)
    else (200, records[ProgressKey(Field(body, "userId"), Field(body, "videoId")) := ProgressRecord(body, nowIso)])
  }

  /** A second post for the same (userId, videoId) overwrites the first: the
      store is as if only the second had been posted. */
  lemma {:induction false} SecondPostOverwrites(records: map<string, Record>, b1: Record, b2: Record, t1: string, t2: string)
    requires Truthy(Field(b1, "userId")) && Truthy(Field(b1, "videoId"))
    requires Field(b1, "userId") == Field(b2, "userId") && Field(b1, "videoId") == Field(b2, "videoId")
    ensures PostProgress(PostProgress(records, b1, t1).1, b2, t2) == PostProgress(records, b2, t2)
  {
    var k := ProgressKey(Field(b1, "userId"), Field(b1, "videoId"));
    assert records[k := ProgressRecord(b1, t1)][k := ProgressRecord(b2, t2)] == records[k := ProgressRecord(b2, t2)];
  }

  /** The key-value table the handlers share. List-valued keys and the
      single-record progress keys are kept apart. */
  /** The handlers that read a request body with `await c.req.json()`. */
  datatype BodyRoute =
    | Login
    | AdminCreate
    | AdminUpdate(id: string)
    | CategoryCreate
    | CategoryUpdate(id: string)
    | VideoCreate
    | VideoUpdate(categoryId: string, videoId: string)
    | UserUpsert
    | ProgressPost

  /** The error each of those handlers' `catch` answers with, status 500. */
  function CatchMessage(route: BodyRoute): string
  {
    match route
    case Login => "로그인 중 오류가 발생했습니다."
    case AdminCreate => "관리자 생성 중 오류가 발생했습니다."
    case AdminUpdate(_) => "관리자 수정 중 오류가 발생했습니다."
    case CategoryCreate => "카테고리 생성 중 오류가 발생했습니다."
    case CategoryUpdate(_) => "카테고리 수정 중 오류가 발생했습니다."
    case VideoCreate => "비디오 생성 중 오류가 발생했습니다."
    case VideoUpdate(_, _) => "비디오 수정 중 오류가 발생했습니다."
    case UserUpsert => "사용자 정보 저장 중 오류가 발생했습니다."
    case ProgressPost => "진행률 저장 중 오류가 발생했습니다."
  }

  /** Whether the handler throws on its body (`None` is text that is no JSON):
      always when it does not parse, and on `null` where the handler
      destructures the body or reads one of its properties. Spreading `null`
      and pushing it do not throw. */
  predicate BodyThrows(route: BodyRoute, body: Option<Json>)
  {
    body.None?
    || (body.value == JNull && (route.Login? || route.AdminCreate? || route.VideoCreate? || route.UserUpsert? || route.ProgressPost?))
  }

  class KvStore {
    var lists: map<string, seq<Record>>
    var records: map<string, Record>

    constructor ()
      ensures lists == map[] && records == map[]
    {
      lists := map[];
      records := map[];
    }

    /** `(await kv.get(key)) || []` */
    function List(key: string): (r: seq<Record>)
      reads this
      ensures key in lists ==> r == lists[key]
      ensures key !in lists ==> r == []
    {
      if key in lists then lists[key] else []
    }

    /** `getAdmins` */
    method GetAdmins() returns (admins: seq<Record>)
      ensures admins == List(AdminsKey)
    {
      admins := List(AdminsKey);
    }

    /** `migrateAdminsToList`; `legacy` is what `kv.getByPrefix("admin_")` returned. */
    method MigrateAdminsToList(legacy: seq<Record>)
      modifies this
      ensures records == old(records)
      ensures var m := MigratedAdmins(if AdminsKey in old(lists) then Some(old(lists)[AdminsKey]) else None, legacy);
        lists == if m.Some? then old(lists)[AdminsKey := m.value] else old(lists)
    {
      var current := if AdminsKey in lists then Some(lists[AdminsKey]) else None;
      if current.Some? && |current.value| > 0 {
        return;
      }
      if |legacy| > 0 {
        lists := lists[AdminsKey := legacy];
      }
    }

    /** `initializeDefaultAdmin`: migrate, then seed the default admin into an empty list. */
    method InitializeDefaultAdmin(legacy: seq<Record>, nowIso: string)
      modifies this
      ensures records == old(records)
      ensures List(AdminsKey) != []
      ensures old(List(AdminsKey)) != [] ==> lists == old(lists)
      ensures old(List(AdminsKey)) == [] && legacy == [] ==> List(AdminsKey) == [DefaultAdmin(nowIso)]
      ensures old(List(AdminsKey)) == [] && legacy != [] ==> List(AdminsKey) == legacy
    {
      MigrateAdminsToList(legacy);
      var admins := GetAdmins();
      if |admins| == 0 {
        lists := lists[AdminsKey := SeededAdmins(admins, nowIso)];
      }
    }

    /** POST admin/login: 401 unless some admin matches both fields; the reply
        is the first match without its password. */
    method AdminLogin(employeeId: Option<Json>, password: Option<Json>, legacy: seq<Record>)
      returns (status: int, admin: Option<Record>)
      modifies this
      ensures records == old(records)
      ensures var m := MigratedAdmins(if AdminsKey in old(lists) then Some(old(lists)[AdminsKey]) else None, legacy);
        lists == if m.Some? then old(lists)[AdminsKey := m.value] else old(lists)
      ensures var admins := if old(List(AdminsKey)) != [] then old(List(AdminsKey)) else legacy;
        var i := FindLogin(admins, employeeId, password);
        (i == -1 ==> status == 401 && admin.None?)
        && (i >= 0 ==> status == 200 && admin == Some(PublicView(admins[i])))
    {
      MigrateAdminsToList(legacy);
      var admins := GetAdmins();
      var i := FindLogin(admins, employeeId, password);
      if i == -1 {
        return 401, None;
      }
      return 200, Some(PublicView(admins[i]));
    }

    /** POST admin/create: append the new admin. */
    method CreateAdmin(body: Record, now: nat, nowIso: string) returns (status: int)
      modifies this
      ensures status == 200 && records == old(records)
      ensures lists == old(lists)[AdminsKey := old(List(AdminsKey)) + [NewAdmin(body, now, nowIso)]]
    {
      var admins := GetAdmins();
      lists := lists[AdminsKey := admins + [NewAdmin(body, now, nowIso)]];
      status := 200;
    }

    /** PUT admin/update/:id and PUT categories/:id: shallow merge into the first
        entry with that id, or 404 with nothing written. */
    method UpdateEntry(key: string, id: string, body: Record) returns (status: int)
      modifies this
      ensures records == old(records)
      ensures var u := UpdateById(old(List(key)), Some(JStr(id)), body);
        (u.None? ==> status == 404 && lists == old(lists))
        && (u.Some? ==> status == 200 && lists == old(lists)[key := u.value])
    {
      var list := List(key);
      var idx := FindIndex(list, Some(JStr(id)));
      if idx == -1 {
        return 404;
      }
      list := list[idx := Merge(list[idx], body)];
      lists := lists[key := list];
      status := 200;
    }

    method UpdateAdmin(id: string, body: Record) returns (status: int)
      modifies this
      ensures records == old(records)
      ensures var u := UpdateById(old(List(AdminsKey)), Some(JStr(id)), body);
        (u.None? ==> status == 404 && lists == old(lists))
        && (u.Some? ==> status == 200 && lists == old(lists)[AdminsKey := u.value])
    {
      status := UpdateEntry(AdminsKey, id, body);
    }

    /** DELETE admin/delete/:id: every entry with the id goes; 200 even when none did. */
    method DeleteAdmin(id: string) returns (status: int)
      modifies this
      ensures status == 200 && records == old(records)
      ensures lists == old(lists)[AdminsKey := RemoveAll(old(List(AdminsKey)), Some(JStr(id)))]
    {
      var admins := GetAdmins();
      lists := lists[AdminsKey := RemoveAll(admins, Some(JStr(id)))];
      status := 200;
    }

    /** POST categories: append the body. */
    method CreateCategory(body: Record) returns (status: int)
      modifies this
      ensures status == 200 && records == old(records)
      ensures lists == old(lists)[CategoriesKey := old(List(CategoriesKey)) + [body]]
    {
      var categories := List(CategoriesKey);
      lists := lists[CategoriesKey := categories + [body]];
      status := 200;
    }

    method UpdateCategory(id: string, update: Record) returns (status: int)
      modifies this
      ensures records == old(records)
      ensures var u := UpdateById(old(List(CategoriesKey)), Some(JStr(id)), update);
        (u.None? ==> status == 404 && lists == old(lists))
        && (u.Some? ==> status == 200 && lists == old(lists)[CategoriesKey := u.value])
    {
      status := UpdateEntry(CategoriesKey, id, update);
    }

    /** DELETE categories/:id */
    method DeleteCategory(id: string) returns (status: int)
      modifies this
      ensures status == 200 && records == old(records)
      ensures lists == old(lists)[CategoriesKey := RemoveAll(old(List(CategoriesKey)), Some(JStr(id)))]
    {
      var categories := List(CategoriesKey);
      lists := lists[CategoriesKey := RemoveAll(categories, Some(JStr(id)))];
      status := 200;
    }

    /** POST videos with body `{ categoryId, video }`: 400 unless both are present. */
    method CreateVideo(body: Record, now: nat, nowIso: string) returns (status: int, created: Option<Record>)
      modifies this
      ensures records == old(records)
      ensures var cat := Field(body, "categoryId"); var video := Field(body, "video");
        (!Truthy(cat) || !Truthy(video) ==> status == 400 && created.None? && lists == old(lists))
        && (Truthy(cat) && Truthy(video) ==>
              var v := NewVideo(Spread(video.value), Show(cat), now, nowIso);
              status == 200 && created == Some(v)
              && lists == old(lists)[VideosKey(Show(cat)) := old(List(VideosKey(Show(cat)))) + [v]])
    {
      var cat := Field(body, "categoryId");
      var video := Field(body, "video");
      if !Truthy(cat) || !Truthy(video) {
        return 400, None;
      }
      var v := NewVideo(Spread(video.value), Show(cat), now, nowIso);
      var key := VideosKey(Show(cat));
      var existing := List(key);
      lists := lists[key := existing + [v]];
      return 200, Some(v);
    }

    /** PUT videos/:categoryId/:videoId */
    method UpdateVideo(categoryId: string, videoId: string, body: Record, nowIso: string) returns (status: int)
      modifies this
      ensures records == old(records)
      ensures var key := VideosKey(categoryId);
        var u := UpdateById(old(List(key)), Some(JStr(videoId)), VideoPatch(body, videoId, nowIso));
        (u.None? ==> status == 404 && lists == old(lists))
        && (u.Some? ==> status == 200 && lists == old(lists)[key := u.value])
    {
      var key := VideosKey(categoryId);
      var existing := List(key);
      var idx := FindIndex(existing, Some(JStr(videoId)));
      if idx == -1 {
        return 404;
      }
      existing := existing[idx := Merge(existing[idx], VideoPatch(body, videoId, nowIso))];
      lists := lists[key := existing];
      status := 200;
    }

    /** DELETE videos/:categoryId/:videoId: splice out the first match, or 404. */
    method DeleteVideo(categoryId: string, videoId: string) returns (status: int)
      modifies this
      ensures records == old(records)
      ensures var key := VideosKey(categoryId);
        var i := FindIndex(old(List(key)), Some(JStr(videoId)));
        (i == -1 ==> status == 404 && lists == old(lists))
        && (i >= 0 ==> status == 200 && lists == old(lists)[key := RemoveAt(old(List(key)), i)])
    {
      var key := VideosKey(categoryId);
      var existing := List(key);
      var idx := FindIndex(existing, Some(JStr(videoId)));
      if idx == -1 {
        return 404;
      }
      lists := lists[key := RemoveAt(existing, idx)];
      status := 200;
    }

    /** POST users: 400 unless userId, name and employeeId are all present. */
    method UpsertUser(body: Record, nowIso: string) returns (status: int, user: Option<Record>)
      modifies this
      ensures records == old(records)
      ensures var id := Field(body, "userId"); var name := Field(body, "name"); var emp := Field(body, "employeeId");
        (!Truthy(id) || !Truthy(name) || !Truthy(emp) ==> status == 400 && user.None? && lists == old(lists))
        && (Truthy(id) && Truthy(name) && Truthy(emp) ==>
              status == 200 && user.Some?
              && lists == old(lists)[UsersKey := UpsertUsers(old(List(UsersKey)), id.value, name.value, emp.value,
                                                            Field(body, "department"), nowIso)])
      ensures var id := Field(body, "userId"); var name := Field(body, "name"); var emp := Field(body, "employeeId");
        var i := FindIndex(old(List(UsersKey)), id);
        Truthy(id) && Truthy(name) && Truthy(emp) ==>
          user == Some(UserRecord(id.value, name.value, emp.value, Field(body, "department"),
                                  if i == -1 then None else Some(old(List(UsersKey))[i]), nowIso))
          && user.value == List(UsersKey)[if i == -1 then |old(List(UsersKey))| else i]
    {
      var id := Field(body, "userId");
      var name := Field(body, "name");
      var emp := Field(body, "employeeId");
      if !Truthy(id) || !Truthy(name) || !Truthy(emp) {
        return 400, None;
      }
      var users := List(UsersKey);
      var idx := FindIndex(users, id);
      assert idx == -1 || 0 <= idx < |users|;
      var existing := if idx == -1 then None else Some(users[idx]);
      var userData := UserRecord(id.value, name.value, emp.value, Field(body, "department"), existing, nowIso);
      if idx == -1 {
        users := users + [userData];
      } else {
        users := users[idx := userData];
      }
      lists := lists[UsersKey := users];
      return 200, Some(userData);
    }

    /** POST progress */
    method PostProgressHandler(body: Record, nowIso: string) returns (status: int)
      modifies this
      ensures lists == old(lists)
      ensures (status, records) == PostProgress(old(records), body, nowIso)
    {
      var userId := Field(body, "userId");
      var videoId := Field(body, "videoId");
      if !Truthy(userId) || !Truthy(videoId) {
        return 400;
      }
      records := records[ProgressKey(userId, videoId) := ProgressRecord(body, nowIso)];
      status := 200;
    }

    /** A request to a handler that reads a body: a body it throws on gets 500
        with the handler's own message before anything is read or written;
        any other body goes to the handler as the object it spreads to, and
        the answer, the reply record and the new store are that handler's. */
    method Dispatch(route: BodyRoute, body: Option<Json>, legacy: seq<Record>, now: nat, nowIso: string)
      returns (status: int, error: Option<string>, reply: Option<Record>)
      modifies this
      ensures BodyThrows(route, body) ==>
        status == 500 && error == Some(CatchMessage(route)) && reply.None?
        && lists == old(lists) && records == old(records)
      ensures !BodyThrows(route, body) ==> status != 500 && error.None?
      ensures !BodyThrows(route, body) && route.Login? ==>
        var m := MigratedAdmins(if AdminsKey in old(lists) then Some(old(lists)[AdminsKey]) else None, legacy);
        var admins := if old(List(AdminsKey)) != [] then old(List(AdminsKey)) else legacy;
        var i := FindLogin(admins, Prop(body, "employeeId"), Prop(body, "password"));
        records == old(records) && lists == (if m.Some? then old(lists)[AdminsKey := m.value] else old(lists))
        && (i == -1 ==> status == 401 && reply.None?)
        && (i >= 0 ==> status == 200 && reply == Some(PublicView(admins[i])))
      ensures !BodyThrows(route, body) && route.AdminCreate? ==>
        status == 200 && reply.None? && records == old(records)
        && lists == old(lists)[AdminsKey := old(List(AdminsKey)) + [NewAdmin(Spread(body.value), now, nowIso)]]
      ensures !BodyThrows(route, body) && (route.AdminUpdate? || route.CategoryUpdate?) ==>
        var key := if route.AdminUpdate? then AdminsKey else CategoriesKey;
        var u := UpdateById(old(List(key)), Some(JStr(route.id)), Spread(body.value));
        records == old(records) && reply.None?
        && (u.None? ==> status == 404 && lists == old(lists))
        && (u.Some? ==> status == 200 && lists == old(lists)[key := u.value])
      ensures body == Some(JNull) && (route.AdminUpdate? || route.CategoryUpdate?) ==>
        var key := if route.AdminUpdate? then AdminsKey else CategoriesKey;
        var u := UpdateById(old(List(key)), Some(JStr(route.id)), map[]);
        records == old(records)
        && (u.None? ==> status == 404 && lists == old(lists))
        && (u.Some? ==> status == 200 && lists == old(lists)[key := u.value])
      ensures !BodyThrows(route, body) && route.CategoryCreate? ==>
        status == 200 && reply.None? && records == old(records)
        && lists == old(lists)[CategoriesKey := old(List(CategoriesKey)) + [Spread(body.value)]]
      ensures !BodyThrows(route, body) && route.VideoCreate? ==>
        var cat := Prop(body, "categoryId"); var video := Prop(body, "video");
        records == old(records)
        && (!Truthy(cat) || !Truthy(video) ==> status == 400 && reply.None? && lists == old(lists))
        && (Truthy(cat) && Truthy(video) ==>
              var v := NewVideo(Spread(video.value), Show(cat), now, nowIso);
              status == 200 && reply == Some(v)
              && lists == old(lists)[VideosKey(Show(cat)) := old(List(VideosKey(Show(cat)))) + [v]])
      ensures !BodyThrows(route, body) && route.VideoUpdate? ==>
        var key := VideosKey(route.categoryId);
        var u := UpdateById(old(List(key)), Some(JStr(route.videoId)), VideoPatch(Spread(body.value), route.videoId, nowIso));
        records == old(records) && reply.None?
        && (u.None? ==> status == 404 && lists == old(lists))
        && (u.Some? ==> status == 200 && lists == old(lists)[key := u.value])
      ensures !BodyThrows(route, body) && route.UserUpsert? ==>
        var f := Spread(body.value);
        var id := Field(f, "userId"); var name := Field(f, "name"); var emp := Field(f, "employeeId");
        var i := FindIndex(old(List(UsersKey)), id);
        records == old(records)
        && (!Truthy(id) || !Truthy(name) || !Truthy(emp) ==> status == 400 && reply.None? && lists == old(lists))
        && (Truthy(id) && Truthy(name) && Truthy(emp) ==>
              status == 200
              && lists == old(lists)[UsersKey := UpsertUsers(old(List(UsersKey)), id.value, name.value, emp.value,
                                                            Field(f, "department"), nowIso)]
              && reply == Some(UserRecord(id.value, name.value, emp.value, Field(f, "department"),
                                          if i == -1 then None else Some(old(List(UsersKey))[i]), nowIso)))
      ensures !BodyThrows(route, body) && route.ProgressPost? ==>
        lists == old(lists) && reply.None? && (status, records) == PostProgress(old(records), Spread(body.value), nowIso)
    {
      reply := None;
      if BodyThrows(route, body) {
        return 500, Some(CatchMessage(route)), None;
      }
      var fields := Spread(body.value);
      error := None;
      match route {
        case Login =>
          status, reply := AdminLogin(Prop(body, "employeeId"), Prop(body, "password"), legacy);
        case AdminCreate =>
          status := CreateAdmin(fields, now, nowIso);
        case AdminUpdate(id) =>
          status := UpdateAdmin(id, fields);
        case CategoryCreate =>
          status := CreateCategory(fields);
        case CategoryUpdate(id) =>
          status := UpdateCategory(id, fields);
        case VideoCreate =>
          SpreadNamedProp(body.value, "categoryId");
          SpreadNamedProp(body.value, "video");
          status, reply := CreateVideo(fields, now, nowIso);
        case VideoUpdate(categoryId, videoId) =>
          status := UpdateVideo(categoryId, videoId, fields, nowIso);
        case UserUpsert =>
          status, reply := UpsertUser(fields, nowIso);
        case ProgressPost =>
          status := PostProgressHandler(fields, nowIso);
      }
    }
  }
}
