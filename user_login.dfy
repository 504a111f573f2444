/** src/components/UserLogin.tsx: the sign-in form. It checks the employee
    number and the Korean name, registers the learner on first sight and
    records them as the current user. */
module UserLogin {
  import opened Common
  import opened Text
  import opened Json
  import opened Browser
  import WatchProgressHook
  import ProgressTracker

  /** The checks `handleLogin` can fail, each with the message it shows. */
  datatype LoginProblem = EmptyId | BadId | EmptyName | BadName

  function Message(p: LoginProblem): string
  {
    match p
    case EmptyId => "사번을 입력해주세요."
    case BadId => "사번은 2로 시작하는 8자리 숫자여야 합니다."
    case EmptyName => "이름을 입력해주세요."
    case BadName => "이름은 2-5자리 한글만 입력 가능합니다."
  }

  /** Shown when storing the learner throws. */
  const FailedMessage: string := "로그인 중 오류가 발생했습니다. 다시 시도해주세요."

  // ---------------------------------------------------------------- the two patterns

  /** A precomposed Hangul syllable, the class `[가-힣]`. */
  predicate IsHangul(c: char) { '\U{AC00}' <= c <= '\U{D7A3}' }

  predicate AllHangul(s: string) { forall i :: 0 <= i < |s| ==> IsHangul(s[i]) }

  /** `\d{n}$`: exactly `n` ASCII digits and then the end of the text. */
  predicate DigitRun(s: string, n: nat)
  {
    if n == 0 then s == [] else s != [] && IsDigit(s[0]) && DigitRun(s[1..], n - 1)
  }

  /** `[가-힣]+$`: one syllable or more and then the end of the text. */
  predicate HangulRun(s: string)
  {
    s != [] && IsHangul(s[0]) && (|s| == 1 || HangulRun(s[1..]))
  }

  /** `validateEmployeeId`: `/^2\d{7}$/.test(id)`. */
  predicate ValidateEmployeeId(id: string)
  {
    id != [] && id[0] == '2' && DigitRun(id[1..], 7)
  }

  /** `validateName`: `/^[가-힣]+$/` and a length from 2 to 5. */
  predicate ValidateName(name: string)
  {
    HangulRun(name) && 2 <= |name| <= 5
  }

  lemma {:induction false} DigitRunExact(s: string, n: nat)
    ensures DigitRun(s, n) <==> |s| == n && AllDigits(s)
  {
    if n > 0 && s != [] {
      DigitRunExact(s[1..], n - 1);
      if AllDigits(s) {
        assert forall i :: 0 <= i < |s[1..]| ==> IsDigit(s[1..][i]) by {
          forall i | 0 <= i < |s[1..]| ensures IsDigit(s[1..][i]) {
            assert s[1..][i] == s[i + 1];
          }
        }
      }
      if IsDigit(s[0]) && AllDigits(s[1..]) {
        forall i | 0 <= i < |s| ensures IsDigit(s[i]) {
          if i > 0 {
            assert s[i] == s[1..][i - 1];
          }
        }
      }
    }
  }

  lemma {:induction false} HangulRunExact(s: string)
    ensures HangulRun(s) <==> s != [] && AllHangul(s)
  {
    if |s| > 1 {
      HangulRunExact(s[1..]);
      if AllHangul(s) {
        forall i | 0 <= i < |s[1..]| ensures IsHangul(s[1..][i]) {
          assert s[1..][i] == s[i + 1];
        }
      }
      if IsHangul(s[0]) && AllHangul(s[1..]) {
        forall i | 0 <= i < |s| ensures IsHangul(s[i]) {
          if i > 0 {
            assert s[i] == s[1..][i - 1];
          }
        }
      }
    }
  }

  /** The employee number pattern accepts exactly the eight-digit numbers
      beginning with 2. */
  lemma EmployeeIdPattern(id: string)
    ensures ValidateEmployeeId(id) <==> |id| == 8 && id[0] == '2' && AllDigits(id)
  {
    if id != [] {
      DigitRunExact(id[1..], 7);
      if AllDigits(id) {
        forall i | 0 <= i < |id[1..]| ensures IsDigit(id[1..][i]) {
          assert id[1..][i] == id[i + 1];
        }
      }
      if id[0] == '2' && AllDigits(id[1..]) {
        forall i | 0 <= i < |id| ensures IsDigit(id[i]) {
          if i > 0 {
            assert id[i] == id[1..][i - 1];
          }
        }
      }
    }
  }

  /** The name check accepts exactly the texts of two to five Hangul syllables. */
  lemma NamePattern(name: string)
    ensures ValidateName(name) <==> 2 <= |name| <= 5 && AllHangul(name)
  {
    HangulRunExact(name);
  }

  // ---------------------------------------------------------------- the inputs' filters

  /** The employee number field's `onChange`: `replace(/\D/g, "").slice(0, 8)`. */
  function SanitizeId(value: string): string
  {
    Take(Keep(value, IsDigit), 8)
  }

  /** The name field's `onChange`: `replace(/[^가-힣]/g, "").slice(0, 5)`. */
  function SanitizeName(value: string): string
  {
    Take(Keep(value, IsHangul), 5)
  }

  /** The field holds at most eight digits, filtering twice changes nothing, and
      what it holds passes the check exactly when it is eight digits long and
      starts with 2. */
  lemma SanitizeIdProperties(value: string)
    ensures var r := SanitizeId(value);
      |r| <= 8 && AllDigits(r) && SanitizeId(r) == r
      && (ValidateEmployeeId(r) <==> |r| == 8 && r[0] == '2')
  {
    var r := SanitizeId(value);
    var k := Keep(value, IsDigit);
    assert forall i :: 0 <= i < |r| ==> r[i] == k[i];
    EmployeeIdPattern(r);
  }

  /** A valid employee number typed in passes the filter unchanged. */
  lemma SanitizeKeepsValidId(id: string)
    requires ValidateEmployeeId(id)
    ensures SanitizeId(id) == id
  {
    EmployeeIdPattern(id);
  }

  /** The name field holds at most five syllables, filtering twice changes
      nothing, and what it holds passes the check exactly when it has two. */
  lemma SanitizeNameProperties(value: string)
    ensures var r := SanitizeName(value);
      |r| <= 5 && AllHangul(r) && SanitizeName(r) == r
      && (ValidateName(r) <==> |r| >= 2)
  {
    var r := SanitizeName(value);
    var k := Keep(value, IsHangul);
    assert forall i :: 0 <= i < |r| ==> r[i] == k[i];
    NamePattern(r);
  }

  // ---------------------------------------------------------------- handleLogin

  /** The first failing check of `handleLogin`, in the order it makes them:
      the number is present, the (untrimmed) number matches, the name is
      present, the trimmed name matches. */
  function LoginError(employeeId: string, name: string): (r: Option<LoginProblem>)
    ensures r == Some(EmptyId) <==> Trim(employeeId) == []
    ensures r == Some(BadId) <==> Trim(employeeId) != [] && !ValidateEmployeeId(employeeId)
    ensures r == Some(EmptyName) <==> ValidateEmployeeId(employeeId) && Trim(name) == []
    ensures r == Some(BadName) <==> ValidateEmployeeId(employeeId) && Trim(name) != [] && !ValidateName(Trim(name))
  {
    if Trim(employeeId) == [] then Some(EmptyId)
    else if !ValidateEmployeeId(employeeId) then Some(BadId)
    else if Trim(name) == [] then Some(EmptyName)
    else if !ValidateName(Trim(name)) then Some(BadName)
    else None
  }

  /** The form lets a learner in exactly when the number matches as typed and
      the trimmed name matches; the number then has nothing to trim. */
  lemma LoginAccepted(employeeId: string, name: string)
    ensures LoginError(employeeId, name).None? <==> ValidateEmployeeId(employeeId) && ValidateName(Trim(name))
    ensures ValidateEmployeeId(employeeId) ==> Trim(employeeId) == employeeId
  {
    if ValidateEmployeeId(employeeId) {
      EmployeeIdPattern(employeeId);
      IdHasNoSpace(employeeId);
    }
  }

  lemma IdHasNoSpace(id: string)
    requires AllDigits(id)
    ensures Trim(id) == id
  {
    forall i | 0 <= i < |id| ensures !IsSpace(id[i]) {
      assert IsDigit(id[i]);
    }
    TrimNoSpace(id);
  }

  /** `user_${employeeId.trim()}`: where a learner is registered. */
  function UserKey(employeeId: string): (k: string)
    ensures StartsWith(k, "user_")
  {
    "user_" + Trim(employeeId)
  }

  /** The `userData` object: trimmed number and name, the login time, and
      whether no registration was stored under the learner's key. */
  function UserData(items: map<string, Item>, employeeId: string, name: string, nowIso: string): Json
  {
    JObj(map["employeeId" := JStr(Trim(employeeId)), "name" := JStr(Trim(name)),
             "loginDate" := JStr(nowIso), "isNewUser" := JBool(!Stored(items, UserKey(employeeId)))])
  }

  /** The storage after a successful login: the registration, then the current user. */
  function AfterLogin(items: map<string, Item>, employeeId: string, name: string, nowIso: string): map<string, Item>
  {
    var u := Value(UserData(items, employeeId, name, nowIso));
    items[UserKey(employeeId) := u][CurrentUserKey := u]
  }

  /** Registration is remembered: the first login of a number is new exactly
      when nothing was stored under its key, and a later login of the same
      number is never new. */
  lemma SecondLoginIsNotNew(items: map<string, Item>, employeeId: string, name: string, name2: string,
                            t1: string, t2: string)
    ensures Prop(Some(UserData(items, employeeId, name, t1)), "isNewUser") == Some(JBool(!Stored(items, UserKey(employeeId))))
    ensures Prop(Some(UserData(AfterLogin(items, employeeId, name, t1), employeeId, name2, t2)), "isNewUser")
      == Some(JBool(false))
  {
    var k := UserKey(employeeId);
    assert k != CurrentUserKey by {
      assert k[0] == 'u';
    }
    var after := AfterLogin(items, employeeId, name, t1);
    assert after[k] == Value(UserData(items, employeeId, name, t1));
    assert Stored(after, k);
    NewUserFlag(items, employeeId, name, t1);
    NewUserFlag(after, employeeId, name2, t2);
  }

  /** `userData.isNewUser` reads back as "nothing was stored under the key". */
  lemma NewUserFlag(items: map<string, Item>, employeeId: string, name: string, nowIso: string)
    ensures Prop(Some(UserData(items, employeeId, name, nowIso)), "isNewUser") == Some(JBool(!Stored(items, UserKey(employeeId))))
  {
    var m := map["employeeId" := JStr(Trim(employeeId)), "name" := JStr(Trim(name)),
                 "loginDate" := JStr(nowIso), "isNewUser" := JBool(!Stored(items, UserKey(employeeId)))];
    assert m["isNewUser"] == JBool(!Stored(items, UserKey(employeeId)));
  }

  /** After a successful login every reader of the current user sees the new
      learner: the stored user is `userData`, the watch-progress cache is keyed
      by the number, and the progress tracker's id is `employee_` and the number. */
  lemma LoginSetsCurrentUser(items: map<string, Item>, employeeId: string, name: string, nowIso: string)
    requires LoginError(employeeId, name).None?
    ensures var after := AfterLogin(items, employeeId, name, nowIso);
      WatchProgressHook.CurrentUser(after) == UserData(items, employeeId, name, nowIso)
      && WatchProgressHook.StorageKey(WatchProgressHook.CurrentUser(after)) == "video-progress-" + employeeId
      && ProgressTracker.EmployeeId(after) == Some("employee_" + employeeId)
  {
    LoginAccepted(employeeId, name);
    EmployeeIdPattern(employeeId);
    var after := AfterLogin(items, employeeId, name, nowIso);
    var u := UserData(items, employeeId, name, nowIso);
    assert Parsed(after, CurrentUserKey) == Some(u);
    assert WatchProgressHook.CurrentUser(after) == u;
    UserDataEmployeeId(items, employeeId, name, nowIso);
    assert |employeeId| == 8;
    CacheKeyOfUser(u, employeeId);
    TrackerIdOfUser(after, u, employeeId);
  }

  /** A current user whose `employeeId` is a non-empty text keys the
      watch-progress cache by that text. */
  lemma CacheKeyOfUser(u: Json, e: string)
    requires u.JObj? && Prop(Some(u), "employeeId") == Some(JStr(e))
    ensures WatchProgressHook.StorageKey(u) == "video-progress-" + e
  {
    assert Show(Some(JStr(e))) == e;
  }

  /** A stored current user whose `employeeId` is a non-empty text with
      nothing to trim gives the tracker id `employee_` and that text. */
  lemma TrackerIdOfUser(after: map<string, Item>, u: Json, e: string)
    requires Parsed(after, CurrentUserKey) == Some(u)
    requires Prop(Some(u), "employeeId") == Some(JStr(e)) && e != "" && Trim(e) == e
    ensures ProgressTracker.EmployeeId(after) == Some("employee_" + e)
  {
    var v := Prop(Parsed(after, CurrentUserKey), "employeeId");
    assert v == Some(JStr(e));
    assert Truthy(v);
    assert Show(v) == e;
  }

  /** `userData` is an object whose `employeeId` is the trimmed number. */
  lemma UserDataEmployeeId(items: map<string, Item>, employeeId: string, name: string, nowIso: string)
    ensures UserData(items, employeeId, name, nowIso).JObj?
    ensures Prop(Some(UserData(items, employeeId, name, nowIso)), "employeeId") == Some(JStr(Trim(employeeId)))
  {
    var m := map["employeeId" := JStr(Trim(employeeId)), "name" := JStr(Trim(name)),
                 "loginDate" := JStr(nowIso), "isNewUser" := JBool(!Stored(items, UserKey(employeeId)))];
    assert m["employeeId"] == JStr(Trim(employeeId));
  }

  /** The form's state. */
  class LoginForm {
    var employeeId: string
    var name: string
    var error: string
    var isLoading: bool

    constructor ()
      ensures employeeId == "" && name == "" && error == "" && !isLoading
    {
      employeeId, name, error, isLoading := "", "", "", false;
    }

    /** Typing in the employee number field. */
    method ChangeEmployeeId(value: string)
      modifies this
      ensures employeeId == SanitizeId(value)
      ensures name == old(name) && error == old(error) && isLoading == old(isLoading)
    {
      employeeId := Take(Keep(value, IsDigit), 8);
    }

    /** Typing in the name field. */
    method ChangeName(value: string)
      modifies this
      ensures name == SanitizeName(value)
      ensures employeeId == old(employeeId) && error == old(error) && isLoading == old(isLoading)
    {
      name := Take(Keep(value, IsHangul), 5);
    }

    /** `handleLogin`. `writable` is how many `setItem` calls succeed before
        one throws (a full storage); the returned user is what `onLogin`
        receives. A failed check writes nothing and leaves `isLoading` alone;
        a thrown write leaves the writes before it in place. */
    method HandleLogin(storage: LocalStorage, nowIso: string, writable: nat) returns (loggedIn: Option<Json>)
      modifies this, storage
      ensures employeeId == old(employeeId) && name == old(name)
      ensures var e := LoginError(old(employeeId), old(name));
        var u := UserData(old(storage.items), old(employeeId), old(name), nowIso);
        (e.Some? ==>
           error == Message(e.value) && loggedIn.None? && storage.items == old(storage.items)
           && isLoading == old(isLoading))
        && (e.None? && writable >= 2 ==>
              error == "" && loggedIn == Some(u) && !isLoading
              && storage.items == AfterLogin(old(storage.items), old(employeeId), old(name), nowIso))
        && (e.None? && writable < 2 ==>
              error == FailedMessage && loggedIn.None? && !isLoading
              && storage.items == if writable == 1 then old(storage.items)[UserKey(old(employeeId)) := Value(u)]
                                  else old(storage.items))
    {
      error := "";
      loggedIn := None;
      if Trim(employeeId) == [] {
        error := Message(EmptyId);
        return;
      }
      if !ValidateEmployeeId(employeeId) {
        error := Message(BadId);
        return;
      }
      if Trim(name) == [] {
        error := Message(EmptyName);
        return;
      }
      if !ValidateName(Trim(name)) {
        error := Message(BadName);
        return;
      }
      assert LoginError(employeeId, name).None?;
      isLoading := true;
      var key := UserKey(employeeId);
      var userData := UserData(storage.items, employeeId, name, nowIso);
      if writable == 0 {
        error := FailedMessage;
      } else {
        storage.SetItem(key, Value(userData));
        if writable == 1 {
          error := FailedMessage;
        } else {
          storage.SetItem(CurrentUserKey, Value(userData));
          loggedIn := Some(userData);
        }
      }
      isLoading := false;
    }

    /** `handleKeyPress`: Enter in either field submits. */
    method HandleKeyPress(key: string, storage: LocalStorage, nowIso: string, writable: nat)
      returns (loggedIn: Option<Json>)
      modifies this, storage
      ensures key != "Enter" ==>
        loggedIn.None? && storage.items == old(storage.items)
        && employeeId == old(employeeId) && name == old(name) && error == old(error) && isLoading == old(isLoading)
      ensures key == "Enter" ==> employeeId == old(employeeId) && name == old(name)
      ensures var e := LoginError(old(employeeId), old(name));
        var u := UserData(old(storage.items), old(employeeId), old(name), nowIso);
        key == "Enter" ==>
          (e.Some? ==>
             error == Message(e.value) && loggedIn.None? && storage.items == old(storage.items)
             && isLoading == old(isLoading))
          && (e.None? && writable >= 2 ==>
                error == "" && loggedIn == Some(u) && !isLoading
                && storage.items == AfterLogin(old(storage.items), old(employeeId), old(name), nowIso))
          && (e.None? && writable < 2 ==>
                error == FailedMessage && loggedIn.None? && !isLoading
                && storage.items == if writable == 1 then old(storage.items)[UserKey(old(employeeId)) := Value(u)]
                                    else old(storage.items))
    {
      loggedIn := None;
      if key == "Enter" {
        loggedIn := HandleLogin(storage, nowIso, writable);
      }
    }
  }
}
