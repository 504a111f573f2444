/** src/components/VideoManagement.tsx: the admin screen that lists the videos
    of a category and adds, edits and deletes them. */
module VideoManagement {
  import opened Common
  import opened Text
  import opened Json
  import opened Types
  import opened Http

  // ---------------------------------------------------------------- extractYouTubeId

  const WatchPrefix: string := "youtube.com/watch?v="
  const ShortPrefix: string := "youtu.be/"
  const EmbedPrefix: string := "youtube.com/embed/"

  /** The characters that end the captured id: `&`, newline, `?` and `#`. */
  predicate IsStop(c: char) { c == '&' || c == '\n' || c == '?' || c == '#' }

  predicate NoStop(s: string) { forall i :: 0 <= i < |s| ==> !IsStop(s[i]) }

  /** `[^&\n?#]+` taken greedily: the longest start of `s` without a stop character. */
  function IdRun(s: string): (r: string)
    ensures |r| <= |s| && r == s[..|r|] && NoStop(r)
    ensures |r| < |s| ==> IsStop(s[|r|])
  {
    if s == [] || IsStop(s[0]) then [] else [s[0]] + IdRun(s[1..])
  }

  /** The capture when the alternative `p` matches at `i`: the prefix is there
      and at least one id character follows it. */
  function CaptureAfter(s: string, i: nat, p: string): (r: Option<string>)
    requires i <= |s|
    ensures r.Some? ==> StartsWith(s[i..], p) && r.value != [] && NoStop(r.value)
  {
    if StartsWith(s[i..], p) && IdRun(s[i + |p|..]) != [] then Some(IdRun(s[i + |p|..])) else None
  }

  /** The match at `i`, trying the three alternatives in the pattern's order. */
  function MatchAt(s: string, i: nat): Option<string>
    requires i <= |s|
  {
    var w := CaptureAfter(s, i, WatchPrefix);
    if w.Some? then w
    else
      var b := CaptureAfter(s, i, ShortPrefix);
      if b.Some? then b else CaptureAfter(s, i, EmbedPrefix)
  }

  /** The leftmost match at or after `i`. */
  function Search(s: string, i: nat): Option<string>
    requires i <= |s|
    decreases |s| - i
  {
    if i == |s| then None
    else
      var m := MatchAt(s, i);
      if m.Some? then m else Search(s, i + 1)
  }

  /** `extractYouTubeId`: the first capture group of the leftmost match, or the
      text itself when nothing matches. */
  function ExtractYouTubeId(url: string): string
  {
    match Search(url, 0)
    case Some(id) => id
    case None => url
  }

  /** The search finds the leftmost position where the pattern matches, and
      finds nothing exactly when it matches nowhere. */
  lemma SearchIsLeftmost(s: string, i: nat)
    requires i <= |s|
    ensures Search(s, i).Some? ==>
      exists j :: i <= j < |s| && MatchAt(s, j) == Search(s, i) && forall k :: i <= k < j ==> MatchAt(s, k).None?
    ensures Search(s, i).None? ==> forall k :: i <= k < |s| ==> MatchAt(s, k).None?
  {
    if Search(s, i).Some? {
      SearchFoundLeftmost(s, i);
    } else {
      SearchNoneNowhere(s, i);
    }
  }

  lemma {:induction false} SearchFoundLeftmost(s: string, i: nat)
    requires i <= |s| && Search(s, i).Some?
    ensures exists j :: i <= j < |s| && MatchAt(s, j) == Search(s, i) && forall k :: i <= k < j ==> MatchAt(s, k).None?
    decreases |s| - i
  {
    if MatchAt(s, i).None? {
      assert Search(s, i) == Search(s, i + 1);
      SearchFoundLeftmost(s, i + 1);
      var j :| i + 1 <= j < |s| && MatchAt(s, j) == Search(s, i + 1)
        && forall k :: i + 1 <= k < j ==> MatchAt(s, k).None?;
      assert forall k :: i <= k < j ==> MatchAt(s, k).None?;
    }
  }

  lemma {:induction false} SearchNoneNowhere(s: string, i: nat)
    requires i <= |s| && Search(s, i).None?
    ensures forall k :: i <= k < |s| ==> MatchAt(s, k).None?
    decreases |s| - i
  {
    if i < |s| {
      assert MatchAt(s, i).None? && Search(s, i + 1).None?;
      SearchNoneNowhere(s, i + 1);
      forall k | i <= k < |s|
        ensures MatchAt(s, k).None?
      {
        if k > i {
          assert i + 1 <= k < |s|;
        }
      }
    }
  }

  /** What comes out of a link is a non-empty id free of `&`, `?`, `#` and
      newlines, found right after one of the three prefixes. */
  lemma ExtractedIdShape(url: string)
    requires Search(url, 0).Some?
    ensures var id := ExtractYouTubeId(url);
      id != [] && NoStop(id)
      && exists j :: 0 <= j < |url| && MatchAt(url, j) == Some(id)
                     && (StartsWith(url[j..], WatchPrefix) || StartsWith(url[j..], ShortPrefix) || StartsWith(url[j..], EmbedPrefix))
  {
    SearchIsLeftmost(url, 0);
  }

  /** Every prefix contains a dot, so text without one (a bare id) comes back unchanged. */
  lemma NoDotUnchanged(s: string)
    requires !HasChar(s, '.')
    ensures ExtractYouTubeId(s) == s
  {
    NoDotNoMatch(s, 0);
  }

  lemma {:induction false} NoDotNoMatch(s: string, i: nat)
    requires i <= |s|
    requires !HasChar(s, '.')
    ensures Search(s, i).None?
    decreases |s| - i
  {
    if i < |s| {
      NoPrefixWithoutDot(s, i, WatchPrefix, 7);
      NoPrefixWithoutDot(s, i, ShortPrefix, 5);
      NoPrefixWithoutDot(s, i, EmbedPrefix, 7);
      NoDotNoMatch(s, i + 1);
    }
  }

  lemma NoPrefixWithoutDot(s: string, i: nat, p: string, dot: nat)
    requires i <= |s| && !HasChar(s, '.')
    requires dot < |p| && p[dot] == '.'
    ensures !StartsWith(s[i..], p)
  {
    if |p| <= |s| - i {
      assert s[i + dot] != '.';
      assert s[i..][..|p|][dot] == s[i + dot];
    }
  }

  /** The id is read back out of a link: any lead-in without a `y`, one of the
      three prefixes, the id, then nothing or a parameter after a stop character. */
  lemma ExtractFromLink(lead: string, p: string, id: string, tail: string)
    requires !HasChar(lead, 'y')
    requires p == WatchPrefix || p == ShortPrefix || p == EmbedPrefix
    requires id != [] && NoStop(id)
    requires tail == [] || IsStop(tail[0])
    ensures ExtractYouTubeId(lead + p + id + tail) == id
  {
    var rest := id + tail;
    IdRunOf(id, tail);
    var s := lead + p + rest;
    assert lead + p + id + tail == s;
    assert s[..|lead|] == lead;
    LeadHasNoMatch(s, lead);
    SkipLead(s, 0, |lead|);
    PrefixAt(s, lead, p, rest);
  }

  /** No prefix starts inside a lead-in without a `y`. */
  lemma LeadHasNoMatch(s: string, lead: string)
    requires |lead| <= |s| && s[..|lead|] == lead && !HasChar(lead, 'y')
    ensures forall j :: 0 <= j < |lead| ==> MatchAt(s, j).None?
  {
    forall j | 0 <= j < |lead| ensures MatchAt(s, j).None? {
      assert s[j] == lead[j];
      NotAPrefixAt(s, j, WatchPrefix);
      NotAPrefixAt(s, j, ShortPrefix);
      NotAPrefixAt(s, j, EmbedPrefix);
    }
  }

  lemma NotAPrefixAt(s: string, j: nat, p: string)
    requires j < |s| && s[j] != 'y' && p != [] && p[0] == 'y'
    ensures !StartsWith(s[j..], p)
  {
    if |p| <= |s| - j {
      assert s[j..][..|p|][0] == s[j];
    }
  }

  lemma {:induction false} SkipLead(s: string, i: nat, n: nat)
    requires i <= n <= |s|
    requires forall j :: i <= j < n ==> MatchAt(s, j).None?
    ensures Search(s, i) == Search(s, n)
    decreases n - i
  {
    if i < n {
      SkipLead(s, i + 1, n);
    }
  }

  /** At the prefix's position the earlier alternatives fail and `p` captures `rest`'s id run. */
  lemma PrefixAt(s: string, lead: string, p: string, rest: string)
    requires s == lead + p + rest
    requires p == WatchPrefix || p == ShortPrefix || p == EmbedPrefix
    requires IdRun(rest) != []
    ensures Search(s, |lead|) == Some(IdRun(rest))
  {
    var i := |lead|;
    assert s[i..] == p + rest;
    assert s[i + |p|..] == rest;
    assert StartsWith(s[i..], p);
    if p == ShortPrefix {
      assert s[i + 5] == '.';
      assert !StartsWith(s[i..], WatchPrefix) by {
        assert WatchPrefix[5] == 'b';
      }
    } else if p == EmbedPrefix {
      assert s[i + 12] == 'e';
      assert !StartsWith(s[i..], WatchPrefix) by {
        assert WatchPrefix[12] == 'w';
      }
      assert !StartsWith(s[i..], ShortPrefix) by {
        assert s[i + 5] == 'b';
        assert ShortPrefix[5] == '.';
      }
    }
  }

  lemma {:induction false} IdRunOf(id: string, tail: string)
    requires NoStop(id)
    requires tail == [] || IsStop(tail[0])
    ensures IdRun(id + tail) == id
  {
    if id != [] {
      assert (id + tail)[1..] == id[1..] + tail;
      IdRunOf(id[1..], tail);
    }
  }

  // ---------------------------------------------------------------- formatDuration

  /** The decimal digits at the start of `s`. */
  function LeadingDigits(s: string): (r: string)
    ensures |r| <= |s| && r == s[..|r|] && AllDigits(r)
    ensures |r| < |s| ==> !IsDigit(s[|r|])
  {
    if s == [] || !IsDigit(s[0]) then [] else [s[0]] + LeadingDigits(s[1..])
  }

  predicate IsHexDigit(c: char) { IsDigit(c) || 'a' <= c <= 'f' || 'A' <= c <= 'F' }

  function HexDigitValue(c: char): nat
    requires IsHexDigit(c)
  {
    if IsDigit(c) then DigitValue(c)
    else if 'a' <= c <= 'f' then (c as int - 'a' as int + 10) as nat
    else (c as int - 'A' as int + 10) as nat
  }

  /** The hexadecimal digits at the start of `s`. */
  function LeadingHex(s: string): (r: string)
    ensures |r| <= |s| && forall i :: 0 <= i < |r| ==> IsHexDigit(r[i])
  {
    if s == [] || !IsHexDigit(s[0]) then [] else [s[0]] + LeadingHex(s[1..])
  }

  function HexValue(s: string): nat
    requires forall i :: 0 <= i < |s| ==> IsHexDigit(s[i])
  {
    if s == [] then 0 else HexValue(s[..|s| - 1]) * 16 + HexDigitValue(s[|s| - 1])
  }

  /** `parseInt(s)`: leading white space, an optional sign, then the digits
      up to the first non-digit (hexadecimal after `0x`); `None` is NaN. */
  function ParseInt(s: string): (r: Option<int>)
    ensures r.Some? ==> TrimStart(s) != []
  {
    var t := TrimStart(s);
    var negative := t != [] && t[0] == '-';
    var u := if t != [] && (t[0] == '-' || t[0] == '+') then t[1..] else t;
    match ParseMagnitude(u)
    case None => None
    case Some(v) =>
      var n: int := v;
      Some(if negative then -n else n)
  }

  /** The unsigned part of `parseInt`: hexadecimal after `0x`, otherwise the
      leading decimal digits; `None` when there are none. */
  function ParseMagnitude(u: string): (r: Option<nat>)
    ensures r.Some? ==> u != []
  {
    if |u| >= 2 && u[0] == '0' && (u[1] == 'x' || u[1] == 'X') then
      var h := LeadingHex(u[2..]);
      if h == [] then None else Some(HexValue(h))
    else
      var d := LeadingDigits(u);
      if d == [] then None else Some(DigitsValue(d))
  }

  /** A number written in decimal parses back to itself. */
  lemma ParseIntOfNat(n: nat)
    ensures ParseInt(NatToString(n)) == Some(n)
  {
    ParseIntOfDigits(NatToString(n));
    NatToStringRoundTrip(n);
  }

  lemma ParseIntOfDigits(s: string)
    requires s != [] && AllDigits(s)
    ensures ParseInt(s) == Some(DigitsValue(s))
  {
    TrimStartOfDigits(s);
    assert s[0] != '-' && s[0] != '+';
    assert !(|s| >= 2 && (s[1] == 'x' || s[1] == 'X')) by {
      if |s| >= 2 {
        assert IsDigit(s[1]);
      }
    }
    LeadingDigitsOfDigits(s);
    assert ParseMagnitude(s) == Some(DigitsValue(s));
  }

  lemma TrimStartOfDigits(s: string)
    requires s != [] && IsDigit(s[0])
    ensures TrimStart(s) == s
  {
    assert !IsSpace(s[0]);
  }

  lemma {:induction false} LeadingDigitsOfDigits(s: string)
    requires AllDigits(s)
    ensures LeadingDigits(s) == s
  {
    if s != [] {
      LeadingDigitsOfDigits(s[1..]);
    }
  }

  /** `${Math.floor(t / 60)}:${(t % 60).toString().padStart(2, '0')}` */
  function MinutesSeconds(total: int): string
  {
    IntToString(total / 60) + ":" + PadStart2(IntToString(JsRem(total, 60)))
  }

  /** `formatDuration`: text with a colon as it is, a number of seconds as
      `m:ss`, anything else as it is. */
  function FormatDuration(duration: string): (r: string)
    ensures HasChar(duration, ':') || ParseInt(duration).None? ==> r == duration
    ensures HasChar(r, ':')  <==> HasChar(duration, ':') || ParseInt(duration).Some?
  {
    if HasChar(duration, ':') then duration
    else match ParseInt(duration)
      case None => duration
      case Some(total) =>
        var r := MinutesSeconds(total);
        assert r[|IntToString(total / 60)|] == ':';
        r
  }

  /** Formatting an already formatted duration changes nothing. */
  lemma FormatDurationIdempotent(duration: string)
    ensures FormatDuration(FormatDuration(duration)) == FormatDuration(duration)
  {
  }

  /** A number of seconds comes out as a clock that reads back as the same number. */
  lemma FormatSecondsRoundTrip(n: nat)
    ensures ParseClock(FormatDuration(NatToString(n))) == Some(n)
  {
    FormatOfSeconds(n);
    SecondsClock(n, n / 60, n % 60);
  }

  /** Minutes and two-digit seconds of a count read back as that count. */
  lemma SecondsClock(n: nat, m: nat, s: nat)
    requires m == n / 60 && s == n % 60
    ensures ParseClock(NatToString(m) + ":" + PadStart2(NatToString(s))) == Some(n)
  {
    NatToStringRoundTrip(m);
    PaddedTwoDigits(s);
    ReadTwo(NatToString(m), PadStart2(NatToString(s)), m, s);
  }

  /** A number of seconds is shown as minutes and two-digit seconds. */
  lemma FormatOfSeconds(n: nat)
    ensures FormatDuration(NatToString(n)) == NatToString(n / 60) + ":" + PadStart2(NatToString(n % 60))
  {
    ParseIntOfNat(n);
    DigitsHaveNoColon(NatToString(n));
    assert MinutesSeconds(n) == NatToString(n / 60) + ":" + PadStart2(NatToString(n % 60));
  }

  lemma DigitsHaveNoColon(s: string)
    requires AllDigits(s)
    ensures !HasChar(s, ':')
  {
    forall i | 0 <= i < |s| ensures s[i] != ':' {
      assert IsDigit(s[i]);
    }
  }

  /** The duration the file picker fills in: `${minutes}:${pad(seconds)}` of the
      floored length. */
  function DetectedDuration(seconds: nat): string
  {
    NatToString(seconds / 60) + ":" + PadStart2(NatToString(seconds % 60))
  }

  /** The picker's text is what the list would show for the same number of seconds. */
  lemma DetectedMatchesFormat(seconds: nat)
    ensures DetectedDuration(seconds) == FormatDuration(NatToString(seconds))
    ensures ParseClock(DetectedDuration(seconds)) == Some(seconds)
  {
    FormatSecondsRoundTrip(seconds);
    FormatOfSeconds(seconds);
  }

  // ---------------------------------------------------------------- files

  const MaxVideoBytes: nat := 100 * 1024 * 1024

  /** The alert `handleFileSelect` shows for a file it refuses: the type is
      checked before the size. */
  function FileProblem(file: FileInfo): (r: Option<string>)
    ensures r.None? <==> StartsWith(file.mimeType, "video/") && file.size <= MaxVideoBytes
  {
    if !StartsWith(file.mimeType, "video/") then Some("비디오 파일만 업로드 가능합니다.")
    else if file.size > MaxVideoBytes then Some("파일 크기는 100MB를 초과할 수 없습니다.")
    else None
  }

  // ---------------------------------------------------------------- the form

  datatype Category = Category(id: string, title: string)

  /** A video as the list shows it. */
  datatype ManagedVideo = ManagedVideo(
    id: string, title: string, description: string, youtubeId: Option<string>, videoUrl: Option<string>,
    videoType: VideoType, duration: string, thumbnail: string, createdAt: string)

  datatype FormData = FormData(title: string, description: string, youtubeId: string, duration: string, videoType: VideoType)

  /** The dialog's state: what `resetForm` and `handleEdit` set. */
  datatype FormState = FormState(
    editingVideo: Option<ManagedVideo>, formData: FormData, selectedFile: Option<FileInfo>,
    uploadProgress: int, isUploading: bool, uploadMethod: VideoType)

  /** The state `resetForm` restores. */
  const InitialForm: FormState := FormState(None, FormData("", "", "", "", YouTube), None, 0, false, YouTube)

  /** The form `handleEdit` opens for a video. */
  function EditForm(current: FormState, video: ManagedVideo): (f: FormState)
    ensures f.editingVideo == Some(video) && f.uploadMethod == video.videoType
    ensures f.formData.title == video.title && f.formData.description == video.description
      && f.formData.duration == video.duration && f.formData.videoType == video.videoType
    ensures f.formData.youtubeId == if video.youtubeId.Some? then video.youtubeId.value else ""
    ensures f.selectedFile == current.selectedFile && f.isUploading == current.isUploading
      && f.uploadProgress == current.uploadProgress
  {
    var youtubeId := if video.youtubeId.Some? && video.youtubeId.value != "" then video.youtubeId.value else "";
    current.(editingVideo := Some(video),
             formData := FormData(video.title, video.description, youtubeId, video.duration, video.videoType),
             uploadMethod := video.videoType)
  }

  function TypeName(t: VideoType): string
  {
    match t
    case YouTube => "youtube"
    case Local => "local"
  }

  // ---------------------------------------------------------------- handleSubmit

  /** Why `handleSubmit` stops before any request. */
  datatype SubmitStop = NoCategory | NoYouTubeId | NoFile | DemoMode

  /** The alert each stop shows; with no category the form stays silent. */
  function StopAlert(s: SubmitStop): Option<string>
  {
    match s
    case NoCategory => None
    case NoYouTubeId => Some("YouTube URL 또는 ID를 입력해주세요.")
    case NoFile => Some("업로드할 비디오 파일을 선택해주세요.")
    case DemoMode => Some("데모 모드에서는 영상을 실제로 저장할 수 없습니다. 실제 배포 시 Supabase 설정이 필요합니다.")
  }

  /** The checks of `handleSubmit`, in order; `configured` is false while the
      project id or key is still the placeholder. */
  function SubmitStopOf(selectedCategory: string, form: FormState, configured: bool): (r: Option<SubmitStop>)
    ensures r.None? <==>
      selectedCategory != ""
      && (form.uploadMethod == YouTube ==> form.formData.youtubeId != "")
      && (form.uploadMethod == Local ==> form.selectedFile.Some? || form.editingVideo.Some?)
      && configured
  {
    if selectedCategory == "" then Some(NoCategory)
    else if form.uploadMethod == YouTube && form.formData.youtubeId == "" then Some(NoYouTubeId)
    else if form.uploadMethod == Local && form.selectedFile.None? && form.editingVideo.None? then Some(NoFile)
    else if !configured then Some(DemoMode)
    else None
  }

  /** `...formData`: the form's five fields. */
  function FormSpread(f: FormData): (r: Record)
    ensures r.Keys == {"title", "description", "youtubeId", "duration", "videoType"}
    ensures r["title"] == JStr(f.title) && r["description"] == JStr(f.description)
      && r["youtubeId"] == JStr(f.youtubeId) && r["duration"] == JStr(f.duration)
  {
    map["title" := JStr(f.title), "description" := JStr(f.description), "youtubeId" := JStr(f.youtubeId),
        "duration" := JStr(f.duration), "videoType" := JStr(TypeName(f.videoType))]
  }

  /** What the body sets after the spread: the chosen video type, the uploaded
      URL for a local video and the category when creating. `videoUrl` is
      `None` for `undefined`, which `JSON.stringify` leaves out. */
  function Overrides(selectedCategory: string, form: FormState, videoUrl: Option<Json>): (r: Record)
    ensures r.Keys == {"videoType"} + (if form.uploadMethod == Local && videoUrl.Some? then {"videoUrl"} else {})
                      + (if form.editingVideo.None? then {"categoryId"} else {})
    ensures r["videoType"] == JStr(TypeName(form.uploadMethod))
    ensures form.uploadMethod == Local && videoUrl.Some? ==> r["videoUrl"] == videoUrl.value
    ensures form.editingVideo.None? ==> r["categoryId"] == JStr(selectedCategory)
  {
    map["videoType" := JStr(TypeName(form.uploadMethod))]
      + (if form.uploadMethod == Local && videoUrl.Some? then map["videoUrl" := videoUrl.value] else map[])
      + (if form.editingVideo.None? then map["categoryId" := JStr(selectedCategory)] else map[])
  }

  /** The JSON body: the form's fields, then the overrides, then without the
      field the other kind of video uses. */
  function SubmitBody(selectedCategory: string, form: FormState, videoUrl: Option<Json>): (r: Record)
    ensures r.Keys <= {"title", "description", "youtubeId", "duration", "videoType", "videoUrl", "categoryId"}
  {
    var body := Merge(FormSpread(form.formData), Overrides(selectedCategory, form, videoUrl));
    if form.uploadMethod == Local then body - {"youtubeId"} else body - {"videoUrl"}
  }

  /** The body carries `youtubeId` exactly for a YouTube video, `videoUrl`
      exactly for a local one whose URL is not `undefined` and `categoryId`
      exactly when creating; the video type is the chosen tab's and the text
      fields are the form's. */
  lemma SubmitBodyShape(selectedCategory: string, form: FormState, videoUrl: Option<Json>)
    ensures var r := SubmitBody(selectedCategory, form, videoUrl);
      ("youtubeId" in r <==> form.uploadMethod == YouTube)
      && ("videoUrl" in r <==> form.uploadMethod == Local && videoUrl.Some?)
      && ("categoryId" in r <==> form.editingVideo.None?)
      && Field(r, "videoType") == Some(JStr(TypeName(form.uploadMethod)))
      && Field(r, "title") == Some(JStr(form.formData.title))
      && Field(r, "description") == Some(JStr(form.formData.description))
      && Field(r, "duration") == Some(JStr(form.formData.duration))
      && (form.uploadMethod == YouTube ==> r["youtubeId"] == JStr(form.formData.youtubeId))
      && (form.uploadMethod == Local && videoUrl.Some? ==> r["videoUrl"] == videoUrl.value)
      && (form.editingVideo.None? ==> r["categoryId"] == JStr(selectedCategory))
  {
    MergedBody(selectedCategory, form, videoUrl);
  }

  /** The body before the other kind's field is removed: the form's text
      fields, then the overrides. */
  lemma MergedBody(selectedCategory: string, form: FormState, videoUrl: Option<Json>)
    ensures var body := Merge(FormSpread(form.formData), Overrides(selectedCategory, form, videoUrl));
      "title" in body && "description" in body && "duration" in body && "youtubeId" in body && "videoType" in body
      && ("videoUrl" in body <==> form.uploadMethod == Local && videoUrl.Some?)
      && ("categoryId" in body <==> form.editingVideo.None?)
      && body["title"] == JStr(form.formData.title) && body["description"] == JStr(form.formData.description)
      && body["duration"] == JStr(form.formData.duration) && body["youtubeId"] == JStr(form.formData.youtubeId)
      && body["videoType"] == JStr(TypeName(form.uploadMethod))
      && (form.uploadMethod == Local && videoUrl.Some? ==> body["videoUrl"] == videoUrl.value)
      && (form.editingVideo.None? ==> body["categoryId"] == JStr(selectedCategory))
  {
    var spread, overrides := FormSpread(form.formData), Overrides(selectedCategory, form, videoUrl);
    assert "title" !in overrides && "description" !in overrides && "duration" !in overrides && "youtubeId" !in overrides;
  }

  /** The save request `handleSubmit` sends once the checks pass; `videoUrl` is
      what the upload returned, or `''` when no file was uploaded. */
  function SaveRequest(selectedCategory: string, form: FormState, videoUrl: Option<Json>): (r: Request)
    ensures r.verb == "PUT" <==> form.editingVideo.Some?
    ensures r.verb == "POST" <==> form.editingVideo.None?
    ensures form.editingVideo.Some? ==> r.path == "videos/" + selectedCategory + "/" + form.editingVideo.value.id
    ensures form.editingVideo.None? ==> r.path == "videos"
  {
    if form.editingVideo.Some? then
      Request("PUT", "videos/" + selectedCategory + "/" + form.editingVideo.value.id,
        SubmitBody(selectedCategory, form, videoUrl))
    else Request("POST", "videos", SubmitBody(selectedCategory, form, videoUrl))
  }

  /** Only a local video with a chosen file is uploaded first. */
  predicate NeedsUpload(form: FormState)
  {
    form.uploadMethod == Local && form.selectedFile.Some?
  }

  /** The multipart body `uploadVideoFile` posts: the file in the field
      `video` and the selected category in `categoryId`. */
  function UploadForm(file: FileInfo, selectedCategory: string): (r: MultipartForm)
    ensures r.Keys == {"video", "categoryId"}
    ensures r["video"] == FileValue(file) && r["categoryId"] == TextValue(selectedCategory)
  {
    map["video" := FileValue(file), "categoryId" := TextValue(selectedCategory)]
  }

  /** What `uploadVideoFile` returns for the parsed reply `reply` (`None` when
      the request or `response.json()` threw): the reply's `videoUrl`, which
      may be `undefined`, when its `success` is truthy; `None` when it throws,
      as it does for a `null` reply and for one without `success`. */
  function UploadedUrl(reply: Option<Json>): (r: Option<Option<Json>>)
    ensures r.Some? <==> !ReadThrows(reply) && Truthy(Prop(reply, "success"))
    ensures r.Some? ==> r.value == Prop(reply, "videoUrl")
  {
    if ReadThrows(reply) || !Truthy(Prop(reply, "success")) then None else Some(Prop(reply, "videoUrl"))
  }

  /** The request `handleSubmit` makes, if any. `upload` is the parsed reply
      to the upload, `None` when the upload request threw. */
  function SubmitRequest(selectedCategory: string, form: FormState, configured: bool, upload: Option<Json>)
    : Option<Request>
  {
    if SubmitStopOf(selectedCategory, form, configured).Some? then None
    else if NeedsUpload(form) then
      var url := UploadedUrl(upload);
      if url.None? then None else Some(SaveRequest(selectedCategory, form, url.value))
    else Some(SaveRequest(selectedCategory, form, Some(JStr(""))))
  }

  /** No request leaves the form without a category, without a YouTube id in
      YouTube mode, without a file when creating a local video, or in demo
      mode; and one leaves whenever the checks pass and any upload succeeded. */
  lemma SubmitRequestGuards(selectedCategory: string, form: FormState, configured: bool, upload: Option<Json>)
    ensures selectedCategory == "" ==> SubmitRequest(selectedCategory, form, configured, upload).None?
    ensures form.uploadMethod == YouTube && form.formData.youtubeId == "" ==>
      SubmitRequest(selectedCategory, form, configured, upload).None?
    ensures form.uploadMethod == Local && form.selectedFile.None? && form.editingVideo.None? ==>
      SubmitRequest(selectedCategory, form, configured, upload).None?
    ensures !configured ==> SubmitRequest(selectedCategory, form, configured, upload).None?
    ensures NeedsUpload(form) && UploadedUrl(upload).None? ==>
      SubmitRequest(selectedCategory, form, configured, upload).None?
    ensures SubmitStopOf(selectedCategory, form, configured).None? && (NeedsUpload(form) ==> UploadedUrl(upload).Some?) ==>
      SubmitRequest(selectedCategory, form, configured, upload).Some?
  {
  }

  /** Editing a local video without choosing a new file posts an empty
      `videoUrl`. */
  lemma LocalEditWithoutFileSendsEmptyUrl(selectedCategory: string, form: FormState, upload: Option<Json>)
    requires selectedCategory != "" && form.editingVideo.Some?
    requires form.uploadMethod == Local && form.selectedFile.None?
    ensures var r := SubmitRequest(selectedCategory, form, true, upload);
      r.Some? && r.value.verb == "PUT" && r.value.body["videoUrl"] == JStr("")
  {
  }

  // ---------------------------------------------------------------- loadVideos

  /** The demo videos `loadVideos` falls back to. */
  function DemoVideos(categoryId: string, nowIso: string): (r: seq<ManagedVideo>)
    ensures forall k :: 0 <= k < |r| ==> StartsWith(r[k].id, categoryId + "_") && r[k].videoType == YouTube
  {
    if categoryId == "fire" then
      [ManagedVideo("fire_1", "지하철 화재 발생 시 초기 대응",
        "지하철에서 화재가 발생했을 때 승무원이 취해야 할 초기 대응 방법을 학습합니다.",
        Some("dQw4w9WgXcQ"), None, YouTube, "5:30",
        "https://img.youtube.com/vi/dQw4w9WgXcQ/maxresdefault.jpg", nowIso)]
    else if categoryId == "safety" then
      [ManagedVideo("safety_1", "지하철 안전운행 기본 수칙",
        "지하철을 안전하게 운행하기 위한 기본적인 수칙과 절차를 학습합니다.",
        Some("dQw4w9WgXcQ"), None, YouTube, "8:20",
        "https://img.youtube.com/vi/dQw4w9WgXcQ/maxresdefault.jpg", nowIso)]
    else []
  }

  /** The list `loadVideos` stores: the reply's `videos` (or `[]` when it has
      none), or the demo list when the request failed or threw. */
  function LoadedVideos(categoryId: string, response: Fetch<Option<seq<ManagedVideo>>>, nowIso: string)
    : (r: seq<ManagedVideo>)
    ensures response.Ok? && response.data.Some? ==> r == response.data.value
    ensures response.Ok? && response.data.None? ==> r == []
    ensures !response.Ok? ==> r == DemoVideos(categoryId, nowIso)
  {
    match response
    case Ok(data) => if data.Some? then data.value else []
    case _ => DemoVideos(categoryId, nowIso)
  }

  /** The demo video ids are `<category>_1`. */
  lemma DemoIds(nowIso: string)
    ensures |DemoVideos("fire", nowIso)| == 1 && DemoVideos("fire", nowIso)[0].id == "fire_1"
    ensures |DemoVideos("safety", nowIso)| == 1 && DemoVideos("safety", nowIso)[0].id == "safety_1"
    ensures DemoVideos("emergency", nowIso) == []
  {
  }

  /** The demo categories `loadCategories` falls back to. */
  const DemoCategories: seq<Category> :=
    [Category("fire", "화재발생 시 대응요령"), Category("safety", "지하철 안전운행"), Category("emergency", "응급상황 대응")]

  // ---------------------------------------------------------------- the component

  /** The form once `uploadVideoFile` has run: a local file's upload clears
      the upload flags in its `finally`; otherwise nothing was uploaded. */
  function AfterUpload(f: FormState): FormState
  {
    if f.uploadMethod == Local && f.selectedFile.Some? then f.(isUploading := false, uploadProgress := 0) else f
  }

  class VideoManager {
    var categories: seq<Category>
    var videos: map<string, seq<ManagedVideo>>
    var selectedCategory: string
    var loading: bool
    var isDialogOpen: bool
    var form: FormState

    constructor ()
      ensures categories == [] && videos == map[] && selectedCategory == "" && loading
      ensures !isDialogOpen && form == InitialForm
    {
      categories, videos, selectedCategory, loading := [], map[], "", true;
      isDialogOpen, form := false, InitialForm;
    }

    /** `loadCategories`: the reply's categories, or the demo ones; the first is
        selected when none was. */
    method LoadCategories(response: Fetch<Option<seq<Category>>>)
      modifies this
      ensures !loading && videos == old(videos) && isDialogOpen == old(isDialogOpen) && form == old(form)
      ensures response.Ok? ==>
        categories == (if response.data.Some? then response.data.value else [])
        && selectedCategory ==
             if response.data.Some? && |response.data.value| > 0 && old(selectedCategory) == ""
             then response.data.value[0].id else old(selectedCategory)
      ensures !response.Ok? ==>
        categories == DemoCategories
        && selectedCategory == if old(selectedCategory) == "" then "fire" else old(selectedCategory)
    {
      match response {
        case Ok(data) =>
          categories := if data.Some? then data.value else [];
          if data.Some? && |data.value| > 0 && selectedCategory == "" {
            selectedCategory := data.value[0].id;
          }
        case _ =>
          categories := DemoCategories;
          if selectedCategory == "" {
            selectedCategory := DemoCategories[0].id;
          }
      }
      loading := false;
    }

    /** `loadVideos`: only the entry of `categoryId` changes, on success and on
        the fallback alike. */
    method LoadVideos(categoryId: string, response: Fetch<Option<seq<ManagedVideo>>>, nowIso: string)
      modifies this
      ensures videos == old(videos)[categoryId := LoadedVideos(categoryId, response, nowIso)]
      ensures categories == old(categories) && selectedCategory == old(selectedCategory)
        && loading == old(loading) && isDialogOpen == old(isDialogOpen) && form == old(form)
    {
      match response {
        case Ok(data) =>
          videos := videos[categoryId := if data.Some? then data.value else []];
        case _ =>
          videos := videos[categoryId := DemoVideos(categoryId, nowIso)];
      }
    }

    /** `handleFileSelect`: a refused file is reported and the previous choice
        kept; an accepted one becomes the selected file. */
    method HandleFileSelect(file: Option<FileInfo>) returns (alert: Option<string>)
      modifies this
      ensures file.None? ==> alert.None? && form == old(form)
      ensures file.Some? ==> alert == FileProblem(file.value)
      ensures file.Some? && alert.Some? ==> form == old(form)
      ensures file.Some? && alert.None? ==> form == old(form).(selectedFile := file)
      ensures categories == old(categories) && videos == old(videos) && selectedCategory == old(selectedCategory)
        && loading == old(loading) && isDialogOpen == old(isDialogOpen)
    {
      alert := None;
      if file.Some? {
        var f := file.value;
        if !StartsWith(f.mimeType, "video/") {
          alert := Some("비디오 파일만 업로드 가능합니다.");
          return;
        }
        if f.size > 100 * 1024 * 1024 {
          alert := Some("파일 크기는 100MB를 초과할 수 없습니다.");
          return;
        }
        form := form.(selectedFile := Some(f));
      }
    }

    /** The picked file's metadata arrived: its floored length fills in the duration. */
    method DurationDetected(seconds: nat)
      modifies this
      ensures form == old(form).(formData := old(form).formData.(duration := DetectedDuration(seconds)))
      ensures categories == old(categories) && videos == old(videos) && selectedCategory == old(selectedCategory)
        && loading == old(loading) && isDialogOpen == old(isDialogOpen)
    {
      var minutes := seconds / 60;
      var secs := seconds % 60;
      form := form.(formData := form.formData.(duration := NatToString(minutes) + ":" + PadStart2(NatToString(secs))));
    }

    /** The YouTube field's `onChange`: the id is extracted from what was typed. */
    method ChangeYouTubeId(value: string)
      modifies this
      ensures form == old(form).(formData := old(form).formData.(youtubeId := ExtractYouTubeId(value)))
      ensures categories == old(categories) && videos == old(videos) && selectedCategory == old(selectedCategory)
        && loading == old(loading) && isDialogOpen == old(isDialogOpen)
    {
      form := form.(formData := form.formData.(youtubeId := ExtractYouTubeId(value)));
    }

    /** `handleEdit`: the form is filled from the video and the dialog opens. */
    method HandleEdit(video: ManagedVideo)
      modifies this
      ensures form == EditForm(old(form), video) && isDialogOpen
      ensures categories == old(categories) && videos == old(videos) && selectedCategory == old(selectedCategory)
        && loading == old(loading)
    {
      form := form.(editingVideo := Some(video));
      form := form.(formData := FormData(video.title, video.description,
        if video.youtubeId.Some? && video.youtubeId.value != "" then video.youtubeId.value else "",
        video.duration, video.videoType));
      form := form.(uploadMethod := video.videoType);
      isDialogOpen := true;
    }

    /** `resetForm`: every field and flag of the dialog back to its initial value. */
    method ResetForm()
      modifies this
      ensures form == InitialForm
      ensures categories == old(categories) && videos == old(videos) && selectedCategory == old(selectedCategory)
        && loading == old(loading) && isDialogOpen == old(isDialogOpen)
    {
      form := form.(editingVideo := None);
      form := form.(formData := FormData("", "", "", "", YouTube));
      form := form.(selectedFile := None);
      form := form.(uploadMethod := YouTube);
      form := form.(uploadProgress := 0);
      form := form.(isUploading := false);
    }

    /** `handleSubmit`. `upload` is the parsed reply to the upload request and
        `saved` the one to the save request (each `None` when the request
        threw), and `reload` the reply `loadVideos` then gets. On success the
        list is reloaded, the dialog closes, the form is reset and `notified`
        (the `onStatsUpdate` call) is set; on a failure only an alert is shown. */
    method HandleSubmit(configured: bool, upload: Option<Json>, saved: Option<Json>,
                        reload: Fetch<Option<seq<ManagedVideo>>>, nowIso: string)
      returns (request: Option<Request>, alert: Option<string>, notified: bool)
      modifies this
      ensures request == SubmitRequest(old(selectedCategory), old(form), configured, upload)
      ensures categories == old(categories) && selectedCategory == old(selectedCategory) && loading == old(loading)
      ensures var stop := SubmitStopOf(old(selectedCategory), old(form), configured);
        stop.Some? ==>
          alert == StopAlert(stop.value) && !notified && videos == old(videos)
          && (stop.value == DemoMode ==> !isDialogOpen && form == InitialForm)
          && (stop.value != DemoMode ==> isDialogOpen == old(isDialogOpen) && form == old(form))
      ensures SubmitStopOf(old(selectedCategory), old(form), configured).None? && request.None? ==>
        alert == Some("영상 저장 중 오류가 발생했습니다.") && !notified && videos == old(videos)
        && isDialogOpen == old(isDialogOpen) && form == old(form).(isUploading := false, uploadProgress := 0)
      ensures request.Some? && ReadThrows(saved) ==>
        alert == Some("영상 저장 중 오류가 발생했습니다.") && !notified && videos == old(videos)
        && isDialogOpen == old(isDialogOpen) && form == AfterUpload(old(form))
      ensures request.Some? && !ReadThrows(saved) && Truthy(Prop(saved, "success")) ==>
        alert.None? && notified && !isDialogOpen && form == InitialForm
        && videos == old(videos)[old(selectedCategory) := LoadedVideos(old(selectedCategory), reload, nowIso)]
      ensures request.Some? && !ReadThrows(saved) && !Truthy(Prop(saved, "success")) ==>
        alert == Some(Show(Some(Or(Prop(saved, "error"), JStr("영상 저장에 실패했습니다."))))) && !notified
        && videos == old(videos) && isDialogOpen == old(isDialogOpen) && form == AfterUpload(old(form))
    {
      request, alert, notified := None, None, false;
      var stop := SubmitStopOf(selectedCategory, form, configured);
      if stop.Some? {
        alert := StopAlert(stop.value);
        if stop.value == DemoMode {
          isDialogOpen := false;
          ResetForm();
        }
        return;
      }
      var videoUrl := Some(JStr(""));
      if form.uploadMethod == Local && form.selectedFile.Some? {
        // uploadVideoFile: the flags are set for the upload and cleared in its `finally`
        form := form.(isUploading := true, uploadProgress := 0);
        var uploaded := UploadedUrl(upload);
        form := form.(isUploading := false, uploadProgress := 0);
        if uploaded.None? {
          alert := Some("영상 저장 중 오류가 발생했습니다.");
          return;
        }
        videoUrl := uploaded.value;
      }
      request := Some(SaveRequest(selectedCategory, form, videoUrl));
      assert form == AfterUpload(old(form));
      alert, notified := FinishSave(saved, reload, nowIso);
    }

    /** The part of `handleSubmit` after the save request: the reply's
        `success` reloads the list, closes the dialog and resets the form;
        anything else alerts and leaves them. */
    method FinishSave(saved: Option<Json>, reload: Fetch<Option<seq<ManagedVideo>>>, nowIso: string)
      returns (alert: Option<string>, notified: bool)
      modifies this
      ensures categories == old(categories) && selectedCategory == old(selectedCategory) && loading == old(loading)
      ensures ReadThrows(saved) ==>
        alert == Some("영상 저장 중 오류가 발생했습니다.") && !notified && videos == old(videos)
        && isDialogOpen == old(isDialogOpen) && form == old(form)
      ensures !ReadThrows(saved) && Truthy(Prop(saved, "success")) ==>
        alert.None? && notified && !isDialogOpen && form == InitialForm
        && videos == old(videos)[old(selectedCategory) := LoadedVideos(old(selectedCategory), reload, nowIso)]
      ensures !ReadThrows(saved) && !Truthy(Prop(saved, "success")) ==>
        alert == Some(Show(Some(Or(Prop(saved, "error"), JStr("영상 저장에 실패했습니다."))))) && !notified
        && videos == old(videos) && isDialogOpen == old(isDialogOpen) && form == old(form)
    {
      alert, notified := None, false;
      if ReadThrows(saved) {
        alert := Some("영상 저장 중 오류가 발생했습니다.");
        return;
      }
      if Truthy(Prop(saved, "success")) {
        LoadVideos(selectedCategory, reload, nowIso);
        notified := true;
        isDialogOpen := false;
        ResetForm();
      } else {
        alert := Some(Show(Some(Or(Prop(saved, "error"), JStr("영상 저장에 실패했습니다.")))));
      }
    }

    /** `handleDelete`. `confirmed` is the answer to the confirmation,
        `deleted` the parsed reply (`None` when the request threw; a `null`
        reply throws when its `success` is read) and `reload` the reply
        `loadVideos` then gets. Without a category or a confirmation nothing
        happens; in demo mode only an alert is shown. */
    method HandleDelete(videoId: string, confirmed: bool, configured: bool, deleted: Option<Json>,
                        reload: Fetch<Option<seq<ManagedVideo>>>, nowIso: string)
      returns (request: Option<Request>, alert: Option<string>, notified: bool)
      modifies this
      ensures request == DeleteRequest(old(selectedCategory), videoId, confirmed, configured)
      ensures categories == old(categories) && selectedCategory == old(selectedCategory) && loading == old(loading)
        && isDialogOpen == old(isDialogOpen) && form == old(form)
      ensures old(selectedCategory) == "" || !confirmed ==> alert.None? && !notified && videos == old(videos)
      ensures old(selectedCategory) != "" && confirmed && !configured ==>
        alert == Some("데모 모드에서는 영상을 실제로 삭제할 수 없습니다.") && !notified && videos == old(videos)
      ensures request.Some? && ReadThrows(deleted) ==>
        alert == Some("영상 삭제 중 오류가 발생했습니다.") && !notified && videos == old(videos)
      ensures request.Some? && !ReadThrows(deleted) && Truthy(Prop(deleted, "success")) ==>
        alert.None? && notified
        && videos == old(videos)[old(selectedCategory) := LoadedVideos(old(selectedCategory), reload, nowIso)]
      ensures request.Some? && !ReadThrows(deleted) && !Truthy(Prop(deleted, "success")) ==>
        alert == Some(Show(Some(Or(Prop(deleted, "error"), JStr("영상 삭제에 실패했습니다.")))))
        && !notified && videos == old(videos)
    {
      request, alert, notified := None, None, false;
      if selectedCategory == "" || !confirmed {
        return;
      }
      if !configured {
        alert := Some("데모 모드에서는 영상을 실제로 삭제할 수 없습니다.");
        return;
      }
      request := Some(Request("DELETE", "videos/" + selectedCategory + "/" + videoId, map[]));
      if ReadThrows(deleted) {
        alert := Some("영상 삭제 중 오류가 발생했습니다.");
        return;
      }
      if Truthy(Prop(deleted, "success")) {
        LoadVideos(selectedCategory, reload, nowIso);
        notified := true;
      } else {
        alert := Some(Show(Some(Or(Prop(deleted, "error"), JStr("영상 삭제에 실패했습니다.")))));
      }
    }
  }

  // ---------------------------------------------------------------- handleDelete

  /** The delete request `handleDelete` makes: none without a category, without
      the user's confirmation, or in demo mode. */
  function DeleteRequest(selectedCategory: string, videoId: string, confirmed: bool, configured: bool)
    : (r: Option<Request>)
    ensures r.Some? <==> selectedCategory != "" && confirmed && configured
    ensures r.Some? ==> r.value.verb == "DELETE" && r.value.path == "videos/" + selectedCategory + "/" + videoId
  {
    if selectedCategory == "" || !confirmed || !configured then None
    else Some(Request("DELETE", "videos/" + selectedCategory + "/" + videoId, map[]))
  }
}
