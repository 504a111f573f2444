/** src/components/VideoDescription.tsx: the card beside the player with the
    video's length, a completion badge and the learner's progress. */
module VideoDescription {
  import opened Common
  import opened Text
  import opened Types
  import opened WatchProgressHook

  /** `${Math.floor(seconds / 60)}분 ${seconds % 60}초` */
  function FormatDuration(seconds: int): string
  {
    IntToString(seconds / 60) + "분 " + IntToString(JsRem(seconds, 60)) + "초"
  }

  /** Reads `M분 S초` back, with `S` below 60. */
  function ReadDuration(t: string): Option<nat>
  {
    var parts := Split(t, ' ');
    if |parts| != 2 || |parts[0]| < 2 || |parts[1]| < 2 then None
    else
      var m := parts[0][..|parts[0]| - 1];
      var s := parts[1][..|parts[1]| - 1];
      if parts[0][|parts[0]| - 1] == '분' && parts[1][|parts[1]| - 1] == '초' && AllDigits(m) && AllDigits(s)
         && DigitsValue(s) < 60
      then Some(DigitsValue(m) * 60 + DigitsValue(s))
      else None
  }

  /** A non-negative length is shown without loss: minutes, then seconds below 60. */
  lemma DurationRoundTrip(n: nat)
    ensures ReadDuration(FormatDuration(n)) == Some(n)
  {
    assert FormatDuration(n) == NatToString(n / 60) + "분 " + NatToString(n % 60) + "초";
    ReadMinutesSeconds(n / 60, n % 60);
  }

  lemma ReadMinutesSeconds(m: nat, sec: nat)
    requires sec < 60
    ensures ReadDuration(NatToString(m) + "분 " + NatToString(sec) + "초") == Some(m * 60 + sec)
  {
    NatToStringRoundTrip(m);
    NatToStringRoundTrip(sec);
    ReadFields(NatToString(m), NatToString(sec));
  }

  /** Digit fields written as `M분 S초` read back as minutes and seconds. */
  lemma ReadFields(ms: string, ss: string)
    requires |ms| >= 1 && |ss| >= 1 && AllDigits(ms) && AllDigits(ss) && DigitsValue(ss) < 60
    ensures ReadDuration(ms + "분 " + ss + "초") == Some(DigitsValue(ms) * 60 + DigitsValue(ss))
  {
    var a := ms + "분";
    var b := ss + "초";
    assert ms + "분 " + ss + "초" == Join([a, b], ' ');
    forall i | 0 <= i < |a| ensures a[i] != ' ' {
      if i < |ms| { assert a[i] == ms[i] && IsDigit(ms[i]); }
    }
    forall i | 0 <= i < |b| ensures b[i] != ' ' {
      if i < |ss| { assert b[i] == ss[i] && IsDigit(ss[i]); }
    }
    SplitJoin([a, b], ' ');
    assert Split(ms + "분 " + ss + "초", ' ') == [a, b];
    assert a[..|a| - 1] == ms && b[..|b| - 1] == ss;
    assert a[|a| - 1] == '분' && b[|b| - 1] == '초';
  }

  /** How long ago the video was last watched, as the card words it. */
  datatype Ago = JustNow | HoursAgo(hours: nat) | DaysAgo(days: nat) | NaNDays

  /** `Math.floor((now - date) / 3600000)`; `None` (NaN) when the stored
      timestamp does not parse. */
  function HoursSince(nowMs: int, thenMs: Option<int>): Option<int>
  {
    if thenMs.Some? then Some((nowMs - thenMs.value) / 3_600_000) else None
  }

  /** The bucket of `formatLastWatched`: under an hour (including a time in
      the future), whole hours under a day, else whole days. */
  function AgoOf(hours: Option<int>): (a: Ago)
    ensures a == JustNow <==> hours.Some? && hours.value < 1
    ensures a.HoursAgo? ==> 1 <= a.hours < 24 && hours == Some(a.hours)
    ensures a.DaysAgo? ==> hours.Some? && 1 <= a.days && a.days * 24 <= hours.value < a.days * 24 + 24
    ensures a == NaNDays <==> hours.None?
  {
    match hours
    case None => NaNDays
    case Some(h) => if h < 1 then JustNow else if h < 24 then HoursAgo(h) else DaysAgo(h / 24)
  }

  function AgoText(a: Ago): string
  {
    match a
    case JustNow => "방금 전"
    case HoursAgo(h) => NatToString(h) + "시간 전"
    case DaysAgo(d) => NatToString(d) + "일 전"
    case NaNDays => "NaN일 전"
  }

  /** `formatLastWatched` */
  function FormatLastWatched(hours: Option<int>): string
  {
    AgoText(AgoOf(hours))
  }

  /** The bucket a worded age names. */
  function ReadAgo(t: string): Option<Ago>
  {
    if t == "방금 전" then Some(JustNow)
    else if t == "NaN일 전" then Some(NaNDays)
    else if |t| > 4 && t[|t| - 4..] == "시간 전" && AllDigits(t[..|t| - 4]) then Some(HoursAgo(DigitsValue(t[..|t| - 4])))
    else if |t| > 3 && t[|t| - 3..] == "일 전" && AllDigits(t[..|t| - 3]) then Some(DaysAgo(DigitsValue(t[..|t| - 3])))
    else None
  }

  /** The wording names its bucket unambiguously, so the card's text tells how
      long ago the video was watched to within an hour, or within a day past 24 hours. */
  lemma LastWatchedReadsBack(hours: Option<int>)
    ensures ReadAgo(FormatLastWatched(hours)) == Some(AgoOf(hours))
  {
    var a := AgoOf(hours);
    var t := AgoText(a);
    match a
    case JustNow =>
    case NaNDays =>
    case HoursAgo(h) =>
      var ds := NatToString(h);
      assert |t| > 4 && t[..|t| - 4] == ds && t[|t| - 4..] == "시간 전";
      assert t[0] != '방' && t[0] != 'N' by { assert t[0] == ds[0] && IsDigit(ds[0]); }
      NatToStringRoundTrip(h);
    case DaysAgo(d) =>
      var ds := NatToString(d);
      assert |t| > 3 && t[..|t| - 3] == ds && t[|t| - 3..] == "일 전";
      assert t[0] != '방' && t[0] != 'N' by { assert t[0] == ds[0] && IsDigit(ds[0]); }
      assert t[|t| - 3] == '일';
      NatToStringRoundTrip(d);
  }

  /** `progressInfo?.completed || false`: never for a video without an entry. */
  function IsCompleted(progressData: map<string, WatchProgress>, videoId: string): (r: bool)
    ensures r <==> videoId in progressData && progressData[videoId].completed
  {
    match GetProgress(progressData, videoId)
    case None => false
    case Some(p) => p.completed
  }

  /** The progress panel: the shown percentage, the bar's value, and the last
      watched line when the entry has a timestamp. */
  datatype Panel = Panel(shownPercent: int, barValue: real, lastWatched: Option<string>)

  /** The card: the length badge, the completion badge, the progress panel. */
  datatype Card = Card(durationText: string, completed: bool, panel: Option<Panel>)

  /** What the card shows. `nowMs` is the clock and `lastWatchedMs` the parsed
      `lastWatchedAt` of the video's entry (`None` when it does not parse). */
  function Describe(video: Video, progressData: map<string, WatchProgress>, nowMs: int, lastWatchedMs: Option<int>): (r: Card)
    requires video.duration > 0
    ensures ReadDuration(r.durationText) == Some(video.duration)
    ensures r.completed == IsCompleted(progressData, video.id)
    ensures r.panel.Some? <==> ProgressPercentage(progressData, video.id, video.duration as real) > 0.0
    ensures r.panel.Some? ==> video.id in progressData
    ensures r.panel.Some? ==>
      var bar := r.panel.value.barValue;
      bar == ProgressPercentage(progressData, video.id, video.duration as real)
      && bar - 0.5 < r.panel.value.shownPercent as real <= bar + 0.5
    ensures r.panel.Some? ==>
      (r.panel.value.lastWatched.Some? <==> progressData[video.id].lastWatchedAt != "")
    ensures r.panel.Some? && r.panel.value.lastWatched.Some? ==>
      ReadAgo(r.panel.value.lastWatched.value) == Some(AgoOf(HoursSince(nowMs, lastWatchedMs)))
  {
    var percentage := ProgressPercentage(progressData, video.id, video.duration as real);
    var info := GetProgress(progressData, video.id);
    var panel :=
      if percentage > 0.0 then
        var line := if info.Some? && info.value.lastWatchedAt != "" then Some(FormatLastWatched(HoursSince(nowMs, lastWatchedMs))) else None;
        LastWatchedReadsBack(HoursSince(nowMs, lastWatchedMs));
        Some(Panel(Round(percentage), percentage, line))
      else None;
    DurationRoundTrip(video.duration);
    Card(FormatDuration(video.duration), IsCompleted(progressData, video.id), panel)
  }
}
