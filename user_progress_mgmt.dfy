/** src/components/UserProgressManagement.tsx: the admin view that folds every
    progress record into per-learner totals, lists one learner's records,
    formats watch time and searches learners by id. */
module UserProgressManagement {
  import opened Common
  import opened Text
  import Json

  /** One record of `/admin/progress`. */
  datatype UserProgress = UserProgress(
    userId: string,
    videoId: string,
    categoryId: string,
    progress: real,
    watchTime: int,
    lastWatched: string)

  /** One learner's line in the table. */
  datatype UserStats = UserStats(totalVideos: nat, completedVideos: nat, avgProgress: real, lastActivity: string)

  /** `new Date(s).getTime()`: `None` for an invalid date (NaN). How text
      becomes an instant is a parameter of the model. */
  type Clock = string -> Option<int>

  /** `new Date(a) > new Date(b)`: false whenever either side is NaN. */
  predicate Later(at: Clock, a: string, b: string)
  {
    at(a).Some? && at(b).Some? && at(a).value > at(b).value
  }

  // ---------------------------------------------------------------- one learner

  /** `getUserProgress`: `allProgress.filter(p => p.userId === userId)`. */
  function UserRecords(records: seq<UserProgress>, userId: string): (r: seq<UserProgress>)
    ensures |r| <= |records|
  {
    if records == [] then []
    else
      var last := records[|records| - 1];
      UserRecords(records[..|records| - 1], userId) + (if last.userId == userId then [last] else [])
  }

  /** The filter keeps exactly the records of the learner: each kept record is
      theirs and comes from the input, and each of theirs is kept. */
  lemma {:induction false} UserRecordsExact(records: seq<UserProgress>, userId: string)
    ensures forall x :: x in UserRecords(records, userId) <==> x in records && x.userId == userId
  {
    if records != [] {
      var init := records[..|records| - 1];
      UserRecordsExact(init, userId);
      assert records == init + [records[|records| - 1]];
    }
  }

  /** Filtering distributes over concatenation, so the kept records stay in
      their original order. */
  lemma {:induction false} UserRecordsAppend(a: seq<UserProgress>, b: seq<UserProgress>, userId: string)
    ensures UserRecords(a + b, userId) == UserRecords(a, userId) + UserRecords(b, userId)
    decreases |b|
  {
    if b == [] {
      assert a + b == a;
    } else {
      var last := b[|b| - 1];
      assert (a + b)[..|a + b| - 1] == a + b[..|b| - 1];
      UserRecordsAppend(a, b[..|b| - 1], userId);
    }
  }

  /** A learner without records has an empty list, and a record of that
      learner is kept exactly when it is one of theirs. */
  lemma UserRecordsOfOne(r: UserProgress, userId: string)
    ensures UserRecords([r], userId) == if r.userId == userId then [r] else []
  {
    assert [r][..0] == [];
  }

  /** The records counted as complete: progress of at least 80. */
  function CompletedCount(records: seq<UserProgress>): (n: nat)
    ensures n <= |records|
    ensures n == |records| <==> forall k :: 0 <= k < |records| ==> records[k].progress >= 80.0
  {
    if records == [] then 0
    else
      var last := records[|records| - 1];
      CompletedCount(records[..|records| - 1]) + (if last.progress >= 80.0 then 1 else 0)
  }

  /** `records.reduce((sum, p) => sum + p.progress, 0)` */
  function Total(records: seq<UserProgress>): (t: real)
  {
    if records == [] then 0.0 else Total(records[..|records| - 1]) + records[|records| - 1].progress
  }

  /** Progress values between `lo` and `hi` add up to between `n * lo` and `n * hi`. */
  lemma {:induction false} TotalBounds(records: seq<UserProgress>, lo: real, hi: real)
    requires forall k :: 0 <= k < |records| ==> lo <= records[k].progress <= hi
    ensures |records| as real * lo <= Total(records) <= |records| as real * hi
  {
    if records != [] {
      TotalBounds(records[..|records| - 1], lo, hi);
    }
  }

  /** `userProgress.length > 0 ? totalProgress / userProgress.length : 0` */
  function Mean(records: seq<UserProgress>): (m: real)
    ensures records != [] ==> m * |records| as real == Total(records)
    ensures records == [] ==> m == 0.0
  {
    if records == [] then 0.0 else Total(records) / |records| as real
  }

  /** The mean of percentages is a percentage. */
  lemma MeanIsPercentage(records: seq<UserProgress>)
    requires forall k :: 0 <= k < |records| ==> 0.0 <= records[k].progress <= 100.0
    ensures 0.0 <= Mean(records) <= 100.0
  {
    TotalBounds(records, 0.0, 100.0);
    if records != [] {
      var n := |records| as real;
      assert Mean(records) * n == Total(records);
      assert Mean(records) * n <= 100.0 * n;
    }
  }

  /** The `lastActivity` fold: the first record's time, replaced by each later one. */
  function Latest(at: Clock, records: seq<UserProgress>): string
    requires records != []
  {
    if |records| == 1 then records[0].lastWatched
    else
      var previous := Latest(at, records[..|records| - 1]);
      var t := records[|records| - 1].lastWatched;
      if Later(at, t, previous) then t else previous
  }

  /** With every time valid, the fold finds the latest one: it is one of the
      records' times and no record is later. */
  lemma {:induction false} LatestIsMaximum(at: Clock, records: seq<UserProgress>)
    requires records != []
    requires forall k :: 0 <= k < |records| ==> at(records[k].lastWatched).Some?
    ensures exists k :: 0 <= k < |records| && records[k].lastWatched == Latest(at, records)
    ensures forall k :: 0 <= k < |records| ==> at(records[k].lastWatched).value <= at(Latest(at, records)).value
  {
    if |records| > 1 {
      var init := records[..|records| - 1];
      LatestIsMaximum(at, init);
      var k0 :| 0 <= k0 < |init| && init[k0].lastWatched == Latest(at, init);
      assert records[k0] == init[k0];
      var last := |records| - 1;
      if Later(at, records[last].lastWatched, Latest(at, init)) {
        assert records[last].lastWatched == Latest(at, records);
      } else {
        assert records[k0].lastWatched == Latest(at, records);
      }
      forall k | 0 <= k < |records| ensures at(records[k].lastWatched).value <= at(Latest(at, records)).value {
        if k < |init| {
          assert records[k] == init[k];
        }
      }
    } else {
      assert records[0].lastWatched == Latest(at, records);
    }
  }

  /** What `getUserStats` holds for a learner with at least one record. */
  function Expected(at: Clock, records: seq<UserProgress>, userId: string): UserStats
    requires UserRecords(records, userId) != []
  {
    var mine := UserRecords(records, userId);
    UserStats(|mine|, CompletedCount(mine), Mean(mine), Latest(at, mine))
  }

  // ---------------------------------------------------------------- all learners

  /** The learners in the order their first record appears (the key order of
      the object `getUserStats` builds). */
  function FirstAppearance(records: seq<UserProgress>): (ids: seq<string>)
    ensures forall i, j :: 0 <= i < j < |ids| ==> ids[i] != ids[j]
  {
    if records == [] then []
    else
      var previous := FirstAppearance(records[..|records| - 1]);
      var u := records[|records| - 1].userId;
      if u in previous then previous else previous + [u]
  }

  /** The key list names exactly the learners with records. */
  lemma {:induction false} FirstAppearanceExact(records: seq<UserProgress>)
    ensures forall u :: u in FirstAppearance(records) <==> UserRecords(records, u) != []
  {
    if records != [] {
      FirstAppearanceExact(records[..|records| - 1]);
    }
  }

  /** A learner's line after the first pass over `records`: the mean is not
      set yet. */
  function Partial(at: Clock, records: seq<UserProgress>, userId: string): UserStats
    requires UserRecords(records, userId) != []
  {
    var mine := UserRecords(records, userId);
    UserStats(|mine|, CompletedCount(mine), 0.0, Latest(at, mine))
  }

  /** The first pass's update of a learner's line by one of their records. */
  function Bump(at: Clock, s: UserStats, p: UserProgress): UserStats
  {
    UserStats(s.totalVideos + 1, s.completedVideos + (if p.progress >= 80.0 then 1 else 0), s.avgProgress,
      if Later(at, p.lastWatched, s.lastActivity) then p.lastWatched else s.lastActivity)
  }

  /** `getUserStats`: one pass counting records, completions and the latest
      activity per learner, then one pass over the learners setting the mean. */
  method GetUserStats(at: Clock, allProgress: seq<UserProgress>) returns (userStats: map<string, UserStats>, keys: seq<string>)
    ensures forall u :: u in userStats <==> UserRecords(allProgress, u) != []
    ensures forall u :: u in userStats ==> userStats[u] == Expected(at, allProgress, u)
    ensures keys == Json.ObjectKeys(FirstAppearance(allProgress))
  {
    var added;
    userStats, added := CountPass(at, allProgress);
    FoldIsPartial(at, allProgress);
    FirstAppearanceExact(allProgress);
    keys := Json.ObjectKeys(added);
    assert forall u :: u in keys <==> u in multiset(added);
    userStats := MeanPass(at, allProgress, userStats, keys);
  }

  /** The lines after the first pass over `records`, record by record. */
  function Fold(at: Clock, records: seq<UserProgress>): map<string, UserStats>
  {
    if records == [] then map[]
    else
      var m := Fold(at, records[..|records| - 1]);
      var p := records[|records| - 1];
      m[p.userId := Bump(at, if p.userId in m then m[p.userId] else UserStats(0, 0, 0.0, p.lastWatched), p)]
  }

  /** The first pass gives every learner with records their count, completed
      count and latest activity, and no one else a line. */
  lemma {:induction false} FoldIsPartial(at: Clock, records: seq<UserProgress>)
    ensures forall u :: u in Fold(at, records) <==> UserRecords(records, u) != []
    ensures forall u :: u in Fold(at, records) ==> Fold(at, records)[u] == Partial(at, records, u)
  {
    if records != [] {
      var n := |records| - 1;
      assert records[..n + 1] == records;
      FoldIsPartial(at, records[..n]);
      FoldStep(at, records, n);
    }
  }

  /** The `allProgress.forEach` pass. */
  method CountPass(at: Clock, allProgress: seq<UserProgress>) returns (userStats: map<string, UserStats>, keys: seq<string>)
    ensures keys == FirstAppearance(allProgress)
    ensures userStats == Fold(at, allProgress)
  {
    userStats := map[];
    keys := [];
    var i := 0;
    while i < |allProgress|
      invariant 0 <= i <= |allProgress|
      invariant keys == FirstAppearance(allProgress[..i])
      invariant userStats == Fold(at, allProgress[..i])
    {
      var p := allProgress[i];
      ghost var m, ids := userStats, keys;
      var start := UserStats(0, 0, 0.0, p.lastWatched);
      if p.userId in userStats {
        start := userStats[p.userId];
      } else {
        keys := keys + [p.userId];
      }
      var s := start.(totalVideos := start.totalVideos + 1);
      if p.progress >= 80.0 {
        s := s.(completedVideos := s.completedVideos + 1);
      }
      if Later(at, p.lastWatched, s.lastActivity) {
        s := s.(lastActivity := p.lastWatched);
      }
      assert s == Bump(at, start, p);
      userStats := userStats[p.userId := s];
      CountStepMatches(at, allProgress, i, m, ids, start, userStats, keys);
      i := i + 1;
    }
    assert allProgress[..i] == allProgress;
  }

  /** The loop body of the first pass performs one step of `Fold` and of
      `FirstAppearance`. */
  lemma CountStepMatches(at: Clock, records: seq<UserProgress>, i: nat,
                         m: map<string, UserStats>, ids: seq<string>, start: UserStats,
                         m': map<string, UserStats>, ids': seq<string>)
    requires i < |records|
    requires m == Fold(at, records[..i]) && ids == FirstAppearance(records[..i])
    requires var p := records[i];
      start == (if p.userId in m then m[p.userId] else UserStats(0, 0, 0.0, p.lastWatched))
      && m' == m[p.userId := Bump(at, start, p)]
      && ids' == if p.userId in m then ids else ids + [p.userId]
    ensures m' == Fold(at, records[..i + 1]) && ids' == FirstAppearance(records[..i + 1])
  {
    var p := records[i];
    CountStep(at, records, i);
    FoldKey(at, records[..i], p.userId);
    assert (p.userId in m) == (p.userId in ids);
  }

  /** The first pass's lines and its key list name the same learners. */
  lemma FoldKey(at: Clock, records: seq<UserProgress>, u: string)
    ensures u in Fold(at, records) <==> u in FirstAppearance(records)
  {
    FoldIsPartial(at, records);
    FirstAppearanceExact(records);
  }

  /** `Fold` and `FirstAppearance` over one more record. */
  lemma CountStep(at: Clock, records: seq<UserProgress>, i: nat)
    requires i < |records|
    ensures var m := Fold(at, records[..i]); var p := records[i];
      Fold(at, records[..i + 1])
        == m[p.userId := Bump(at, if p.userId in m then m[p.userId] else UserStats(0, 0, 0.0, p.lastWatched), p)]
    ensures var ids := FirstAppearance(records[..i]); var u := records[i].userId;
      FirstAppearance(records[..i + 1]) == if u in ids then ids else ids + [u]
  {
    assert records[..i + 1][..i] == records[..i];
  }

  /** The `Object.keys(userStats).forEach` pass. */
  method MeanPass(at: Clock, allProgress: seq<UserProgress>, counted: map<string, UserStats>, keys: seq<string>)
    returns (userStats: map<string, UserStats>)
    requires forall u :: u in counted <==> u in keys
    requires forall u :: u in counted ==> UserRecords(allProgress, u) != [] && counted[u] == Partial(at, allProgress, u)
    ensures forall u :: u in userStats <==> u in counted
    ensures forall u :: u in userStats ==> userStats[u] == Expected(at, allProgress, u)
  {
    userStats := counted;
    var j := 0;
    while j < |keys|
      invariant 0 <= j <= |keys|
      invariant forall u :: u in userStats <==> u in counted
      invariant forall u :: u in userStats && u in keys[..j] ==> userStats[u] == Expected(at, allProgress, u)
      invariant forall u :: u in userStats && u !in keys[..j] ==> userStats[u] == Partial(at, allProgress, u)
    {
      var u := keys[j];
      var mine := UserRecords(allProgress, u);
      var line := userStats[u].(avgProgress := if |mine| > 0 then Total(mine) / |mine| as real else 0.0);
      MeanStep(at, allProgress, u, userStats[u], line);
      userStats := userStats[u := line];
      assert keys[..j + 1] == keys[..j] + [u];
      j := j + 1;
    }
    assert keys[..j] == keys;
  }

  /** Setting the mean on a learner's line, counted or already finished, gives
      the finished line. */
  lemma MeanStep(at: Clock, records: seq<UserProgress>, u: string, s: UserStats, line: UserStats)
    requires UserRecords(records, u) != []
    requires s == Partial(at, records, u) || s == Expected(at, records, u)
    requires var mine := UserRecords(records, u);
      line == s.(avgProgress := if |mine| > 0 then Total(mine) / |mine| as real else 0.0)
    ensures line == Expected(at, records, u)
  {
  }

  /** One step of the first pass: the record's learner gets a new line or a
      bumped one, and no other learner's records change. */
  lemma FoldStep(at: Clock, records: seq<UserProgress>, i: nat)
    requires i < |records|
    ensures var p := records[i];
      var before := UserRecords(records[..i], p.userId);
      UserRecords(records[..i + 1], p.userId) != []
      && Partial(at, records[..i + 1], p.userId)
         == Bump(at, if before == [] then UserStats(0, 0, 0.0, p.lastWatched) else Partial(at, records[..i], p.userId), p)
      && FirstAppearance(records[..i + 1])
         == if before == [] then FirstAppearance(records[..i]) + [p.userId] else FirstAppearance(records[..i])
    ensures forall u :: u != records[i].userId ==> UserRecords(records[..i + 1], u) == UserRecords(records[..i], u)
  {
    var p := records[i];
    assert records[..i + 1][..i] == records[..i];
    FirstAppearanceExact(records[..i]);
    var before := UserRecords(records[..i], p.userId);
    var after := before + [p];
    assert UserRecords(records[..i + 1], p.userId) == after;
    assert after[..|after| - 1] == before;
    if before == [] {
      assert after == [p];
    }
  }

  /** `completedVideos` never exceeds `totalVideos`, and the learner has a line
      exactly when some record is theirs. */
  lemma StatsConsistent(at: Clock, records: seq<UserProgress>, userId: string)
    requires UserRecords(records, userId) != []
    ensures Expected(at, records, userId).completedVideos <= Expected(at, records, userId).totalVideos
    ensures exists k :: 0 <= k < |records| && records[k].userId == userId
  {
    var mine := UserRecords(records, userId);
    assert mine[0] in mine;
    UserRecordsExact(records, userId);
  }

  // ---------------------------------------------------------------- formatting

  /** `formatDuration`: `h:mm:ss` from one hour on, `m:ss` below. */
  function FormatDuration(seconds: nat): string
  {
    var hours := seconds / 3600;
    var minutes := seconds % 3600 / 60;
    var secs := seconds % 60;
    if hours > 0 then NatToString(hours) + ":" + PadStart2(NatToString(minutes)) + ":" + PadStart2(NatToString(secs))
    else NatToString(minutes) + ":" + PadStart2(NatToString(secs))
  }

  /** The formatted duration reads back as the same number of seconds. */
  lemma FormatDurationRoundTrip(seconds: nat)
    ensures ParseClock(FormatDuration(seconds)) == Some(seconds)
  {
    if seconds >= 3600 {
      LongRoundTrip(seconds);
    } else {
      ShortRoundTrip(seconds);
    }
  }

  lemma LongRoundTrip(seconds: nat)
    requires seconds >= 3600
    ensures ParseClock(FormatDuration(seconds)) == Some(seconds)
  {
    var h, m, s := seconds / 3600, seconds % 3600 / 60, seconds % 60;
    ClockFields(seconds);
    LongText(seconds);
    JoinThree(NatToString(h), PadStart2(NatToString(m)), PadStart2(NatToString(s)), ':');
    ReadLong(h, m, s);
  }

  lemma ShortRoundTrip(seconds: nat)
    requires seconds < 3600
    ensures ParseClock(FormatDuration(seconds)) == Some(seconds)
  {
    var m, s := seconds / 60, seconds % 60;
    ClockFields(seconds);
    ShortText(seconds);
    assert Join([NatToString(m), PadStart2(NatToString(s))], ':') == NatToString(m) + ":" + PadStart2(NatToString(s));
    ReadShort(m, s);
  }

  /** The clock fields of a number of seconds, and the number they make up again. */
  lemma ClockFields(seconds: nat)
    ensures seconds % 3600 / 60 < 60 && seconds % 60 < 60
    ensures seconds == seconds / 3600 * 3600 + seconds % 3600 / 60 * 60 + seconds % 60
    ensures seconds < 3600 ==> seconds == seconds / 60 * 60 + seconds % 60
  {
    ClockSplit(seconds);
  }

  lemma ReadLong(hours: nat, minutes: nat, secs: nat)
    requires minutes < 60 && secs < 60
    ensures ParseClock(NatToString(hours) + ":" + PadStart2(NatToString(minutes)) + ":" + PadStart2(NatToString(secs)))
            == Some(hours * 3600 + minutes * 60 + secs)
  {
    PaddedTwoDigits(secs);
    PaddedTwoDigits(minutes);
    NatToStringRoundTrip(hours);
    ReadThree(NatToString(hours), PadStart2(NatToString(minutes)), PadStart2(NatToString(secs)), hours, minutes, secs);
  }

  lemma ReadShort(minutes: nat, secs: nat)
    requires minutes < 60 && secs < 60
    ensures ParseClock(NatToString(minutes) + ":" + PadStart2(NatToString(secs))) == Some(minutes * 60 + secs)
  {
    PaddedTwoDigits(secs);
    NatToStringRoundTrip(minutes);
    ReadTwo(NatToString(minutes), PadStart2(NatToString(secs)), minutes, secs);
  }

  lemma ClockSplit(seconds: nat)
    ensures seconds == seconds / 3600 * 3600 + seconds % 3600 / 60 * 60 + seconds % 60
  {
    var q, a := seconds / 3600, seconds % 3600;
    var c, b := a / 60, a % 60;
    assert seconds == 60 * (60 * q + c) + b;
    RemainderOf(seconds, 60 * q + c, b);
  }

  /** The remainder by 60 is determined by any split into minutes and a rest below 60. */
  lemma RemainderOf(n: int, k: int, r: int)
    requires 0 <= r < 60 && n == 60 * k + r
    ensures n % 60 == r
  {
  }

  /** Hours appear exactly from 3600 seconds on. */
  lemma FormatDurationShape(seconds: nat)
    ensures var parts := Split(FormatDuration(seconds), ':');
      (seconds >= 3600 ==>
         |parts| == 3 && parts[0] == NatToString(seconds / 3600) && |parts[1]| == 2 && |parts[2]| == 2)
      && (seconds < 3600 ==> |parts| == 2 && parts[0] == NatToString(seconds / 60) && |parts[1]| == 2)
      && AllDigits(parts[0]) && AllDigits(parts[1]) && (seconds >= 3600 ==> AllDigits(parts[2]))
  {
    if seconds >= 3600 {
      LongShape(seconds);
    } else {
      ShortShape(seconds);
    }
  }

  lemma LongShape(seconds: nat)
    requires seconds >= 3600
    ensures var parts := Split(FormatDuration(seconds), ':');
      |parts| == 3 && parts[0] == NatToString(seconds / 3600) && |parts[1]| == 2 && |parts[2]| == 2
      && AllDigits(parts[0]) && AllDigits(parts[1]) && AllDigits(parts[2])
  {
    PaddedTwoDigits(seconds % 3600 / 60);
    PaddedTwoDigits(seconds % 60);
    LongText(seconds);
    DigitFields3(NatToString(seconds / 3600), PadStart2(NatToString(seconds % 3600 / 60)),
                 PadStart2(NatToString(seconds % 60)));
  }

  lemma LongText(seconds: nat)
    requires seconds >= 3600
    ensures FormatDuration(seconds)
            == Join([NatToString(seconds / 3600), PadStart2(NatToString(seconds % 3600 / 60)),
                     PadStart2(NatToString(seconds % 60))], ':')
  {
    JoinThree(NatToString(seconds / 3600), PadStart2(NatToString(seconds % 3600 / 60)),
              PadStart2(NatToString(seconds % 60)), ':');
  }

  lemma ShortShape(seconds: nat)
    requires seconds < 3600
    ensures var parts := Split(FormatDuration(seconds), ':');
      |parts| == 2 && parts[0] == NatToString(seconds / 60) && |parts[1]| == 2
      && AllDigits(parts[0]) && AllDigits(parts[1])
  {
    PaddedTwoDigits(seconds % 60);
    ShortText(seconds);
    DigitFields2(NatToString(seconds / 60), PadStart2(NatToString(seconds % 60)));
  }

  lemma ShortText(seconds: nat)
    requires seconds < 3600
    ensures FormatDuration(seconds) == Join([NatToString(seconds / 60), PadStart2(NatToString(seconds % 60))], ':')
  {
    UnderAnHour(seconds);
    var ms, ss := NatToString(seconds / 60), PadStart2(NatToString(seconds % 60));
    assert Join([ms, ss], ':') == ms + ":" + ss;
  }

  lemma UnderAnHour(seconds: nat)
    requires seconds < 3600
    ensures seconds / 3600 == 0 && seconds % 3600 / 60 == seconds / 60
  {
  }

  lemma DigitFields3(a: string, b: string, c: string)
    requires AllDigits(a) && AllDigits(b) && AllDigits(c)
    ensures Split(Join([a, b, c], ':'), ':') == [a, b, c]
  {
    ClockParts([a, b, c]);
  }

  lemma DigitFields2(a: string, b: string)
    requires AllDigits(a) && AllDigits(b)
    ensures Split(Join([a, b], ':'), ':') == [a, b]
  {
    ClockParts([a, b]);
  }

  // ---------------------------------------------------------------- search

  /** The search: a case-insensitive substring match on the learner id. */
  predicate Matches(userId: string, term: string)
  {
    Contains(ToLower(userId), ToLower(term))
  }

  /** `filteredUsers`: the learners whose id matches, in key order. */
  function FilteredUsers(keys: seq<string>, term: string): (r: seq<string>)
    ensures |r| <= |keys|
    ensures forall k :: 0 <= k < |r| ==> r[k] in keys && Matches(r[k], term)
    ensures forall k :: 0 <= k < |keys| && Matches(keys[k], term) ==> keys[k] in r
  {
    if keys == [] then []
    else
      var last := keys[|keys| - 1];
      FilteredUsers(keys[..|keys| - 1], term) + (if Matches(last, term) then [last] else [])
  }

  /** An empty search term keeps every learner. */
  lemma {:induction false} EmptyTermKeepsAll(keys: seq<string>)
    ensures FilteredUsers(keys, "") == keys
  {
    if keys != [] {
      EmptyTermKeepsAll(keys[..|keys| - 1]);
      assert OccursAt(ToLower(keys[|keys| - 1]), "", 0);
    }
  }

  /** Lower-casing twice is lower-casing once. */
  lemma {:induction false} ToLowerIdempotent(s: string)
    ensures ToLower(ToLower(s)) == ToLower(s)
  {
    if s != [] {
      ToLowerIdempotent(s[1..]);
      assert ToLower(s)[1..] == ToLower(s[1..]);
    }
  }

  /** The case of the term does not matter. */
  lemma {:induction false} SearchIgnoresTermCase(keys: seq<string>, term: string)
    ensures FilteredUsers(keys, term) == FilteredUsers(keys, ToLower(term))
  {
    ToLowerIdempotent(term);
    if keys != [] {
      SearchIgnoresTermCase(keys[..|keys| - 1], term);
    }
  }
}
