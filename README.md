# Training-video portal: a verified model of its core

This project models the core of a training-video portal for subway staff. The portal has three parts:

- A Supabase edge function holds admins, categories, videos, users and watch progress in a key-value store.
- A React client records a learner's watch progress in `localStorage`, shows an attendance calendar and offers admin screens for videos, categories, admins and learner statistics.
- A small Node mock server stands in for the attendance and progress routes during local development.

Each source file of the core is one Dafny module:

| module | source file |
|---|---|
| `ServerStore` | `supabase/functions/make-server-a8898ff1/index.ts` |
| `WatchProgressHook` | `src/hooks/useWatchProgress.ts` |
| `ProgressTracker` | `src/utils/progressTracker.ts` |
| `MyPage` | `src/components/MyPage.tsx` |
| `UserProgressManagement` | `src/components/UserProgressManagement.tsx` |
| `UserLogin` | `src/components/UserLogin.tsx` |
| `VideoManagement` | `src/components/VideoManagement.tsx` |
| `CategoryManagement` | `src/components/CategoryManagement.tsx` |
| `AdminManagement` | `src/components/AdminManagement.tsx` |
| `AppShell` | `src/App.tsx` |
| `MockServer` | `scripts/mock-supabase.js` |
| `VideoDescription` | `src/components/VideoDescription.tsx` |

Some modules are shared:

- `Common` holds `Option` and the outcome of a `fetch`: ok with a body, a non-ok status, or a thrown error.
- `Text` holds string helpers: digits, `String(n)`, `padStart`, `trim`, `split` and `join`, with their round trips. It also holds `Number(s)` for strings and `decodeURIComponent`.
- `Json` holds JavaScript values, truthiness, `||` defaults, object spread and the key order of `Object.keys`.
- `Types` holds the records of `src/types/video.ts`.
- `Browser` models `localStorage` as a class over a map.
- `Http` holds a request and the metadata of a chosen file.
- `Interop` states what the edge function does with the requests the browser actually sends.

Code that changes state in place is modelled by classes whose methods state the whole new state. This covers the key-value store, the hook's progress map, `localStorage`, the component states and the mock server's store. Loops of the source are methods with loop invariants:

- the attendance count;
- the calendar grid;
- the statistics fold;
- the `localStorage` scan;
- the per-category video load.

Each such method is proved against a specification function. The promised properties are proved as lemmas about that function.

The browser and the edge function disagree about several requests. Each side is modelled as written, and `Interop` proves what follows:

- The progress body names the learner `id`. The edge function requires `userId` and answers 400. The mock server reads `id` and accepts the same body.
- The video dialog's create body is flat. The edge function requires a `video` property, so every create from the dialog gets 400.
- The category screen returns `data.publicUrl.publicUrl` from an upload, but the edge function answers with `publicUrl` as text. The uploaded image is therefore never saved.
- The admin screen calls `admin/<id>`. The edge function's routes are `admin/update/:id` and `admin/delete/:id`, so the calls miss them for every id the server hands out.
- Editing a local video without a new file sends `videoUrl: ""`. The server's shallow merge stores that empty URL.
- The attendance routes used by the attendance page exist only in the mock server.
- The video dialog uploads its file in the form field `video` and reads `videoUrl` from the reply. The edge function reads the field `file` and answers 400, so every local upload fails and no save request follows. Even with the field renamed, the success reply names the URL `url`, so the save body would have no `videoUrl`.
- The category screen's delete confirmation says the category's videos are deleted too. The edge function removes only the category, and its `videos_<id>` list survives.
- The video dialog and the edge function's seed data store `duration` as `m:ss` text. The progress hook multiplies the duration as a number of seconds, and JavaScript reads such text as NaN, so no video is ever marked complete.

## Model

| member | source | states |
|---|---|---|
| ServerStore.FindIndex | supabase/functions/make-server-a8898ff1/index.ts:313 | `findIndex` by strict id equality: -1 exactly when no entry matches, otherwise the first matching index |
| ServerStore.RemoveAll | supabase/functions/make-server-a8898ff1/index.ts:331 | `filter(a => a.id !== id)`: no entry with the id survives and the list never grows |
| ServerStore.RemoveAllKeeps | supabase/functions/make-server-a8898ff1/index.ts:331 | an entry is kept exactly when it was in the list and lacks the id: every other entry survives and nothing new appears |
| ServerStore.RemoveAllAppend | supabase/functions/make-server-a8898ff1/index.ts:331 | filtering distributes over concatenation, so the order of the kept entries is preserved |
| ServerStore.RemoveAllAbsent | supabase/functions/make-server-a8898ff1/index.ts:390 | deleting an absent id leaves the list exactly as it was |
| ServerStore.RemoveAt | supabase/functions/make-server-a8898ff1/index.ts:659 | `splice(i, 1)`: one entry fewer, the entries before `i` kept, the ones after shifted down, the same multiset less that one entry |
| ServerStore.UpdateById | supabase/functions/make-server-a8898ff1/index.ts:313-315 | no match gives no update; otherwise the same length, only the first matching index changes, by shallow merge of the patch |
| ServerStore.MigratedAdmins | supabase/functions/make-server-a8898ff1/index.ts:44-57 | the legacy `admin_*` entries are copied exactly when the list is absent or empty and there is at least one of them |
| ServerStore.DefaultAdmin | supabase/functions/make-server-a8898ff1/index.ts:63-75 | the seeded admin has employeeId `ADMIN001` and `isMainAdmin` true |
| ServerStore.SeededAdmins | supabase/functions/make-server-a8898ff1/index.ts:59-80 | an empty admin list becomes exactly the default admin; a non-empty one is unchanged |
| ServerStore.SeedingIdempotent | supabase/functions/make-server-a8898ff1/index.ts:59-80 | seeding twice is seeding once |
| ServerStore.FindLogin | supabase/functions/make-server-a8898ff1/index.ts:266 | login finds the first admin matching both employeeId and password, and -1 exactly when none matches |
| ServerStore.PublicView | supabase/functions/make-server-a8898ff1/index.ts:268 | the login reply carries id, name, employeeId and isMainAdmin, unchanged, and never the password |
| ServerStore.NewAdmin | supabase/functions/make-server-a8898ff1/index.ts:294-295 | a new admin keeps every posted field, takes the posted id or `admin_<now>`, and gets `createdAt` |
| ServerStore.NewVideo | supabase/functions/make-server-a8898ff1/index.ts:578-591 | a new video keeps the posted fields and gets id `<categoryId>_<now>` and `createdAt` |
| ServerStore.VideoPatch | supabase/functions/make-server-a8898ff1/index.ts:624-629 | the update patch keeps the posted fields and forces `id` to the path id and `updatedAt` to now |
| ServerStore.UpdateVideoKeepsId | supabase/functions/make-server-a8898ff1/index.ts:618-629 | after an update the changed entry still carries the path id, and all other entries are unchanged |
| ServerStore.VideoDeleteRemovesOne | supabase/functions/make-server-a8898ff1/index.ts:653-659 | with two entries of the same id, video delete removes only the first, whereas the admin and category filter removes both |
| ServerStore.UploadVideoReply | supabase/functions/make-server-a8898ff1/index.ts:411-434 | 401 without authorization; 400 unless the field `file` holds a file; 200 exactly with a file, a non-empty `categoryId` and a successful storage write, and then the reply has `success` and the signed URL as `url`, never `videoUrl`; every other reply is only an `error` |
| ServerStore.UserRecord | supabase/functions/make-server-a8898ff1/index.ts:540-547 | the stored user carries the posted id, name and employeeId, department defaulting to `''`, `updatedAt` now, and `createdAt` kept from an existing entry or now for a new one |
| ServerStore.UpsertUsers | supabase/functions/make-server-a8898ff1/index.ts:538-553 | an existing user is replaced in place, a new one is appended, so the list grows by at most one |
| ServerStore.UpsertTwiceKeepsCreatedAt | supabase/functions/make-server-a8898ff1/index.ts:538-553 | a second upsert of the same user keeps the `createdAt` of the first and adds no entry |
| ServerStore.Put | supabase/functions/make-server-a8898ff1/index.ts:444-455 | an object literal property with an `undefined` value leaves the object unchanged; otherwise the key reads the value; no other key changes |
| ServerStore.ProgressRecordFields | supabase/functions/make-server-a8898ff1/index.ts:444-454 | the progress record copies userId, videoId, categoryId and progress; userName and employeeId default to `''`; a non-number watchTime becomes 0; the timestamps are now |
| ServerStore.PostProgress | supabase/functions/make-server-a8898ff1/index.ts:437-455 | without truthy userId or videoId the answer is 400 and nothing changes; otherwise exactly key `progress_<userId>_<videoId>` is written |
| ServerStore.SecondPostOverwrites | supabase/functions/make-server-a8898ff1/index.ts:442-455 | a second post for the same learner and video overwrites the first completely |
| ServerStore.KvStore.constructor | supabase/functions/make-server-a8898ff1/index.ts:34 | the store starts empty |
| ServerStore.KvStore.List | supabase/functions/make-server-a8898ff1/index.ts:36-38 | a list key reads as its stored list, or `[]` when absent |
| ServerStore.KvStore.GetAdmins | supabase/functions/make-server-a8898ff1/index.ts:36-38 | `getAdmins` returns the stored admin list or `[]` |
| ServerStore.KvStore.MigrateAdminsToList | supabase/functions/make-server-a8898ff1/index.ts:44-57 | the admin list is replaced by the legacy entries exactly when the migration applies; nothing else changes |
| ServerStore.KvStore.InitializeDefaultAdmin | supabase/functions/make-server-a8898ff1/index.ts:59-80 | afterwards the admin list is non-empty: untouched if it was non-empty, the migrated entries if there were some, else exactly the default admin |
| ServerStore.KvStore.AdminLogin | supabase/functions/make-server-a8898ff1/index.ts:261-274 | the store after is exactly the migrated one; searching the stored admin list, or the legacy `admin_*` entries when that list is absent or empty, 401 when no admin matches both fields, otherwise 200 with the public view of the first match |
| ServerStore.KvStore.CreateAdmin | supabase/functions/make-server-a8898ff1/index.ts:290-304 | the new admin is appended to the admin list; 200 |
| ServerStore.KvStore.UpdateEntry | supabase/functions/make-server-a8898ff1/index.ts:313-316 | 404 and no change for an unknown id, otherwise 200 with the first match merged |
| ServerStore.KvStore.UpdateAdmin | supabase/functions/make-server-a8898ff1/index.ts:306-323 | admin update: 404 and no change for an unknown id, else the first match merged with the body |
| ServerStore.KvStore.DeleteAdmin | supabase/functions/make-server-a8898ff1/index.ts:325-339 | admin delete removes every entry with the id and answers 200 even when none matched |
| ServerStore.KvStore.CreateCategory | supabase/functions/make-server-a8898ff1/index.ts:351-364 | the posted category is appended; 200 |
| ServerStore.KvStore.UpdateCategory | supabase/functions/make-server-a8898ff1/index.ts:366-382 | category update: 404 and no change for an unknown id, else the first match merged with the body |
| ServerStore.KvStore.DeleteCategory | supabase/functions/make-server-a8898ff1/index.ts:384-397 | category delete removes every entry with the id and answers 200 even when none matched |
| ServerStore.KvStore.CreateVideo | supabase/functions/make-server-a8898ff1/index.ts:571-601 | 400 and no change without categoryId or video, otherwise the new video appended to `videos_<categoryId>` and returned |
| ServerStore.KvStore.UpdateVideo | supabase/functions/make-server-a8898ff1/index.ts:609-638 | 404 and no change for an unknown id, otherwise only the first match changes, merged with the id forced to the path id |
| ServerStore.KvStore.DeleteVideo | supabase/functions/make-server-a8898ff1/index.ts:645-665 | 404 and no change for an unknown id, otherwise only the first match is spliced out |
| ServerStore.KvStore.UpsertUser | supabase/functions/make-server-a8898ff1/index.ts:529-560 | 400 and no change without userId, name or employeeId; otherwise the upserted list is stored, and the reply is the `UserRecord` built from the posted fields and the existing entry's `createdAt`, which is the entry now stored at the user's position (or appended last) |
| ServerStore.KvStore.PostProgressHandler | supabase/functions/make-server-a8898ff1/index.ts:437-466 | the status and the new records are those of `PostProgress`; the lists are untouched |
| WatchProgressHook.StorageKey | src/hooks/useWatchProgress.ts:24 | the key is `video-progress-<employeeId>` for a parsed current user, and `video-progress` otherwise |
| WatchProgressHook.StorageKeysSeparateLearners | src/hooks/useWatchProgress.ts:24 | learners with different employee ids get different keys, and none shares the anonymous key |
| WatchProgressHook.StorageKeyIsNotTrackerKey | src/hooks/useWatchProgress.ts:41 | the hook's key never collides with the tracker's `progress_*`, `learningHubid` or `currentUser` keys |
| WatchProgressHook.RawPercentage | src/hooks/useWatchProgress.ts:50 | the watched share is watched over total times 100 when that is at most 100 and exactly 100 above it; it is non-negative for non-negative seconds |
| WatchProgressHook.CompletedIffNinetyPercent | src/hooks/useWatchProgress.ts:49-50 | a video is completed exactly when its clamped percentage reaches 90 |
| WatchProgressHook.Round | src/hooks/useWatchProgress.ts:99 | `Math.round` gives the integer nearest to x, halves rounding up |
| WatchProgressHook.RoundTenth | src/hooks/useWatchProgress.ts:99 | rounding to one decimal moves x by at most 0.05 and yields a whole number of tenths |
| WatchProgressHook.GetProgress | src/hooks/useWatchProgress.ts:89-91 | `getProgress` is null exactly when the video has no entry, and otherwise is that entry |
| WatchProgressHook.ProgressPercentage | src/hooks/useWatchProgress.ts:94-100 | 0 without an entry, otherwise `RoundTenth` of the clamped percentage (within 0.05 of it), lying in [0, 100] for non-negative seconds |
| WatchProgressHook.PercentageExample | src/hooks/useWatchProgress.ts:94-100 | 550 of 600 seconds shows 91.7 |
| WatchProgressHook.Loaded | src/hooks/useWatchProgress.ts:22-36 | on load, an absent key yields `{}`, a stored map is taken, and unreadable contents leave the data unchanged |
| WatchProgressHook.SaveThenLoad | src/hooks/useWatchProgress.ts:22-46 | what `saveProgressToStorage` writes, the next load reads back unchanged |
| WatchProgressHook.WithEntry | src/hooks/useWatchProgress.ts:49-71 | the update sets only the entry for the video, with its completion flag; all other entries are unchanged |
| WatchProgressHook.ProgressHook.constructor | src/hooks/useWatchProgress.ts:6 | the progress map starts empty |
| WatchProgressHook.ProgressHook.Load | src/hooks/useWatchProgress.ts:22-36 | the load effect sets the map to `Loaded` of the storage |
| WatchProgressHook.ProgressHook.SaveProgressToStorage | src/hooks/useWatchProgress.ts:39-45 | the map is written under the current learner's key and becomes the state |
| WatchProgressHook.ProgressHook.UpdateProgress | src/hooks/useWatchProgress.ts:48-88 | the new map is `WithEntry` of the old one and is cached first; the tracker writes its local record only when a category is given; no backend outcome undoes either |
| ProgressTracker.LocalKey | src/utils/progressTracker.ts:77 | the local record key starts with `progress_` |
| ProgressTracker.EmployeeId | src/utils/progressTracker.ts:15-30 | an id exactly when the parsed current user has a truthy employeeId whose trimmed `String` is non-empty, and then it is `employee_` followed by that text |
| ProgressTracker.FreshId | src/utils/progressTracker.ts:38 | a generated id starts with `user_` |
| ProgressTracker.IdAndStorage | src/utils/progressTracker.ts:13-42 | the id is the employee id, else the stored `learningHubid`, else the fresh one, and it is what `learningHubid` holds afterwards |
| ProgressTracker.IdIsStable | src/utils/progressTracker.ts:36-41 | a second call returns the same id and changes no storage, whatever fresh value it is offered |
| ProgressTracker.GetId | src/utils/progressTracker.ts:13-42 | the method's id and storage are those of `IdAndStorage` |
| ProgressTracker.TrimOrThrow | src/utils/progressTracker.ts:59-60 | `(v \|\| '').trim()` throws exactly for a truthy non-text value, and otherwise is the trimmed text (`''` for a falsy value) |
| ProgressTracker.UserFields | src/utils/progressTracker.ts:53-64 | for a parsed user whose name and employeeId are text (or falsy) the pair is their trimmed texts; a non-text name throws and leaves both `''`, a non-text employeeId leaves only it `''`; an absent, unparsable or `null` user gives `('', '')` |
| ProgressTracker.PostFields | src/utils/progressTracker.ts:105-113 | the posted body names the learner `id` and has no `userId` |
| ProgressTracker.SaveLocal | src/utils/progressTracker.ts:45-113 | the local record under `progress_<videoId>` carries the id, fields and timestamp; the body is built from the same values |
| ProgressTracker.SaveProgress | src/utils/progressTracker.ts:45-124 | storage and the posted body are those of `SaveLocal`, whatever the network outcome |
| ProgressTracker.GetLocalProgress | src/utils/progressTracker.ts:127-136 | the local record is returned exactly when its key holds one; absent or unparsable gives null |
| ProgressTracker.SaveThenRead | src/utils/progressTracker.ts:77-136 | reading back right after a save gives the saved record |
| ProgressTracker.LocalMatches | src/utils/progressTracker.ts:155-171 | the fallback returns at most one record per key, each with the current id |
| ProgressTracker.LocalMatchesExact | src/utils/progressTracker.ts:155-171 | a record is returned exactly when some `progress_*` key holds it and its id is the current one |
| ProgressTracker.LocalMatchesOfStorage | src/utils/progressTracker.ts:155-171 | when the scanned keys are all the stored keys, a record is collected exactly when the storage holds it under a `progress_*` key with the current id |
| ProgressTracker.CollectLocal | src/utils/progressTracker.ts:157-170 | the scan over the enumerated keys returns, in key order, the `progress_*` records whose id is the learner's (`LocalMatches`) |
| ProgressTracker.GetUserProgress | src/utils/progressTracker.ts:139-173 | the server's list when it answers; otherwise, scanning every stored key, exactly the stored `progress_*` records carrying the id from `IdAndStorage` |
| MyPage.MonthLength | src/components/MyPage.tsx:163-167 | Gregorian month lengths: 28 to 31 days, February 29 exactly in leap years |
| MyPage.DaysInMonth | src/components/MyPage.tsx:163-167 | the selected month has 28 to 31 days |
| MyPage.Weekday | src/components/MyPage.tsx:249 | `getDay` lies in 0..6 |
| MyPage.FirstWeekday | src/components/MyPage.tsx:249 | the first weekday of a month lies in 0..6 |
| MyPage.NextMonthWeekday | src/components/MyPage.tsx:249-250 | the next month starts on the weekday after this month's last day |
| MyPage.February2024 | src/components/MyPage.tsx:249-250 | February 2024 starts on a Thursday and has 29 days |
| MyPage.MonthOf | src/components/MyPage.tsx:216-223 | `new Date(y, m)` normalises any month index to a valid month |
| MyPage.NavigationMovesOneMonth | src/components/MyPage.tsx:214-224 | previous and next move exactly one month, wrapping the year at January and December |
| MyPage.NavigationInverse | src/components/MyPage.tsx:214-224 | previous undoes next and next undoes previous |
| MyPage.LabelRoundTrip | src/components/MyPage.tsx:215-217 | the `YYYY-MM` label of a month parses back to that month |
| MyPage.ParseDigitPair | src/components/MyPage.tsx:162 | a `Y-M` label of digit runs splits into its year and month numbers |
| MyPage.ParseIsoDate | src/components/MyPage.tsx:174-176 | a prefix read as a date is a valid Gregorian date of `YYYY-MM-DD` shape |
| MyPage.ParseIsoDateInjective | src/components/MyPage.tsx:170-177 | two prefixes naming the same date are equal, so distinct prefixes are distinct days |
| MyPage.IsoDayRoundTrip | src/components/MyPage.tsx:260 | the ISO text of a day reads back as that day |
| MyPage.AttendanceCount | src/components/MyPage.tsx:169-179 | the loop counts the distinct `YYYY-MM-DD` prefixes of the logs that fall in the selected month |
| MyPage.AttendanceCountBound | src/components/MyPage.tsx:169-179 | the count never exceeds the days of the month |
| MyPage.AttendanceRate | src/components/MyPage.tsx:181 | 0 for no days, otherwise `RoundTenth` of count/days times 100 (a whole number of tenths within 0.05 of it), and within [0, 100] when count is at most the days |
| MyPage.AttendanceRateExample | src/components/MyPage.tsx:181 | one day of a 29-day month shows 3.4 |
| MyPage.CalendarGrid | src/components/MyPage.tsx:246-281 | ceil((firstDay + days)/7) rows of 7; each day 1..days is in exactly its slot, the other cells are empty; a day is checked iff it is logged or forced |
| MyPage.ForcedDates | src/components/MyPage.tsx:73-95 | nothing forced without a value; every forced date is cut to at most 10 characters |
| MyPage.CommaForm | src/components/MyPage.tsx:82-89 | a comma-separated list of plain dates yields exactly those dates cut to 10 characters |
| MyPage.ArrayForm | src/components/MyPage.tsx:78-79 | an array of dates yields exactly those dates cut to 10 characters |
| MyPage.SumPercentages | src/components/MyPage.tsx:157 | the sum of the videos' percentages is at most 100 per video, and non-negative for non-negative progress |
| MyPage.AveragePercentage | src/components/MyPage.tsx:155-159 | 0 without videos, otherwise `RoundTenth` of the mean of the per-video percentages, within [0, 100] |
| MyPage.Settled | src/components/MyPage.tsx:123-147 | after the request: the server's user when sent, the optimistic user when not, and the exact snapshot on non-ok or a throw |
| MyPage.ToggleOnObject | src/components/MyPage.tsx:101-147 | for an object user, a failure restores it exactly; a success without a server user changes only `attendance` |
| MyPage.Page.constructor | src/components/MyPage.tsx:40-46 | the page starts with the stored user, no logs and the given month |
| MyPage.LogsOf | src/components/MyPage.tsx:61 | the logs are the converted timestamps of the `logs` array, in order; a `null` body, a non-array `logs`, a `null` entry or a timestamp that does not convert throws, exactly then |
| MyPage.LogsOfTimestamps | src/components/MyPage.tsx:58-64 | a timestamp the conversion rejects (`"x"`) throws, and timestamps that convert (epoch numbers) yield their converted texts |
| MyPage.Page.FetchLogs | src/components/MyPage.tsx:48-69 | no request without an employee id; the logs change only on an ok, readable response whose every timestamp converts, and then become `LogsOf` |
| MyPage.Page.GoToPreviousMonth | src/components/MyPage.tsx:214-218 | the month becomes the previous one, nothing else changes |
| MyPage.Page.GoToNextMonth | src/components/MyPage.tsx:220-224 | the month becomes the next one, nothing else changes |
| MyPage.Page.ToggleAttendance | src/components/MyPage.tsx:98-148 | nothing without a user; otherwise the optimistic user is shown and stored first, then the settled user is shown and stored |
| UserProgressManagement.UserRecords | src/components/UserProgressManagement.tsx:185-187 | a learner's records are a selection of the list |
| UserProgressManagement.UserRecordsExact | src/components/UserProgressManagement.tsx:185-187 | a record is selected exactly when it is in the list with that userId |
| UserProgressManagement.UserRecordsAppend | src/components/UserProgressManagement.tsx:185-187 | selection distributes over concatenation, so the original order is kept |
| UserProgressManagement.CompletedCount | src/components/UserProgressManagement.tsx:166-168 | completed records, progress at least 80, number at most all of them, and all exactly when every one is |
| UserProgressManagement.TotalBounds | src/components/UserProgressManagement.tsx:178 | a sum of values within bounds lies within the count times those bounds |
| UserProgressManagement.Mean | src/components/UserProgressManagement.tsx:179 | the average times the count is the total; 0 for none |
| UserProgressManagement.MeanIsPercentage | src/components/UserProgressManagement.tsx:176-180 | an average of percentages is a percentage |
| UserProgressManagement.LatestIsMaximum | src/components/UserProgressManagement.tsx:161-172 | the last activity is one of the learner's `lastWatched` values and no earlier than any of them |
| UserProgressManagement.FirstAppearance | src/components/UserProgressManagement.tsx:155-163 | the learners are listed once each, in order of first appearance |
| UserProgressManagement.FirstAppearanceExact | src/components/UserProgressManagement.tsx:155-163 | a learner is listed exactly when they have a record |
| UserProgressManagement.GetUserStats | src/components/UserProgressManagement.tsx:152-183 | one entry per learner with records, each with total, completed count, average and last activity computed from that learner's records; the learners listed in `Object.keys` order of the stats object |
| UserProgressManagement.CountPass | src/components/UserProgressManagement.tsx:155-173 | the counting pass yields the fold of the records and the learners in first-appearance order |
| UserProgressManagement.FoldIsPartial | src/components/UserProgressManagement.tsx:155-173 | the fold's entry for each learner is that learner's counts and latest time |
| UserProgressManagement.FoldStep | src/components/UserProgressManagement.tsx:155-173 | one record bumps only its own learner's entry |
| UserProgressManagement.MeanPass | src/components/UserProgressManagement.tsx:176-180 | the averaging pass fills each learner's mean and leaves the key set unchanged |
| UserProgressManagement.StatsConsistent | src/components/UserProgressManagement.tsx:165-168 | completed never exceeds total for a learner with records |
| UserProgressManagement.FormatDurationRoundTrip | src/components/UserProgressManagement.tsx:189-198 | the `h:mm:ss` or `m:ss` text reads back as the seconds it came from |
| UserProgressManagement.FormatDurationShape | src/components/UserProgressManagement.tsx:194-197 | three colon-separated digit fields from one hour up, two below; the first is the unpadded hours (or minutes), and minutes and seconds after it have exactly two digits |
| UserProgressManagement.FilteredUsers | src/components/UserProgressManagement.tsx:205-207 | the search keeps exactly the learners whose lower-cased id contains the lower-cased term, lower-casing ASCII letters only |
| UserProgressManagement.EmptyTermKeepsAll | src/components/UserProgressManagement.tsx:205-207 | an empty term keeps every learner |
| UserProgressManagement.SearchIgnoresTermCase | src/components/UserProgressManagement.tsx:206 | the case of the term's ASCII letters does not matter |
| UserLogin.DigitRunExact | src/components/UserLogin.tsx:23 | `\d{n}` matches exactly n ASCII digits |
| UserLogin.EmployeeIdPattern | src/components/UserLogin.tsx:22-25 | an employee id is valid exactly when it has 8 digits and starts with `2` |
| UserLogin.NamePattern | src/components/UserLogin.tsx:28-31 | a name is valid exactly when it has 2 to 5 characters, all Hangul syllables |
| UserLogin.SanitizeIdProperties | src/components/UserLogin.tsx:139 | the id input keeps at most 8 characters, only digits, in order |
| UserLogin.SanitizeKeepsValidId | src/components/UserLogin.tsx:139 | a valid id passes the input filter unchanged |
| UserLogin.SanitizeNameProperties | src/components/UserLogin.tsx:160 | the name input keeps at most 5 characters, only Hangul syllables, in order |
| UserLogin.LoginError | src/components/UserLogin.tsx:36-55 | the checks come in order: empty id, invalid id, empty name, invalid name |
| UserLogin.LoginAccepted | src/components/UserLogin.tsx:36-55 | login passes exactly when the id and the trimmed name are valid, and a valid id has nothing to trim |
| UserLogin.UserKey | src/components/UserLogin.tsx:65-68 | a learner's record key starts with `user_` |
| UserLogin.SecondLoginIsNotNew | src/components/UserLogin.tsx:61-68 | `isNewUser` is true exactly when `user_<id>` was absent, so a second login is not new |
| UserLogin.LoginSetsCurrentUser | src/components/UserLogin.tsx:68-69 | after login, `user_<id>` and `currentUser` both hold the new user data |
| UserLogin.LoginForm.constructor | src/components/UserLogin.tsx:16-19 | the form starts empty, with no error and not loading |
| UserLogin.LoginForm.ChangeEmployeeId | src/components/UserLogin.tsx:138-141 | the id field takes the filtered input |
| UserLogin.LoginForm.ChangeName | src/components/UserLogin.tsx:158-162 | the name field takes the filtered input |
| UserLogin.LoginForm.HandleLogin | src/components/UserLogin.tsx:33-78 | the first failing check sets its message and writes nothing; otherwise both keys are written and the user is handed on, or a failed write shows the generic error |
| UserLogin.LoginForm.HandleKeyPress | src/components/UserLogin.tsx:80-84 | Enter has `HandleLogin`'s whole outcome: a failed check shows its message and writes nothing; a valid login writes the user and returns it; with fewer than two writable slots the failure message shows and at most the user entry is written. Any other key changes nothing |
| VideoManagement.IdRun | src/components/VideoManagement.tsx:374 | the captured id runs up to the first `&`, newline, `?` or `#` |
| VideoManagement.SearchIsLeftmost | src/components/VideoManagement.tsx:374 | the match is taken at the leftmost position where one of the three prefixes is followed by an id character |
| VideoManagement.ExtractedIdShape | src/components/VideoManagement.tsx:373-376 | a matched id is non-empty and has no stop character |
| VideoManagement.NoDotUnchanged | src/components/VideoManagement.tsx:375 | text without a dot, such as a bare id, is returned unchanged |
| VideoManagement.ExtractFromLink | src/components/VideoManagement.tsx:373-376 | a watch, short or embed link yields exactly its id |
| VideoManagement.ParseIntOfNat | src/components/VideoManagement.tsx:383 | `parseInt` reads back a decimal number |
| VideoManagement.FormatDuration | src/components/VideoManagement.tsx:378-391 | text with `:` or without a leading number is returned unchanged; the result has `:` exactly when the input had one or parsed |
| VideoManagement.FormatDurationIdempotent | src/components/VideoManagement.tsx:378-391 | formatting twice is formatting once |
| VideoManagement.FormatSecondsRoundTrip | src/components/VideoManagement.tsx:383-387 | seconds formatted as `m:ss` read back as those seconds |
| VideoManagement.FormatOfSeconds | src/components/VideoManagement.tsx:385-387 | seconds give minutes, a colon and the two-digit remainder |
| VideoManagement.DetectedMatchesFormat | src/components/VideoManagement.tsx:185-191 | the detected duration is the same `m:ss` text `formatDuration` gives and reads back as its seconds |
| VideoManagement.FileProblem | src/components/VideoManagement.tsx:164-179 | a file is accepted exactly when its type starts with `video/` and it is at most 100 MiB |
| VideoManagement.EditForm | src/components/VideoManagement.tsx:345-356 | editing copies the video's fields and type into the form and leaves the file and upload state |
| VideoManagement.SubmitStopOf | src/components/VideoManagement.tsx:236-255 | the submit checks pass exactly with a category, an id in YouTube mode, a file or an edit in local mode, and a configured backend |
| VideoManagement.SubmitBody | src/components/VideoManagement.tsx:270-282 | the body has only form fields, `videoType`, `videoUrl` and `categoryId` |
| VideoManagement.SubmitBodyShape | src/components/VideoManagement.tsx:270-282 | `youtubeId` only for YouTube, `videoUrl` only for a local video whose URL is not `undefined`, `categoryId` only when creating; the type is the chosen tab's |
| VideoManagement.SaveRequest | src/components/VideoManagement.tsx:265-269 | PUT to `videos/<category>/<id>` exactly when editing, otherwise POST to `videos` |
| VideoManagement.UploadForm | src/components/VideoManagement.tsx:203-205 | the upload sends exactly two fields: the file as `video` and the category as `categoryId` |
| VideoManagement.UploadedUrl | src/components/VideoManagement.tsx:197-231 | the upload returns the reply's `videoUrl` (possibly `undefined`) exactly when the reply is not `null` and its `success` is truthy; otherwise it throws |
| VideoManagement.SubmitRequestGuards | src/components/VideoManagement.tsx:236-263 | no request without a category, without an id in YouTube mode, without a file when creating locally, in demo mode, or when the upload throws; one whenever the checks and the upload pass |
| VideoManagement.LocalEditWithoutFileSendsEmptyUrl | src/components/VideoManagement.tsx:258-274 | editing a local video without a new file sends PUT with `videoUrl: ""` |
| VideoManagement.DemoVideos | src/components/VideoManagement.tsx:129-155 | every demo video is a YouTube video whose id starts with its category |
| VideoManagement.LoadedVideos | src/components/VideoManagement.tsx:106-162 | the server's list when ok, `[]` for an ok reply without one, the demo list otherwise |
| VideoManagement.DemoIds | src/components/VideoManagement.tsx:129-155 | the demo data has `fire_1`, `safety_1` and no emergency video |
| VideoManagement.VideoManager.constructor | src/components/VideoManagement.tsx:40-56 | the screen starts loading, with no data and the reset form |
| VideoManagement.VideoManager.LoadCategories | src/components/VideoManagement.tsx:68-104 | categories from the server or the demo list; the first is selected only when none is |
| VideoManagement.VideoManager.LoadVideos | src/components/VideoManagement.tsx:106-162 | only the entry for that category is replaced, on success and fallback alike |
| VideoManagement.VideoManager.HandleFileSelect | src/components/VideoManagement.tsx:164-179 | a refused file raises its alert and leaves the form; an accepted one becomes the selected file |
| VideoManagement.VideoManager.DurationDetected | src/components/VideoManagement.tsx:184-192 | the detected seconds fill the duration field as `m:ss` |
| VideoManagement.VideoManager.ChangeYouTubeId | src/components/VideoManagement.tsx:509-512 | the id field takes the extracted id of the input |
| VideoManagement.VideoManager.HandleEdit | src/components/VideoManagement.tsx:345-356 | the form becomes `EditForm` of the video and the dialog opens |
| VideoManagement.VideoManager.ResetForm | src/components/VideoManagement.tsx:358-371 | every form field and flag returns to its initial value |
| VideoManagement.VideoManager.HandleSubmit | src/components/VideoManagement.tsx:234-307 | a stop shows its alert (demo mode also closes and resets); otherwise the request is `SubmitRequest` of the upload's parsed reply, and an upload that throws shows the catch alert with no request; success reloads, closes and resets; a `success`-less reply alerts its error or the failure text, and a thrown error or a `null` reply alerts the catch message |
| VideoManagement.DeleteRequest | src/components/VideoManagement.tsx:309-343 | DELETE `videos/<category>/<id>` exactly with a category, confirmation and configuration |
| VideoManagement.VideoManager.HandleDelete | src/components/VideoManagement.tsx:309-343 | without a category or confirmation nothing happens; demo mode only alerts; otherwise the request is `DeleteRequest`, success reloads the category's videos and notifies, a `success`-less reply alerts its error or the failure text, and a thrown error or a `null` reply alerts the catch message; the form and dialog stay |
| CategoryManagement.UploadPathKeepsExtension | src/components/CategoryManagement.tsx:55-57 | the upload path is `categories/category-<now>.<ext>` with the file name's last extension |
| CategoryManagement.UploadImage | src/components/CategoryManagement.tsx:53-100 | too large (over 5 MiB) fails first, then a non-image type, before any request; an ok reply returns `data.publicUrl.publicUrl` (`undefined` when `publicUrl` is text) and throws the `TypeError` of reading through `null` or `undefined`; a refusal throws `data.error` or the default text, and the `TypeError` of reading `error` of a `null` body |
| CategoryManagement.ClassifyError | src/components/CategoryManagement.tsx:223-235 | RLS text gives the permission message, size and type messages pass through, other errors get the `저장 실패: ` prefix, non-errors the default |
| CategoryManagement.PrecheckMessagesShownVerbatim | src/components/CategoryManagement.tsx:223-235 | the size and type messages thrown by the pre-checks (lines 60-67) reach the alert unchanged |
| CategoryManagement.SubmittedImage | src/components/CategoryManagement.tsx:168-188 | the form's image without a file, the upload's result (possibly `undefined`) on success, the old image or the placeholder when the user goes on after a failure, abort otherwise |
| CategoryManagement.SaveRequest | src/components/CategoryManagement.tsx:190-208 | PUT to `categories/<id>` exactly when editing, else POST to `categories`, with the three text fields and the chosen image, which `JSON.stringify` leaves out when it is `undefined` |
| CategoryManagement.CategoryManager.constructor | src/components/CategoryManagement.tsx:35-47 | the screen starts loading with an empty form |
| CategoryManagement.CategoryManager.LoadCategories | src/components/CategoryManagement.tsx:122-162 | the server's categories or the demo pair; loading ends |
| CategoryManagement.CategoryManager.HandleFileSelect | src/components/CategoryManagement.tsx:103-115 | a chosen file becomes the selected file |
| CategoryManagement.CategoryManager.RemoveSelectedFile | src/components/CategoryManagement.tsx:117-120 | the file and the preview are cleared |
| CategoryManagement.CategoryManager.HandleEdit | src/components/CategoryManagement.tsx:269-280 | all four fields and the preview are copied, the file is cleared, the dialog opens |
| CategoryManagement.CategoryManager.ResetForm | src/components/CategoryManagement.tsx:282-292 | editing, fields, file and preview are cleared |
| CategoryManagement.CategoryManager.HandleSubmit | src/components/CategoryManagement.tsx:164-239 | the request carries `SubmittedImage`; success reloads, closes and resets; a `success`-less reply alerts its error or the failure text; a thrown error, and the `TypeError` a `null` reply throws, alert `ClassifyError` of its message; every failure leaves the list, dialog, edited category, form, file and preview as they were; `isUploading` is false on every path |
| CategoryManagement.DeleteRequest | src/components/CategoryManagement.tsx:241-267 | DELETE `categories/<id>` exactly when confirmed |
| CategoryManagement.CategoryManager.HandleDelete | src/components/CategoryManagement.tsx:241-267 | without confirmation nothing happens; otherwise the request is `DeleteRequest`, success reloads the list and notifies, a `success`-less reply alerts its error or the failure text, and a thrown error or a `null` reply alerts the catch message; only the list can change |
| AdminManagement.DeleteRefusal | src/components/AdminManagement.tsx:116-124 | the main admin is refused first, then the signed-in admin |
| AdminManagement.DeleteGuardsMatchButton | src/components/AdminManagement.tsx:115-126 | delete is refused exactly when the button is disabled (line 334), and a DELETE leaves only when not refused and confirmed |
| AdminManagement.FormBody | src/components/AdminManagement.tsx:91-98 | the body has exactly name, employeeId and password from the form |
| AdminManagement.SaveRequest | src/components/AdminManagement.tsx:85-98 | PUT to `admin/<id>` exactly when editing, else POST to `admin/create` |
| AdminManagement.DemoAdmins | src/components/AdminManagement.tsx:59-74 | the demo list is the main `ADMIN001` and one ordinary admin |
| AdminManagement.AdminManager.constructor | src/components/AdminManagement.tsx:26-34 | the screen starts loading with an empty form for the signed-in admin |
| AdminManagement.AdminManager.LoadAdmins | src/components/AdminManagement.tsx:40-79 | the server's admins or the demo list; loading ends |
| AdminManagement.AdminManager.HandleEdit | src/components/AdminManagement.tsx:152-160 | name and employeeId come from the admin, the password is left empty |
| AdminManagement.AdminManager.ResetForm | src/components/AdminManagement.tsx:162-169 | editing and all fields are cleared |
| AdminManagement.AdminManager.HandleSubmit | src/components/AdminManagement.tsx:81-113 | the request is `SaveRequest`; success reloads, closes and resets; a `success`-less reply alerts its error or the failure text; a thrown error or a `null` reply alerts the catch message |
| AdminManagement.AdminManager.HandleDelete | src/components/AdminManagement.tsx:115-150 | refusals alert without a request or prompt; otherwise the confirm prompt names the admin; success reloads, a `success`-less reply alerts its error or the failure text, and a thrown error or a `null` reply alerts the catch message |
| AppShell.VideosFrom | src/App.tsx:124-136 | a category's videos: the server's when ok, else `mockVideos[id]` or `[]` |
| AppShell.CountsAfterKeys | src/App.tsx:115-139 | the counts loop has an entry for exactly the categories seen |
| AppShell.CountsAfterEntry | src/App.tsx:116-137 | each category's entry depends on its own reply only |
| AppShell.CurrentVideos | src/App.tsx:190-192 | the selected topic's videos, or `[]` for an unknown topic |
| AppShell.CurrentTopic | src/App.tsx:194-196 | a category with the selected id none of whose predecessors has it (the first match), or none exactly when there is none |
| AppShell.Others | src/App.tsx:426-429 | the other videos are exactly those without the selected id |
| AppShell.OthersKeepOrder | src/App.tsx:426-429 | the filter keeps the original order |
| AppShell.RelatedVideos | src/App.tsx:425-431 | at most three, the first of the others, none the selected video |
| AppShell.RelatedKeepOrder | src/App.tsx:425-431 | the related videos keep the original order |
| AppShell.TopicCardOf | src/App.tsx:362-370 | a topic card shows the category's id and image and the number of its loaded videos |
| AppShell.App.constructor | src/App.tsx:41-52 | the initial view is `topics`, with nothing selected or signed in |
| AppShell.App.RestoreSavedUser | src/App.tsx:78-89 | a parsable saved user is restored; an unparsable one is removed and nobody is signed in |
| AppShell.App.LoadCategories | src/App.tsx:95-145 | on success the categories and, per category, `VideosFrom` its reply; on failure nothing changes; loading ends |
| AppShell.App.LoadVideosForCategory | src/App.tsx:199-220 | no effect for an empty id, otherwise only that category's entry is replaced |
| AppShell.App.HandleTopicSelect | src/App.tsx:147-152 | the topic is selected, its videos loaded, and the view becomes `videoList`; `videosLoading` is false again for a non-empty id, and `loading` is untouched |
| AppShell.App.HandleVideoSelect | src/App.tsx:154-157 | the video is selected and the view becomes `videoPlayer` |
| AppShell.App.HandleBackToTopics | src/App.tsx:159-162 | back to topics clears the selected topic |
| AppShell.App.HandleBackToVideoList | src/App.tsx:164-167 | back to the list clears the selected video |
| AppShell.App.HandleBack | src/App.tsx:256-265 | the header's back button goes one level up |
| AppShell.App.ShowView | src/App.tsx:223-248 | the screen switches (also lines 329 and 479) change only the view |
| AppShell.App.HandleAdminLogin | src/App.tsx:169-172 | the admin is signed in and the dashboard shown |
| AppShell.App.HandleAdminLogout | src/App.tsx:174-177 | the admin is signed out and the topics shown |
| AppShell.App.HandleUserLogin | src/App.tsx:179-182 | the learner is signed in and the topics shown |
| AppShell.App.HandleUserLogout | src/App.tsx:184-188 | the learner is signed out, the stored `currentUser` removed, the topics shown |
| AppShell.LogoutThenRestoreSignsNobodyIn | src/App.tsx:184-188 | after logout, the restore effect of lines 78-89 signs nobody in |
| MockServer.Capture | scripts/mock-supabase.js:26-27 | a captured id sits between the route's prefix and suffix and is non-empty |
| MockServer.CaptureOfJoin | scripts/mock-supabase.js:26-27 | the id of a path built from an id is that id |
| MockServer.AttendanceRoutes | scripts/mock-supabase.js:26-53 | the page's attendance paths reach the logs and attendance handlers |
| MockServer.LogsFor | scripts/mock-supabase.js:34-45 | the request crashes (`None`) exactly when the month splits into two parts and `new Date` rejects them (a part that is not a number, or a month outside the `Date` range); otherwise the logs start with today, plus days 1 and 5 exactly when the month splits into two parts |
| MockServer.LogsOfMonth | scripts/mock-supabase.js:36-45 | for a `YYYY-MM` within the `Date` range, the logs are today, the 1st and the 5th |
| MockServer.DigitMonthInRange | scripts/mock-supabase.js:42-44 | a four-digit year and a month from 1 to 12 are within the `Date` range |
| MockServer.NotNumberThrows | scripts/mock-supabase.js:42-44 | a year that `Number` reads as NaN crashes the request |
| MockServer.LetterIsNaN | scripts/mock-supabase.js:42-44 | a single letter reads as NaN, so `a-b` crashes |
| MockServer.FarYearThrows | scripts/mock-supabase.js:42-44 | a year past 275760 is outside the `Date` range and crashes the request |
| MockServer.Toggled | scripts/mock-supabase.js:60-63 | today is in the learner's set exactly when the toggle is on; other learners are unchanged |
| MockServer.ToggleIdempotent | scripts/mock-supabase.js:60-67 | repeating the same toggle changes nothing more |
| MockServer.ToggleTouchesOnlyToday | scripts/mock-supabase.js:60-63 | other days and the progress list stay as they were |
| MockServer.FindVideo | scripts/mock-supabase.js:88 | the first entry with the video id, and none exactly when there is none |
| MockServer.SpreadOverEntry | scripts/mock-supabase.js:90 | spreading a full entry over an earlier one gives the new entry |
| MockServer.Upsert | scripts/mock-supabase.js:88-90 | a new video is appended, an existing one replaced in place |
| MockServer.UpsertKeepsOnePerVideo | scripts/mock-supabase.js:87-90 | at most one entry per video survives, the list grows by at most one, and other videos are kept |
| MockServer.Tagged | scripts/mock-supabase.js:111 | each of a learner's entries is tagged with the learner's id and name |
| MockServer.AllRows | scripts/mock-supabase.js:110-112 | admin progress is every learner's tagged entries, each one present |
| MockServer.MockStore.constructor | scripts/mock-supabase.js:20 | the store starts empty |
| MockServer.MockStore.GetLogs | scripts/mock-supabase.js:29-51 | a month `new Date` rejects crashes the request before the store write, with no reply and no change; otherwise the reply is the logs and today is mirrored into the learner's set |
| MockServer.MockStore.SetAttendance | scripts/mock-supabase.js:53-73 | an unparsable body gets 400 and no change; otherwise today is toggled and the reply says `!!attendance` |
| MockServer.MockStore.SaveProgressEntry | scripts/mock-supabase.js:76-99 | 400 and no change for an unparsable body or one without id or videoId; with both, 200 exactly when the learner has a progress list (otherwise the `catch` answers "invalid json"), and then the entry is upserted with `NumberOrZero(progress)`, JavaScript's `Number` reading with NaN replaced by 0 |
| MockServer.MockStore.GetProgressList | scripts/mock-supabase.js:102-107 | the learner's list is returned, creating an empty learner if needed |
| MockServer.MockStore.AllProgressList | scripts/mock-supabase.js:110-113 | the reply is `AllRows` of the store |
| MockServer.MockStore.Handle | scripts/mock-supabase.js:22-117 | routing: the id in a learner path is `decodeURIComponent`-decoded and the handler runs on the decoded id; a malformed escape, and a logs month `new Date` rejects, end the request with no reply and no change; a `null` attendance body is refused after the learner's entry is created; a progress save succeeds exactly as `SaveProgressEntry` says; unmatched paths get 404 with no change, unreadable bodies 400 with no change |
| MockServer.NumberOrZero | scripts/mock-supabase.js:87 | `Number(progress) \|\| 0` is never NaN: every number `Number` reads is kept, and NaN becomes 0 |
| MockServer.JsonNumberOfText | scripts/mock-supabase.js:87 | a JSON number reads the same as its decimal text, and that text reads as the number |
| MockServer.ProgressNumbers | scripts/mock-supabase.js:87 | a progress sent as a number or as its decimal text is stored as that number; `-0x…` text and a missing progress are stored as 0 |
| MockServer.EscapedIdRoutes | scripts/mock-supabase.js:26-54 | a percent-encoded learner id in the attendance paths reaches the logs and attendance handlers and decodes back to the id |
| Text.DigitsNumber | scripts/mock-supabase.js:87 | `Number` of a run of decimal digits is their value |
| Text.SignedDigitsNumber | scripts/mock-supabase.js:87 | a leading minus before digits negates their value |
| Text.NumberOfIntToString | scripts/mock-supabase.js:87 | `Number(String(n))` is `n` for every integer |
| Text.HexNumber | scripts/mock-supabase.js:87 | `0x` before hexadecimal digits reads as their value |
| Text.SignedHexNaN | scripts/mock-supabase.js:87 | a radix prefix takes no sign: `-0x…` is NaN |
| Text.DecodePlain | scripts/mock-supabase.js:30 | text without `%` decodes to itself |
| Text.DecodeEscapeAll | scripts/mock-supabase.js:30 | decoding undoes the UTF-8 percent-encoding of any text |
| Text.MalformedEscapes | scripts/mock-supabase.js:30 | a truncated escape, a lone continuation byte and a bare `%` throw |
| Json.ObjectKeys | src/components/UserProgressManagement.tsx:176 | `Object.keys` lists the same keys: the array-index keys first in ascending numeric order, then the other keys in the order they were added |
| Json.ObjectKeysInsertionOrder | src/components/UserProgressManagement.tsx:176 | without array-index keys the order is the order the keys were added in |
| Json.IndexKeysAscend | src/components/UserProgressManagement.tsx:176 | an index key added after a larger one is listed before it |
| ServerStore.KvStore.Dispatch | supabase/functions/make-server-a8898ff1/index.ts:261-640 | a body that does not parse, or a `null` body where the handler destructures it or reads a property, gets 500 with the handler's own message and no change; any other body gets, route by route, the status, reply and new store of that handler's contract on the body's spread (login, admin create and update, category create and update, video create and update, user upsert, progress post); `null` to an update route merges nothing |
| VideoDescription.DurationRoundTrip | src/components/VideoDescription.tsx:19-23 | `N분 S초` reads back as the seconds it came from |
| VideoDescription.AgoOf | src/components/VideoDescription.tsx:25-33 | under one hour is "just now", below 24 hours the hours, otherwise whole days |
| VideoDescription.LastWatchedReadsBack | src/components/VideoDescription.tsx:30-32 | each relative-time text reads back as its bucket |
| VideoDescription.IsCompleted | src/components/VideoDescription.tsx:17 | completed exactly when an entry exists and is marked completed |
| VideoDescription.Describe | src/components/VideoDescription.tsx:12-75 | the length badge reads back as the video's seconds; the panel shows exactly when the percentage is positive, its bar is `ProgressPercentage` and its number that value rounded to the nearest whole; the last-watched line shows only when a time is present |
| Interop.ProgressPostOnlyReachesMock | src/utils/progressTracker.ts:105-113 | the body `saveProgress` posts gets 400 from the edge function but passes the mock server's check |
| Interop.VideoCreateBodyLacksVideo | src/components/VideoManagement.tsx:270-275 | the dialog's create body has no `video` property |
| Interop.CreateFromDialog | src/components/VideoManagement.tsx:265-284 | every video created from the dialog is refused by the edge function with 400 and changes nothing |
| Interop.LocalEditBlanksStoredUrl | src/components/VideoManagement.tsx:258-274 | editing a local video without a file stores an empty `videoUrl` on the server |
| Interop.AdminPathMatchesUpdateRoute | src/components/AdminManagement.tsx:86 | `admin/<id>` is the update route only for an id starting with `update/` |
| Interop.UploadedImageIsDropped | src/components/CategoryManagement.tsx:96 | with the edge function's upload reply (supabase/functions/make-server-a8898ff1/index.ts:253), the upload returns `undefined`, the save body has no `image`, and a merge keeps the stored image |
| Interop.LocalVideoUploadRefused | src/components/VideoManagement.tsx:203-226 | the edge function answers the dialog's upload with 400 `파일이 필요합니다.` (supabase/functions/make-server-a8898ff1/index.ts:417-419), the upload throws, and no save request follows |
| Interop.SaveLocalVideo | src/components/VideoManagement.tsx:258-306 | saving a local video with a file always ends in the save alert, with no request and unchanged lists |
| Interop.UploadedVideoUrlIsDropped | src/components/VideoManagement.tsx:220-222 | with the route's own success reply `{ success, url }`, the upload returns `undefined` and the save body has no `videoUrl` |
| Interop.DeleteCategoryKeepsVideos | src/components/CategoryManagement.tsx:241-242 | the category delete the confirmation announces leaves the `videos_<id>` list unchanged and removes only the category |
| Interop.ClockTextIsNaN | src/hooks/useWatchProgress.ts:48-50 | `m:ss` text, as the stored durations are, reads as NaN in `totalDuration * 0.9` |
| Interop.DetectedDurationIsNaN | src/components/VideoManagement.tsx:185-191 | the duration the dialog fills in from a picked file reads as NaN |
| Interop.AdminRequestsMissServer | src/components/AdminManagement.tsx:85-131 | for ids starting `admin_`, the save and delete requests reach no admin route |

## Left out

- HTTP routing, bearer authorization and CORS of the edge function: the 401 answers of the admin and category handlers are not modelled.
- The GET handlers for the admin list, categories, videos, users and progress: they read the store unchanged, and the progress reads depend on `kv.getByPrefix`. kv_store.ts is not part of this model.
- `initializeDefaultData`, the bucket set-up, and the image upload route: Supabase storage is I/O through a foreign library. Upload outcomes are parameters.
- ServerStore.UploadVideoReply: the storage write and the signed URL are the parameter `storage`. The file's name and extension only name the stored object, so they are not modelled, and neither is the 500 answer to a body that is not multipart.
- `fetch`, `confirm`, `alert`, toasts and rendering: each fetch is an ok / non-ok / threw parameter, `confirm` a boolean, and an alert a returned message.
- Clocks and randomness: `Date.now()`, `toISOString` of the current time and the random part of generated ids are parameters. Time zones are not modelled, so dates compare by their year, month and day fields.
- Floating point: percentages and averages are exact rationals, and `Math.round` rounds halves up.
- JSON numbers in request bodies are integers. Numeric text in a body goes through the full `Number` reading.
- `localStorage` items are typed by the writer of each key. A key holding another kind of item reads like text that does not parse.
- Enumeration order: the order of `localStorage.key(i)` is a parameter, and so is the order of `Object.keys(store)` in the mock server's admin list (`AllProgressList`'s `order`), because the model's store is a map that does not record insertion order. `Object.keys(userStats)` follows `Json.ObjectKeys`.
- Concurrency: requests and effects run one at a time, and interleaved toggles or progress pushes are not modelled.
- `VideoPlayer.tsx`, `YouTubePlayer.tsx`, `AdminLogin.tsx`, `AdminDashboard.tsx`, `VideoItem.tsx`, `TopicCard.tsx`, `ui/progress.tsx`, `mockData.ts` and `authorized_employees.ts` are not part of this model. They are player and timer code, rendering, or static data.
- UserProgressManagement.GetUserStats: `lastActivity` compares times through a clock parameter that reads each `lastWatched` text, rather than through `new Date` parsing.
- WatchProgressHook.ProgressHook.UpdateProgress: the backend call's outcome is not modelled, because the source catches every failure and changes nothing on success.
- MyPage.Page.FetchLogs: `new Date(l.timestamp).toISOString()` is the parameter `toIso`. Which texts and numbers JavaScript's date parser accepts, and the text it then prints, are not modelled; the model states only that a rejected timestamp throws and leaves the logs unchanged, and that an accepted one is stored converted.
- CategoryManagement.CategoryManager.HandleSubmit: the `TypeError` a `null` reply throws carries V8's wording (`NullReadMessage`); other engines word it differently, and the alert then shows their text.
- CategoryManagement.UploadImage: the `TypeError`s of reading through `null` or `undefined` carry V8's wording (`NullReadMessage`, `UndefinedReadMessage`).
- UserProgressManagement.FilteredUsers: `toLowerCase` is modelled for the ASCII letters `A`-`Z` only (`Text.ToLower`). JavaScript lower-cases every Unicode character with case, so a term such as the Kelvin sign (U+212A) matches `k` in the source but nothing in the model. Unicode case tables are not modelled.
- UserProgressManagement.SearchIgnoresTermCase: case insensitivity is proved for ASCII letters only, for the reason given for FilteredUsers.
- MockServer.NumberOrZero: `Number` is computed on exact rationals. A huge exponent does not overflow to Infinity, a tiny one does not underflow to 0, and a decimal is not rounded to the nearest double.
- MockServer.MockStore.Handle: a URIError from `decodeURIComponent`, and the RangeError of `toISOString` on a date `new Date` rejects, are not caught and end the Node process. The model answers that request with `Crashed` and does not model that later requests go unanswered.
- WatchProgressHook.ProgressHook.UpdateProgress: the duration is a positive number of seconds here. The stored videos carry `m:ss` text, which JavaScript reads as NaN (`Interop.ClockTextIsNaN`). With NaN, `completed` is never true and the percentage is NaN, which `JSON.stringify` posts as `null`. The model does not carry NaN through the hook, `ProgressPercentage` or `VideoDescription.Describe`.
- ServerStore.KvStore.Dispatch: a category body that is not a JSON object is pushed as it is by the source, but as its spread here, because the model's lists hold records. Failures of `kv.get` and `kv.set`, which the same `catch` answers with 500, are not modelled; kv_store.ts is not part of this model.
