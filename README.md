# Flow app: app blocking, session reminders and upload signing

This Dafny project models the decision logic of an Android focus app and of
its upload-signing server:

- **Block list.** `MainActivity.blockApp`/`unblockApp` edit the stored set of
  blocked package names, and the foreground service starts or stops with it.
  The accessibility service covers a blocked app with an overlay and sends
  the user home. The foreground service shows how many apps are blocked.
- **App list.** `MainActivity.categorizeApp` is a case-insensitive keyword
  classifier in which the first match wins. `getBlockableApps` filters the
  installed apps, marks each one blocked or not, and sorts the list by name.
- **Reminders.** `NativeAlarmHelper` keeps one record per notification id
  under key `notif_<id>` and registers an alarm for it.
  `NotificationBroadcastReceiver` posts the reminder when the alarm fires and
  deletes the record. `BootReceiver` replays the stored records after a
  reboot or an update.
- **Notification actions.** `NotificationActionReceiver` maps a button's
  action tag to an intent for `MainActivity`. `MainActivity` holds an action
  that arrives before its Flutter channel exists and sends it once the
  channel is ready.
- **Upload signing.** `POST /sign` in `server/cloudinary-sign/index.js` builds
  the string to sign from the allowed, non-empty parameters and signs it with
  SHA-1.

The code works by changing state in a few places. Those places are Dafny
classes:

- `BlockList.BlockedAppsStore` holds the stored set and the service requests.
- `NativeAlarmHelper.ReminderStore` holds the `session_notifications`
  preferences and the registered alarms.
- `NotificationIntents.MainActivity` and `NotificationIntents.Intent` hold the
  pending-action fields, the channel state and the intent extras that are
  cleared in place.

The loops are methods with loop invariants, proved against specification
functions:

- `BlockableApps.GetBlockableApps`
- `BootReceiver.OnReceive`
- `CloudinarySign.CollectPairs`

Everything else is a function, and lemmas state its properties.

Modules:

| file | module | source |
|---|---|---|
| `wrappers.dfy` | `Wrappers` | `Option` |
| `text.dfy` | `Text` | substring tests, ASCII lowercasing, decimal rendering, Kotlin `Int`/`Long` |
| `sorting.dfy` | `Sorting` | `sortedBy` / `Array.prototype.sort` on string keys, filtering |
| `app_category.dfy` | `AppCategory` | `MainActivity.categorizeApp` |
| `block_list.dfy` | `BlockList` | `MainActivity.blockApp`, `unblockApp` |
| `blockable_apps.dfy` | `BlockableApps` | `MainActivity.getBlockableApps` |
| `foreground_service.dfy` | `ForegroundService` | `AppBlockingForegroundService` |
| `accessibility_service.dfy` | `AccessibilityService` | `AppBlockingAccessibilityService` |
| `intents.dfy` | `Intents` | the intents that open `MainActivity` |
| `notification_intents.dfy` | `NotificationIntents` | `MainActivity.handleNotificationIntent`, the pending-action flush |
| `notification_action_receiver.dfy` | `NotificationActionReceiver` | `NotificationActionReceiver` |
| `native_alarm_helper.dfy` | `NativeAlarmHelper` | `NativeAlarmHelper` |
| `boot_receiver.dfy` | `BootReceiver` | `BootReceiver` |
| `notification_broadcast_receiver.dfy` | `NotificationBroadcastReceiver` | `NotificationBroadcastReceiver` |
| `cloudinary_sign.dfy` | `CloudinarySign` | `server/cloudinary-sign/index.js` |

Two consequences of the code are worth knowing:

- Social keywords are tested on both the package and the name before any
  video keyword. So a YouTube package whose label contains "instagram" is
  social, not video (`AppCategory.YoutubeNamedInstagramIsSocial`).
- The app list excludes the prefixes "com.android." and "android." (with the
  dot). The accessibility service skips "com.android" and "android" (without
  it). A package such as "androidify.app" can therefore be put on the block
  list but is never covered (`BlockableApps.ListedButNeverEnforced`).

## Model

| member | source | states |
|---|---|---|
| AppCategory.CategorizeApp | android/app/src/main/kotlin/com/example/flow_app/MainActivity.kt:405-463 | the category string is one of "social", "video", "games", "other" (by construction of the four-way choice); it is social exactly when a social keyword matches the lowercased package or name; the other cases are stated by FirstMatchWins and OtherIffNoKeyword |
| AppCategory.CategorizeIgnoresCase | android/app/src/main/kotlin/com/example/flow_app/MainActivity.kt:405-407 | lowercasing package and name first does not change the category |
| AppCategory.SameCategoryUpToCase | android/app/src/main/kotlin/com/example/flow_app/MainActivity.kt:405-407 | inputs that are equal up to letter case get the same category |
| AppCategory.OtherIffNoKeyword | android/app/src/main/kotlin/com/example/flow_app/MainActivity.kt:409-462 | "other" exactly when no social, video or games keyword matches the lowercased package or name |
| AppCategory.FirstMatchWins | android/app/src/main/kotlin/com/example/flow_app/MainActivity.kt:409-459 | social iff a social keyword matches; video iff no social but a video keyword; games iff neither but a games keyword |
| AppCategory.YoutubePackageIsVideoOrSocial | android/app/src/main/kotlin/com/example/flow_app/MainActivity.kt:411-444 | a package containing "youtube" in any case is video unless a social keyword matches package or name, then social |
| AppCategory.YoutubeNamedInstagramIsSocial | android/app/src/main/kotlin/com/example/flow_app/MainActivity.kt:411-427 | the name can override the package: ("com.google.android.youtube", "Instagram") is social |
| BlockList.BlockedAppsStore.BlockApp | android/app/src/main/kotlin/com/example/flow_app/MainActivity.kt:467-483 | the stored set becomes old ∪ {pkg}; a start request is sent; the restarted service then enters the foreground showing the new count |
| BlockList.BlockedAppsStore.UnblockApp | android/app/src/main/kotlin/com/example/flow_app/MainActivity.kt:486-507 | the stored set becomes old \ {pkg}; a stop request is sent iff it became empty, else a start request, after which the service runs in the foreground |
| BlockList.BlockUnblockRoundTrip | android/app/src/main/kotlin/com/example/flow_app/MainActivity.kt:467-507 | blocking a package that was not blocked and then unblocking it restores the stored set; the requests are a start, then a stop iff the set was empty before, else a start |
| BlockList.BlockTwice | android/app/src/main/kotlin/com/example/flow_app/MainActivity.kt:467-483 | blocking twice stores old ∪ {pkg}, the same set as blocking once; only the start request repeats |
| BlockList.BlockedStateFollowsLastEdit | android/app/src/main/kotlin/com/example/flow_app/MainActivity.kt:338 | whatever the stored set held, the membership test used for isBlocked is true right after blockApp and false right after unblockApp |
| BlockableApps.Listable | android/app/src/main/kotlin/com/example/flow_app/MainActivity.kt:326-330 | the package filter; CandidatesExactly states that an app is collected iff it passes it and is launchable, ListedButNeverEnforced compares it with the accessibility service's exemption |
| BlockableApps.CandidatesExactly | android/app/src/main/kotlin/com/example/flow_app/MainActivity.kt:324-352 | an entry is collected iff it describes an installed app that passes the package filter and is launchable |
| BlockableApps.GetBlockableApps | android/app/src/main/kotlin/com/example/flow_app/MainActivity.kt:312-359 | the result is sorted by app name and is a permutation of the collected entries; every entry passes the filter, has isBlocked = set membership and its category; every offered app appears |
| BlockableApps.ListedButNeverEnforced | android/app/src/main/kotlin/com/example/flow_app/MainActivity.kt:324-330 | "androidify.app" passes the app-list filter yet is exempt in the accessibility service |
| ForegroundService.TitleReportsCount | android/app/src/main/kotlin/com/example/flow_app/AppBlockingForegroundService.kt:67 | the title "🚫 N apps blocked" reads back as exactly N |
| ForegroundService.OnStartCommand | android/app/src/main/kotlin/com/example/flow_app/AppBlockingForegroundService.kt:22-32 | returns START_STICKY always; enters the foreground with notification 1001 iff the set is non-empty, else stops; the title carries the set's size |
| ForegroundService.UpdateNotification | android/app/src/main/kotlin/com/example/flow_app/AppBlockingForegroundService.kt:82-92 | re-posts notification 1001 with the count iff the set is non-empty; otherwise cancels 1001 and stops |
| AccessibilityService.OnAccessibilityEvent | android/app/src/main/kotlin/com/example/flow_app/AppBlockingAccessibilityService.kt:30-53 | the effects are none, or exactly an overlay followed by the return home; an overlay is only ever for the event's own package, which is listed and not exempt |
| AccessibilityService.GetAppName | android/app/src/main/kotlin/com/example/flow_app/AppBlockingAccessibilityService.kt:84-92 | the name is the package manager's label when it knows the package, and otherwise the package name itself |
| AccessibilityService.OtherEventsIgnored | android/app/src/main/kotlin/com/example/flow_app/AppBlockingAccessibilityService.kt:30-32 | a null event, another event type or a missing package does nothing |
| AccessibilityService.ExemptNeverBlocked | android/app/src/main/kotlin/com/example/flow_app/AppBlockingAccessibilityService.kt:34-39 | the host package and packages starting with "com.android" or "android" are never covered, even when listed |
| AccessibilityService.BlockedIffListed | android/app/src/main/kotlin/com/example/flow_app/AppBlockingAccessibilityService.kt:42-51 | any other package is covered (overlay with its label, or the package name when unknown, then home) iff it is in the set |
| AccessibilityService.IsAccessibilityServiceEnabled | android/app/src/main/kotlin/com/example/flow_app/AppBlockingAccessibilityService.kt:95-103 | a positive answer needs a set value at least as long as "<package>/<service class>"; the exact condition is stated by EnabledWhenListed and EnabledOnlyWhenListed |
| AccessibilityService.EnabledWhenListed | android/app/src/main/kotlin/com/example/flow_app/AppBlockingAccessibilityService.kt:95-103 | a settings string holding "<package>/<service class>" anywhere reports the service enabled |
| AccessibilityService.EnabledOnlyWhenListed | android/app/src/main/kotlin/com/example/flow_app/AppBlockingAccessibilityService.kt:95-103 | a positive answer means the setting is set and holds "<package>/<service class>" |
| AccessibilityService.LongerClassNameAlsoMatches | android/app/src/main/kotlin/com/example/flow_app/AppBlockingAccessibilityService.kt:101-102 | the substring test also accepts another service whose class name extends this one |
| AccessibilityService.UnsetNeverEnabled | android/app/src/main/kotlin/com/example/flow_app/AppBlockingAccessibilityService.kt:102 | an unset setting reports the service disabled |
| NotificationIntents.Consumed | android/app/src/main/kotlin/com/example/flow_app/MainActivity.kt:68-72 | after clearing the extras and the intent action, the intent is no longer accepted; its offset extra stays |
| NotificationIntents.MainActivity.HandleNotificationIntent | android/app/src/main/kotlin/com/example/flow_app/MainActivity.kt:58-91 | only an intent with sessionId, action and fromNotification=true is accepted; it is consumed, and its action is sent now with both pending fields null if the channel exists, else held in them; anything else changes nothing |
| NotificationIntents.MainActivity.OnResume | android/app/src/main/kotlin/com/example/flow_app/MainActivity.kt:52-56 | handles the current intent; an intent already consumed changes nothing |
| NotificationIntents.MainActivity.OnNewIntent | android/app/src/main/kotlin/com/example/flow_app/MainActivity.kt:46-50 | the new intent becomes current and is handled |
| NotificationIntents.MainActivity.ConfigureFlutterEngine | android/app/src/main/kotlin/com/example/flow_app/MainActivity.kt:190-205 | creates the channel, posts one more delayed flush iff an action is pending (each call posts its own), then handles the current intent |
| NotificationIntents.MainActivity.RunScheduledFlush | android/app/src/main/kotlin/com/example/flow_app/MainActivity.kt:196-200 | one posted flush runs: sends the pending action once and clears both fields; throws (nothing sent) when they were already cleared |
| NotificationIntents.SecondFlushCrashes | android/app/src/main/kotlin/com/example/flow_app/MainActivity.kt:190-201 | if configureFlutterEngine runs twice with an action pending, two flushes are posted: the first sends the action, the second finds the fields null and throws |
| NotificationIntents.LaunchInFrameworkOrder | android/app/src/main/kotlin/com/example/flow_app/MainActivity.kt:39-205 | in the framework's launch order (configureFlutterEngine inside super.onCreate, then onCreate's handling, then onResume) the launch action is sent at once, no flush is posted, both fields stay null, and a later action is sent at once too |
| NotificationIntents.DeliveredOnceAfterChannel | android/app/src/main/kotlin/com/example/flow_app/MainActivity.kt:39-205 | assuming onCreate's handling runs before configureFlutterEngine (an order the framework's launch does not produce): the held action is sent exactly once, by the flush, and both fields end null |
| NotificationIntents.SecondActionBeforeFlush | android/app/src/main/kotlin/com/example/flow_app/MainActivity.kt:194-202 | under the same assumed order, a second action arriving before the delayed flush is sent at once; the flush then finds the fields null and throws, and the first action is never sent |
| NotificationActionReceiver.OnReceive | android/app/src/main/kotlin/com/example/flow_app/NotificationActionReceiver.kt:13-44 | START_NOW and SNOOZE (only these) open MainActivity with that action extra, fromNotification=true, the matching NOTIFICATION_* intent action and the session id or ""; MainActivity accepts the intent |
| NotificationActionReceiver.MissingSessionIdForwardedEmpty | android/app/src/main/kotlin/com/example/flow_app/NotificationActionReceiver.kt:15 | a missing session id is forwarded as "" |
| NativeAlarmHelper.NotifKeyInjective | android/app/src/main/kotlin/com/example/flow_app/NativeAlarmHelper.kt:33 | distinct ids have distinct "notif_<id>" keys |
| NativeAlarmHelper.StoreRecordEffect | android/app/src/main/kotlin/com/example/flow_app/NativeAlarmHelper.kt:22-33 | storing a record makes it the id's record and leaves every other id's record unchanged |
| NativeAlarmHelper.RemoveRecordEffect | android/app/src/main/kotlin/com/example/flow_app/NativeAlarmHelper.kt:98-99 | removing an id's key leaves it no record and every other id its own |
| NativeAlarmHelper.WithExtras | android/app/src/main/kotlin/com/example/flow_app/NativeAlarmHelper.kt:48-53 | getBroadcast with FLAG_UPDATE_CURRENT: an alarm already under the request code keeps its time and takes the new extras; no alarm is added or removed, and other alarms are unchanged |
| NativeAlarmHelper.ReminderStore.ScheduleAlarm | android/app/src/main/kotlin/com/example/flow_app/NativeAlarmHelper.kt:16-80 | the id's record holds the six arguments and stays either way; when the alarm service accepts, the alarm at scheduledTime with the new extras is registered under request code id; when it refuses or is absent, an existing alarm under id keeps its time but takes the new extras; other ids unchanged |
| NativeAlarmHelper.ReminderStore.CancelAlarm | android/app/src/main/kotlin/com/example/flow_app/NativeAlarmHelper.kt:82-102 | deletes only key "notif_<id>"; deregisters alarm id when the service exists, and otherwise leaves it registered with its extras stripped |
| NativeAlarmHelper.RescheduleKeepsLatest | android/app/src/main/kotlin/com/example/flow_app/NativeAlarmHelper.kt:16-80 | scheduling an id twice leaves its key holding the second call's record and its alarm at the second call's time with the second call's extras; other ids keep their records |
| NativeAlarmHelper.RescheduleThenCancel | android/app/src/main/kotlin/com/example/flow_app/NativeAlarmHelper.kt:16-102 | rescheduling and then cancelling leaves the id no record and no alarm, and the store exactly as before minus that key and that alarm |
| BootReceiver.Replayed | android/app/src/main/kotlin/com/example/flow_app/BootReceiver.kt:29-58 | replay only deletes: every surviving entry keeps its stored value, and every key not starting with "notif_" survives |
| BootReceiver.ReplayEntry | android/app/src/main/kotlin/com/example/flow_app/BootReceiver.kt:30-56 | one step of the loop keeps the replay invariant with the key handled: keys not starting with "notif_" stay as stored, and (with one record per id) handled keys are as Replayed says, unhandled ones as stored, and the alarms gained are those of the handled upcoming records |
| BootReceiver.OnReceive | android/app/src/main/kotlin/com/example/flow_app/BootReceiver.kt:16-60 | other actions change nothing; keys not starting with "notif_" are untouched; with one record per id, the store becomes Replayed; the alarms gain ReplayedAlarms when the service accepts, and otherwise existing alarms under replayed ids take the replayed extras (Refreshed) |
| BootReceiver.Refreshed | android/app/src/main/kotlin/com/example/flow_app/BootReceiver.kt:43-44 | with the registrations refused, replay adds no alarm and moves none: only the extras of alarms under replayed ids change |
| BootReceiver.UpcomingRescheduled | android/app/src/main/kotlin/com/example/flow_app/BootReceiver.kt:36-45 | a record with scheduled_time > now is kept and re-registered at its time with exactly its stored fields |
| BootReceiver.ExpiredDiscarded | android/app/src/main/kotlin/com/example/flow_app/BootReceiver.kt:47-50 | a record with scheduled_time ≤ now is deleted and gets no alarm |
| BootReceiver.AllExpiredLeavesNothing | android/app/src/main/kotlin/com/example/flow_app/BootReceiver.kt:29-58 | with only expired or unreadable reminders, replay registers nothing and leaves no reminder key |
| BootReceiver.ReplayIdempotent | android/app/src/main/kotlin/com/example/flow_app/BootReceiver.kt:29-58 | replaying twice at the same time equals replaying once |
| BootReceiver.ReplayPreservesWellKeyed | android/app/src/main/kotlin/com/example/flow_app/BootReceiver.kt:29-58 | replay keeps each record under its own id's key |
| NotificationBroadcastReceiver.TwoDigits | android/app/src/main/kotlin/com/example/flow_app/NotificationBroadcastReceiver.kt:142 | the minute is rendered as exactly two digits that read back as the minute |
| NotificationBroadcastReceiver.DisplayHour | android/app/src/main/kotlin/com/example/flow_app/NotificationBroadcastReceiver.kt:141 | the shown hour is 1 to 12, and 12 exactly for hour 0 |
| NotificationBroadcastReceiver.FormatTime | android/app/src/main/kotlin/com/example/flow_app/NotificationBroadcastReceiver.kt:135-144 | "H:MM AM" or "H:MM PM": 7 or 8 characters, ':' and ' ' in place, suffix PM iff afternoon |
| NotificationBroadcastReceiver.FormatTimeRoundTrip | android/app/src/main/kotlin/com/example/flow_app/NotificationBroadcastReceiver.kt:135-144 | the label parses back to the time it was made from |
| NotificationBroadcastReceiver.FormatTimeInjective | android/app/src/main/kotlin/com/example/flow_app/NotificationBroadcastReceiver.kt:135-144 | distinct times of day get distinct labels |
| NotificationBroadcastReceiver.SessionStartTimeAsWritten | android/app/src/main/kotlin/com/example/flow_app/NotificationBroadcastReceiver.kt:88 | the time the code computes never lies more than 2^31 ms (about 24.8 days) from now, whatever the offset |
| NotificationBroadcastReceiver.AsWrittenInRange | android/app/src/main/kotlin/com/example/flow_app/NotificationBroadcastReceiver.kt:88 | for offsets within 35791 minutes either way, the code's 32-bit product does not wrap and the time is now + offset·60000 |
| NotificationBroadcastReceiver.SessionStartTime | android/app/src/main/kotlin/com/example/flow_app/NotificationBroadcastReceiver.kt:88 | the intended snooze time lies before now exactly for a negative offset, and agrees with the code's 32-bit computation for every offset within 35791 minutes |
| NotificationBroadcastReceiver.AsWrittenExactIff | android/app/src/main/kotlin/com/example/flow_app/NotificationBroadcastReceiver.kt:88 | the 32-bit computation equals the exact one iff abs(offset) ≤ 35791 minutes |
| NotificationBroadcastReceiver.SnoozeTimeOverflows | android/app/src/main/kotlin/com/example/flow_app/NotificationBroadcastReceiver.kt:88 | offset 35792 gives −2147447296 ms instead of 2147520000 ms |
| NotificationBroadcastReceiver.RequestCode | android/app/src/main/kotlin/com/example/flow_app/NotificationBroadcastReceiver.kt:48-85 | the request code is id, id+1000 or id+2000 modulo 2^32, and exactly that sum when it does not pass the 32-bit maximum |
| NotificationBroadcastReceiver.PendingIntentsDistinct | android/app/src/main/kotlin/com/example/flow_app/NotificationBroadcastReceiver.kt:48-85 | request codes id, id+1000, id+2000 (32-bit) with their intent actions: two pending intents match iff same id and same target |
| NotificationBroadcastReceiver.BuildNotification | android/app/src/main/kotlin/com/example/flow_app/NotificationBroadcastReceiver.kt:40-101 | id, title, body, channel and auto-cancel as received; the content intent has request code id, session and offset, and MainActivity ignores it; exactly two buttons, "Start Now" with request code id+1000 and the snooze label with request code id+2000 (32-bit), both accepted with START_NOW/SNOOZE and the session |
| NotificationBroadcastReceiver.Notify | android/app/src/main/kotlin/com/example/flow_app/NotificationBroadcastReceiver.kt:24-35 | no notification iff the title or the body is missing or empty |
| NotificationBroadcastReceiver.ButtonsMatchActionReceiver | android/app/src/main/kotlin/com/example/flow_app/NotificationBroadcastReceiver.kt:55-85 | each button's intent equals the one NotificationActionReceiver builds for the same action and session |
| NotificationBroadcastReceiver.SnoozeLabelNamesStart | android/app/src/main/kotlin/com/example/flow_app/NotificationBroadcastReceiver.kt:87-89 | the modelled notification's snooze label (built from the corrected start time) is "I'll start at " followed by a time that parses back to the local time of the intended session start |
| NotificationBroadcastReceiver.SnoozeLabelAsWrittenNamesStart | android/app/src/main/kotlin/com/example/flow_app/NotificationBroadcastReceiver.kt:87-89 | the label the code builds is "I'll start at " followed by a time that parses back to the local time of its 32-bit session start; within 35791 minutes either way it equals the modelled notification's label |
| NotificationBroadcastReceiver.StrippedAlarmShowsNothing | android/app/src/main/kotlin/com/example/flow_app/NotificationBroadcastReceiver.kt:24-35 | an alarm whose extras cancelAlarm stripped (no alarm service) fires and shows nothing |
| NotificationBroadcastReceiver.FiredReminderShown | android/app/src/main/kotlin/com/example/flow_app/NotificationBroadcastReceiver.kt:24-28 | an alarm registered for a stored record with title and body shows that record's id, title, body, session and offset |
| NotificationBroadcastReceiver.OnReceive | android/app/src/main/kotlin/com/example/flow_app/NotificationBroadcastReceiver.kt:20-116 | an empty title or body changes nothing; otherwise the notification is posted when allowed and key "notif_<id>" is removed even when posting fails; other ids and alarms unchanged |
| CloudinarySign.CanonicalString | server/cloudinary-sign/index.js:28-34 | the string to sign is empty exactly when no allowed key holds an included value |
| CloudinarySign.Join | server/cloudinary-sign/index.js:34 | the join has length Σ parts + (n−1)·sep, starts with the first part and ends with the last (no leading or trailing "&"); "" for no parts |
| CloudinarySign.CollectPairs | server/cloudinary-sign/index.js:28-33 | the loop pushes exactly the kept "k=v" pairs in visiting order |
| CloudinarySign.Sign | server/cloudinary-sign/index.js:24-37 | signature = sha1(canonical string of the body + secret), api_key echoed, timestamp echoed as given (undefined when absent); the canonical string depends only on the key-value pairs, because the keys are sorted first (SortedKeysGiveCanonicalPairs) |
| CloudinarySign.SortedKeysGiveCanonicalPairs | server/cloudinary-sign/index.js:29 | visiting the keys sorted yields the pairs in the fixed order eager, folder, public_id, timestamp, whatever the body's key order |
| CloudinarySign.PairsAreRenderedKeptKeys | server/cloudinary-sign/index.js:29-33 | the pairs are the kept keys, filtered in visiting order and rendered as "k=v" |
| CloudinarySign.DisallowedKeyIgnored | server/cloudinary-sign/index.js:27-30 | adding or changing a key outside the four allowed ones never changes the string to sign |
| CloudinarySign.OmittedValueIsAbsent | server/cloudinary-sign/index.js:30 | an undefined, null or '' value signs like an absent key |
| CloudinarySign.PairsOnlyAllowed | server/cloudinary-sign/index.js:27-31 | every pair is "k=v" for an allowed key k with an included value v |
| CloudinarySign.NothingToSign | server/cloudinary-sign/index.js:34-35 | with no allowed, included value the string to sign is "" and the signature is sha1(secret) |
| CloudinarySign.SignIgnoresKeyOrder | server/cloudinary-sign/index.js:24-37 | the handler gives identical responses to two bodies with the same keys and values listed in different orders |
| Sorting.Sort | android/app/src/main/kotlin/com/example/flow_app/MainActivity.kt:359 | the result is sorted by the key and is a permutation of the input |
| Sorting.SortedUnique | server/cloudinary-sign/index.js:29 | two sorted permutations of the same strings are equal |

## Left out

- Icons (`getAppIconAsBase64`, `drawableToBitmap`), the permission probes, the DND channel and `BlockingOverlayActivity`: bitmap rendering, OS queries and UI.
- The OS services themselves: the alarm manager, the notification manager, `startActivity`, the service lifecycle and the Flutter method channel. They are recorded as registered alarms, posted notifications, service requests and sent messages.
- The 100 ms and 1500 ms delays: the return home is the second effect, and the flush is a separate later step (`RunScheduledFlush`).
- Framework callback order: `configureFlutterEngine` is called from inside `super.onCreate`, so in a launch the channel exists before the launch intent is handled (`LaunchInFrameworkOrder`). The model still offers its steps in any order the callers choose. `DeliveredOnceAfterChannel` and `SecondActionBeforeFlush` assume onCreate's handling runs before `configureFlutterEngine`, which the framework's own launch does not do. They describe what the code would do in that order; they are not claims about a reachable crash.
- JSON encoding and parsing of reminder records: a stored value is either a readable record or `Unreadable`. `Unreadable` stands for malformed JSON and missing fields, the `JSONException` cases the replay catches and deletes.
- The `value as String` cast in the replay: `NativeAlarmHelper` only ever writes these keys with `putString`, so the model has no non-string value. A failing cast would throw `ClassCastException`, which the replay does not catch, and the whole replay would abort with the entry kept.
- Calendar and time zone: `formatTime` takes the (hour, minute, AM/PM) triple, and the device's clock mapping is a function parameter.
- NotificationBroadcastReceiver.TwoDigits: assumes a locale with ASCII digits. `String.format("%02d", minute)` uses the default locale's digits (Arabic-Indic in Arabic or Persian locales, for example), while the hour is always ASCII; `FormatTime` and `FormatTimeRoundTrip` inherit the assumption.
- SHA-1, Express, body parsing, dotenv and the start-up exit: the hash is a function parameter, and the body arrives as an already parsed object.
- `Build.VERSION` branches: they select OS calls and do not change the logic.
- The try/catch around each app in `getBlockableApps`: the package manager's answers are inputs and cannot throw.
- Lowercasing is ASCII only; Kotlin's `lowercase()` also folds other scripts.
- String order compares characters, while Kotlin and JavaScript compare UTF-16 code units; the two differ only outside the Basic Multilingual Plane.
- BlockableApps.GetBlockableApps: states sorted and a permutation, not the stability of `sortedBy` among equal names.
- BootReceiver.OnReceive: states the exact new store only when every record sits under its own id's key. The source walks a hash map in unspecified order, and only that condition makes the result independent of the order. Schedule, cancel, firing and replay all keep the condition.
- BootReceiver.OnReceive: uses one clock reading for the whole replay, while the source reads the clock again for each entry.
- NotificationBroadcastReceiver.OnReceive: `alarms` is left unchanged, because the alarm service retires a fired one-shot alarm itself.
- NotificationBroadcastReceiver.BuildNotification: uses the exact snooze time (see Findings), not the 32-bit one the source computes.
- NotificationBroadcastReceiver.SnoozeLabelNamesStart: is stated for the corrected label. The label the code builds names the 32-bit start time (SnoozeLabelAsWrittenNamesStart), and the two agree only for offsets within 35791 minutes either way.
- `System.currentTimeMillis() + …` is a `Long` addition that could wrap only near the end of the 64-bit range; the model adds exactly.

## Findings

| source | as written | input that shows it | evidently intended | confidence | as-written member | corrected member |
|---|---|---|---|---|---|---|
| android/app/src/main/kotlin/com/example/flow_app/NotificationBroadcastReceiver.kt:88 | `offsetMinutes * 60 * 1000` is evaluated in 32-bit `Int` before it is added to the `Long` clock, so it wraps for offsets above 35791 minutes (about 24.8 days) | offsetMinutes = 35792: the label time is now − 2147447296 ms, about 24.9 days in the past, instead of now + 2147520000 ms | the offset in milliseconds computed as a `Long` (now + offsetMinutes · 60000) | low: needs reminders set more than 24.8 days ahead; not executed | NotificationBroadcastReceiver.SnoozeTimeOverflows | NotificationBroadcastReceiver.SessionStartTime |
