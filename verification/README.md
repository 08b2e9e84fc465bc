# Taskly — verified model of the task store, reminders and routing

Taskly is a single-page task manager. Every account and task operation is
first sent to a remote API; when that attempt fails, the page may instead run
the same operation against an on-device store kept in `localStorage`. This
project models that core in Dafny:

- **the on-device store** (`TaskStore.dfy`): the user directory, the signed-in
  user and, per user, three lists kept under that user's email:
  - the active tasks;
  - the archive (the app calls it "trash");
  - the persisted reminder list.

  Each `*TaskLocal` operation is a method of the `LocalStore` class. It
  reads a list, changes it and writes it back. It is proved against a pure
  step function over the two lists (`CreateStep`, `UpdateStep`, `DeleteStep`,
  `ArchiveStep`, `RestoreStep`), and the lifecycle laws are lemmas about those
  functions.
- **reminders** (`Reminders.dfy`):
  - the offset the task form picks, and the task object `saveTask` builds;
  - the reminder list `persistReminders` derives from the active tasks;
  - the set of armed timers (`Scheduler`) that `scheduleAllReminders`
    rebuilds and that a firing timer shrinks.
- **routing** (`Gateway.dfy`): `apiRequest`'s handling of one attempt, and
  the decision every wrapper makes between the server's answer, the on-device
  fallback and an error, as a total decision table.
- **navigation** (`Navigation.dfy`): the page-history stack behind `showPage`
  and `goBack`.
- **small rules** (`Rules.dfy`):
  - e-mail validation, proved equal to the regular expression it uses;
  - HTML escaping, with a decoder that undoes it;
  - the swipe commit threshold;
  - the search filter;
  - the tutorial step counter.
- **support modules**:
  - `JsValues.dfy`: JavaScript values and records, truthiness, `===`, object
    spread, `Number.prototype.toString`, and `parseInt` in radix 10.
  - `Text.dfy`: lower-casing, trimming, `includes`, and `String(...)`.
  - `Lists.dfy`: `findIndex` and `splice(i, 1)`.

Records are finite maps from keys to values, so object spread is map union
with the right-hand side winning and `delete` is key removal. Clocks and
dates are integer-millisecond parameters, and ISO and locale strings are
string parameters.

The model follows the code where the code and its written design differ:

- A failed request while the device reports itself online still falls back
  to the device for the task and profile operations. A `401` answer does this
  too.
- While the device reports itself offline, no wrapper falls back: writes
  are lost, while the list views (`loadTasks`, `loadTrashPage` and the search
  box, Taskly.js:1791-1794, 1802 and 2247) read the on-device lists
  themselves when a wrapper reports failure. See Findings.
- `deleteTaskLocal` searches only the active list.

## Model

| member | source | states |
|---|---|---|
| JsValues.Spread | Taskly.js:326-330 | Object spread: every key of either object is present, and the second object's value wins. |
| JsValues.ParseDecimal | Taskly.js:339 | `parseInt` in radix 10 reads the decimal text of a clock value back as that number. |
| JsValues.DecimalInjective | Taskly.js:329 | Distinct clock values give distinct `toString()` ids. |
| Text.Contains | Taskly.js:2249 | `includes` holds exactly when the needle occurs at some position of the haystack. |
| Lists.FindIndex | Taskly.js:339 | `findIndex` scans left to right. It answers -1 exactly when nothing matches; otherwise it answers the first match. |
| Lists.FirstMatchAppend | Taskly.js:331 | After a push, an earlier first match stays the first match; otherwise the pushed element is the first match if it matches. |
| Lists.RemoveAt | Taskly.js:352 | `splice(i, 1)` drops exactly position `i`, keeps the order of the rest, and loses one copy of that element. |
| TaskStore.NewTaskIdsDistinct | Taskly.js:325-331 | Two locally created tasks get equal ids exactly when they were created in the same millisecond. |
| TaskStore.NewTaskAddressable | Taskly.js:325-339 | A new task is found by its string id, but not by the clock value as a number. When no earlier task has that id, the lookup finds it at the end. |
| TaskStore.CreateStep | Taskly.js:325-335 | createTaskLocal appends one task: the given fields plus `id` and `created_at`. Earlier tasks and the archive are untouched. |
| TaskStore.UpdateStep | Taskly.js:337-345 | With no matching id: "Task not found" and nothing changes. Otherwise only the first matching task changes, to the update merged over it, and the length is kept. |
| TaskStore.DeleteStep | Taskly.js:347-355 | Only the active list is searched. A miss answers "Task not found" and changes nothing. A hit removes exactly the first match and keeps the order of the rest. |
| TaskStore.ArchiveStep | Taskly.js:357-375 | A miss changes nothing. A hit moves the first match to the end of the archive, marked `archived: true` with `archived_at`, and the combined count is preserved. |
| TaskStore.RestoreStep | Taskly.js:377-393 | A miss answers "Task not found in archive". A hit moves the first archived match to the end of the active list, without its two archive fields. |
| TaskStore.ArchiveThenRestore | Taskly.js:357-393 | Restoring what was just archived gives back the original task with all its fields, at the end of the active list, and the archive as it was. It assumes two things: the task carries no `archived` or `archived_at` field of its own, and no archive entry already answers to its id. |
| TaskStore.ArchivedTaskCannotBeDeleted | Taskly.js:1934-1945 | Permanent deletion goes through deleteTaskLocal. A task that is only in the archive is reported missing and stays there. |
| TaskStore.ArchivedTaskCannotBeDeletedExample | Taskly.js:1934-1945 | Concrete case: archive `[{id: "1"}]` with no active tasks, delete id "1" gives "Task not found" and no change. |
| TaskStore.PurgeStep | Taskly.js:1934-1945 | Corrected permanent deletion: it removes the first archived match from the archive and leaves the active list alone. |
| TaskStore.ArchiveThenPurge | Taskly.js:357-375 | Archiving a task and then purging it removes it from both lists and leaves everything else as it was. |
| TaskStore.FindUser | Taskly.js:655-658 | findUserByEmail finds a user exactly when some stored email is `===` the argument. It returns the first such user. |
| TaskStore.LoginReply | Taskly.js:297-308 | The lookup uses the lower-cased email. The answer is "User not found", "Invalid password" unless the stored password is `===`, or success with that user. |
| TaskStore.UsersAfterUpdate | Taskly.js:660-674 | Only the first user with the email changes, to the update merged over it. A miss leaves the directory as it was. |
| TaskStore.RegisterThenLogin | Taskly.js:280-308 | A user registered locally, with a new lower-case email, can then log in locally with the same password. |
| TaskStore.ChangedPasswordLogsIn | Taskly.js:310-323 | After a local password change, logging in with the new password succeeds. |
| TaskStore.IdMatches | Taskly.js:339 | The `findIndex` test: only a task with an `id` field matches, and a string or number id matches itself. |
| TaskStore.IdMatchesDecimal | Taskly.js:339 | A task with a numeric id is found both by the number and by its decimal text. |
| TaskStore.OwnerOf | Taskly.js:693-697 | The storage key is the signed-in user's email. There is none without a user or with a falsy email. |
| TaskStore.Put | Taskly.js:700-704 | A per-user write replaces only that user's list and adds no other key. Without a signed-in owner nothing is written. |
| TaskStore.WithEmptyList | Taskly.js:677-687 | An empty list is added under the email only where none is stored. Every stored list keeps its contents. |
| TaskStore.LocalStore.ActiveTasks | Taskly.js:693-698 | getUserTasks reads the signed-in user's stored list. Without a user with an email, or with nothing stored, it reads `[]`. |
| TaskStore.LocalStore.Trash | Taskly.js:719-724 | getUserTrash reads the signed-in user's stored archive, or `[]` as getUserTasks does. |
| TaskStore.LocalStore.SavedReminders | Taskly.js:706-711 | getUserReminders reads the signed-in user's stored reminder list, or `[]` as getUserTasks does. |
| TaskStore.LocalStore.FindUserByEmail | Taskly.js:655-658 | A found user is stored and has exactly that email. No user is found only when none has it. |
| TaskStore.LocalStore.SaveUserTasks | Taskly.js:700-704 | saveUserTasks writes the current user's active list, so a following getUserTasks reads it back. |
| TaskStore.LocalStore.SaveUserTrash | Taskly.js:726-730 | saveUserTrash writes the current user's archive, so a following getUserTrash reads it back. |
| TaskStore.LocalStore.SaveUserReminders | Taskly.js:713-717 | saveUserReminders writes only the current user's reminder list. |
| TaskStore.LocalStore.CreateTaskLocal | Taskly.js:325-335 | The reply and the stored active list are those of CreateStep on the current lists. |
| TaskStore.LocalStore.UpdateTaskLocal | Taskly.js:337-345 | The reply and stored list are UpdateStep's. A miss writes nothing. |
| TaskStore.LocalStore.DeleteTaskLocal | Taskly.js:347-355 | The reply and stored list are DeleteStep's. A miss writes nothing. |
| TaskStore.LocalStore.ArchiveTaskLocal | Taskly.js:357-375 | The reply and both stored lists are ArchiveStep's. A miss writes nothing. |
| TaskStore.LocalStore.RestoreTaskLocal | Taskly.js:377-393 | The reply and both stored lists are RestoreStep's. A miss writes nothing. |
| TaskStore.LocalStore.PersistReminders | Taskly.js:1495-1506 | The saved reminder list becomes `Derived` of the active tasks, built by the loop. |
| TaskStore.LocalStore.InitUserData | Taskly.js:677-691 | Each of the three list maps becomes WithEmptyList of the old one for the email. |
| TaskStore.LocalStore.SaveUser | Taskly.js:647-653 | The user is appended and signed in. Each of the three list maps becomes WithEmptyList of the old one for the user's email, so no other email's lists change. |
| TaskStore.LocalStore.RegisterUserLocal | Taskly.js:280-295 | An existing email answers "User already exists" and changes nothing. Otherwise the new user (with `id`, `createdAt` and `hasSeenTutorial: false`) is stored and signed in, and its lists are created as SaveUser does. |
| TaskStore.LocalStore.LoginUserLocal | Taskly.js:297-308 | The reply is LoginReply's. Only a successful login changes the signed-in user. |
| TaskStore.LocalStore.UpdateUserLocal | Taskly.js:660-674 | The result is true exactly when a user has the email. The directory becomes UsersAfterUpdate. The signed-in user is refreshed only when it has that email. |
| TaskStore.LocalStore.ChangePasswordLocal | Taskly.js:310-323 | No signed-in user, or a wrong current password, gives the matching error and no change. Otherwise the directory becomes UsersAfterUpdate with the new password. The signed-in user becomes the stored record merged with it, or the session copy with the new password when the email is not in the directory. |
| Reminders.ReminderOffset | Taskly.js:1448-1463 | The offset is 5, 10 or 30 for those choices. For "custom" it is the parsed radix-10 number when that is non-zero. Otherwise there is no reminder. |
| Reminders.TaskObject | Taskly.js:1441-1476 | No task when a required field is empty. Otherwise the title is trimmed, and the reminder instant the list reads is the one ReminderInstant gives. |
| Reminders.ReminderInstant | Taskly.js:1461-1463 | The reminder fires `offset` minutes before the task. None without an offset, or when that instant is 0, since the `reminderAt` tests at lines 1499 and 1517 read 0 as falsy. |
| Reminders.ReminderField | Taskly.js:1471-1475 | The `reminder` field is `null` without an offset; otherwise its `reminderAt` is the reminder instant. |
| Reminders.ReminderAtOf | Taskly.js:1499 | A task has a reminder exactly when its `reminder` is an object with a truthy `reminderAt`, and the reminder is that value. |
| Reminders.DerivedExactly | Taskly.js:1495-1506 | There is one entry per task with a reminder, in task order, with its position, title and instant. A position appears exactly when its task has a reminder. |
| Reminders.DueIsUpcomingDerived | Taskly.js:1495-1529 | The timers armed at `now` are exactly the persisted reminders whose instant is still ahead. |
| Reminders.Keep | Taskly.js:1523 | `filter(x => x.id !== id)` keeps exactly the other timers, in order. |
| Reminders.Scheduler.ClearAllTimers | Taskly.js:1508-1511 | Every armed timer is dropped. |
| Reminders.Scheduler.ScheduleAll | Taskly.js:1513-1529 | After clearing, one timer is armed per task whose numeric instant is ahead of `now`, in task order. Every handle is fresh and the handles stay increasing. |
| Reminders.Scheduler.Fire | Taskly.js:1520-1524 | A timer that is still armed announces its alarm and removes only its own record. A cancelled handle announces nothing. |
| Gateway.ApiDecision | Taskly.js:17-42 | A 2xx body is returned. Any other outcome is rethrown online, or turned into the "Offline mode" body offline, so offline it never throws. |
| Gateway.Route | Taskly.js:185-277 | A wrapper keeps a returned body: success exactly when `success` is truthy, otherwise that body's error. A thrown error falls back to the device, except that registration and login fall back only when offline and otherwise fail with the error's message. |
| Gateway.Decide | Taskly.js:60-277 | The whole routing table, in both directions: when the server's answer, the fallback, "Offline mode" or an error is the result, for every operation. |
| Gateway.IntendedDecide | Taskly.js:36-41 | Corrected routing: a failed attempt falls back whenever the device is offline, and otherwise agrees with Decide. |
| Gateway.Session.ApiRequest | Taskly.js:6-43 | The result is ApiDecision's. The token is cleared exactly on a 401. |
| Gateway.Session.SetAuthToken | Taskly.js:49-52 | The token becomes the given one. |
| Gateway.Session.ClearAuthToken | Taskly.js:54-57 | The token is dropped. |
| Navigation.Without | Taskly.js:402 | The filter keeps every other page and never introduces a duplicate. A one-page history keeps its page unless it is the one removed. |
| Navigation.WithoutConcat | Taskly.js:402 | The filter works piece by piece, so the kept pages stay in order. |
| Navigation.WithoutRemovesOne | Taskly.js:401-403 | In a history without duplicates, showing a page already in it removes exactly that position before the page goes on top. |
| Navigation.Recorded | Taskly.js:399-404 | The four sign-in pages are never recorded. Any other page is moved to the top, with its earlier occurrence removed. |
| Navigation.RecordedTopIsIdentity | Taskly.js:441-457 | Showing the page already on top of the history leaves the history as it is. |
| Navigation.PageHistory.ShowPage | Taskly.js:399-404 | The history becomes Recorded, and stays free of duplicates and sign-in pages. |
| Navigation.PageHistory.GoBack | Taskly.js:441-457 | With at most one entry, the history resets to the dashboard. Otherwise the top is popped and the page beneath is shown; an empty name resets to the dashboard. |
| Rules.IsValidEmailIsPattern | Taskly.js:613-616 | The scan accepts exactly the strings matched by `^[^\s@]+@[^\s@]+\.[^\s@]+$`. |
| Rules.ValidateEmail | Taskly.js:618-630 | The input is lower-cased and trimmed. The answers are "required" when blank, "invalid" exactly when it does not match the pattern, and "Valid email" otherwise. |
| Rules.Escape | Taskly.js:1673-1678 | The output has no `<`, `>` or `"`. Text without special characters is unchanged. |
| Rules.UnescapeEscape | Taskly.js:1671-1679 | Decoding the four entities gives back the escaped text. |
| Rules.EscapeHtml | Taskly.js:1671-1679 | A falsy argument gives "". Otherwise the output decodes to `String(argument)`. |
| Rules.SwipeDecision | Taskly.js:1627-1641 | A drag past 80 px commits: left archives, right deletes. Anything within 80 px snaps back. |
| Rules.SearchFilter | Taskly.js:2245-2250 | A task is kept exactly when its lower-cased title plus description contains the trimmed, lower-cased query. |
| Rules.SearchFilterConcat | Taskly.js:2248-2250 | The filter keeps the list's order. |
| Rules.BlankQueryKeepsAll | Taskly.js:2245-2250 | A blank query keeps every task. |
| Rules.NextMove | Taskly.js:2080-2086 | The tutorial advances by one while a later step exists, and ends on the last step. |
| Rules.Tutorial.HandleNext | Taskly.js:2080-2086 | The step counter stays within the five steps: it advances by one or the tutorial ends. |

## Left out

- Page rendering, DOM updates, alerts, confirmations, theme colours and the tutorial's HTML. These are presentation only.
- `fetch`, the request headers (including the `Authorization` bearer header), and JSON parsing. The outcome of one attempt is an input: a status with a body, a 2xx body that is not JSON, or an unreachable server.
- `navigator.onLine`: it is read twice, inside `apiRequest`'s catch and inside the register/login catch. It is modelled as two boolean inputs.
- The remote success path of register/login (`setAuthToken`, `setCurrentUser`, `initUserData` on the server's user). A success body without a `user` object, which would throw inside the `try`, is not modelled.
- The per-operation local results of `getUserProfile`, `getTasks`, `getArchivedTasks` and `updateUserProfile`'s fallback. Routing reaches them as `LocalFallback`, and the local store operations they call are modelled.
- `localStorage` keys and JSON serialisation. Storage is one map per purpose, keyed by email.
- `initUserData`'s profile-image key. It does not affect the task, archive or reminder lists.
- `setTimeout`/`clearTimeout` as real timers. Only the collection of armed timers and fresh handles is modelled.
- `Date.now`, `new Date(date + 'T' + time)` and `toLocaleString`. They are parameters, and the task time is always a valid integer: a date that does not parse (NaN time) is not modelled.
- The Google sign-in simulation, password-strength text, profile images, themes, and `endTutorial`'s persistence of `hasSeenTutorial`.
- `emptyTrash` and the other archive-page handlers apart from permanent deletion.
- The later `changePassword()` at Taskly.js:583 shadows the async one at Taskly.js:151 and calls itself. `ChangePasswordLocal` is modelled on its own and is not wired into routing.
- Text.Lower: lower-cases ASCII letters only; JavaScript's `toLowerCase` also maps other scripts.
- JsValues.ParseIntStr: reads radix 10 only; the `0x` prefix `parseInt` accepts without a radix is not modelled.
- Text.ToJsString: prints only integers; fractional and exponent forms of numbers are not modelled.
- TaskStore.IdMatches: the task id to look up is always a value; an absent `taskId` (`undefined`), which would match the first task without an `id`, is not modelled.
- TaskStore.OwnerOf: a truthy email that is not a string (say a number) is treated as no owner, whereas the page would use its text as the key.
- Reminders.DueAt: a `reminderAt` that is a string is recorded by persistReminders but never armed here, whereas JavaScript would coerce it by subtraction.
- Rules.SwipeDecision: the drag distance is a real number; pointer tracking and opacity feedback are not modelled.

## Findings

| source | as written | input that shows it | evidently intended | confidence | as-written member | corrected member |
|---|---|---|---|---|---|---|
| Taskly.js:1934-1945 | Permanent deletion from the archive page calls `deleteTask`, whose local fallback `deleteTaskLocal` searches only the active list. | Archive `[{id: "1"}]`, no active tasks, delete id `"1"`: the answer is "Task not found" and the task stays in the archive. | Remove the task from the archive. | high, not executed | TaskStore.ArchivedTaskCannotBeDeletedExample | TaskStore.PurgeStep |
| Taskly.js:36-41 | Offline, `apiRequest`'s catch returns `{success: false, error: 'Offline mode'}`. Every wrapper reports that as a failure, so no wrapper reaches its local fallback while offline. The list views then show local data, but writes are lost. | `createTask` with the server unreachable and `navigator.onLine` false answers "Offline mode", and nothing is saved. | Fall back to the on-device store when offline, as the catch's comment says. | medium, not executed | Gateway.OfflineNeverFallsBack | Gateway.IntendedDecide |
