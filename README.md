# Call recorder and user-administration logic, modelled in Dafny

This project models two parts of a repository.

The first is the call recorder in `__lozicode__/core.ts`. It wraps an object's
methods so that every call is written to disk as a *snapshot*: an id, the
target and function names, timestamps, the elapsed time, the call count, and
the input and output. Each function has its own history file, capped at ten
entries. A global index file holds one aggregated entry per function. Each
return value is archived under a run id taken from the command line.

The second part is the pure logic of the login form and the user-administration screen:

- the credential validators;
- the role and permission table of the user table;
- the pagination, query-string and row-selection rules of the management screen;
- the classification and formatting helpers of the audit-log viewer.

The modules follow the source files:

| file | module | models |
|---|---|---|
| `text.dfy` | `Wrappers`, `Text` | `Option`, and JavaScript string helpers: white space, `trim`, ASCII case mapping, `split`/`join`, decimal printing and `parseInt` |
| `snapshots.dfy` | `Snapshots` | the snapshot record, `updateProperties`, `mergeMainSnapshot`, `mergeSnapshot` |
| `recorder.dfy` | `Recorder` | the file system as a value, `init`, `saveSnapshot`, `saveOutput`, `checkIsAsync`, the wrapper lifecycle and `mock` |
| `validator.dfy` | `Validator` | `validateEmail`, `validatePassword`, `validatePasswordStrong`, `validateConfirmPassword` and the configured lengths |
| `user_table.dfy` | `UserTable` | `canChangeRole`, `canDeleteUser`, `getAvailableRoles`, `getUserName`, `getUserInitials`, `allCurrentPageSelected` |
| `admin_users.dfy` | `AdminUsers` | initial pagination, `queryParams`, the request of `fetchUsers` and the state derived from its reply, page change, page jump, row selection, `renderPaginationNumbers` |
| `audit_logs.dfy` | `AuditLogs` | `getActionColor`, `getActionIcon`, `formatActionText`, `generateSummaryFromOldFormat`, `formatOldRequest` |

The merge routines are loops over a list that they change in place. They are modelled as methods with loops, each proved equal to a specification function (`MainMerged`, `HistoryMerged`). The properties are lemmas about those functions.

`mock` changes the target object. That object is a class, `Recorder.Target`, with fields for the markers it sets and the wrappers it installs.

`renderPaginationNumbers` and `formatOldRequest` build their results step by step. Both are methods proved against specifications.

The remaining code consists of expressions, so it is modelled as functions and lemmas.

Time, random ids, the command line and the files that cannot be written are all parameters.

Some behaviours of the code are easy to misread; the model follows the code in each:

- The per-function history matches only by `id` and never by function identity. Every entry carrying the id is replaced (`core.ts:73-79`).
- The history's trim to ten runs on the replace path as well as the insert path. A file already over the cap loses its last entry even when an id matches (`Snapshots.HistoryTrimsOnReplace`).
- The index's aggregation loop has no `break`. Every entry of the function is summed in, but only the last of them is removed (`Snapshots.MainAggregatesFunction`). The index therefore keeps one entry per function only when it already did (`Snapshots.MainKeepsOnePerFunction`).
- The synchronous wrapper does not reset its snapshot between calls, unlike the asynchronous one. Each call therefore adds the snapshot's own, already aggregated count to the index: the total doubles per call (`Recorder.SyncCallDoubles`). An asynchronous call adds exactly one (`Recorder.AsyncCallCountsOnce`).
- The e-mail `maxLength` of 254 is declared but never checked, so no validator uses it.
- The `^async ` pattern of `checkIsAsync` never decides anything on its own: any text it matches also contains `async` (`Recorder.CheckIsAsyncReduced`).

## Model

| member | source | states |
|---|---|---|
| Snapshots.UpdateProperties | __lozicode__/core.ts:3-17 | For a snapshot never timed, creation and update time are both the clock reading, nothing has elapsed and the count is 1. For a timed snapshot, the creation time and the count stay, and the elapsed time grows by exactly the update time minus the original creation time. Identity, input and output are untouched. |
| Snapshots.ElapsedAnchoredAtCreation | __lozicode__/core.ts:12-16 | Over any number of updates of a timed snapshot, the elapsed time grows by the sum of the times since the original creation, not since the previous update. The creation time and the count never change. |
| Snapshots.FirstWithId | __lozicode__/core.ts:29-30 | The position found holds the id and none before it does. No position is found exactly when no entry holds the id. |
| Snapshots.LastOfFunction | __lozicode__/core.ts:37-45 | The position found records the same target and function and none after it does, which is the value `foundSnap` ends with. No position is found exactly when no entry records the function. |
| Snapshots.MergeMainSnapshot | __lozicode__/core.ts:23-53 | The two loops, the splice and the unshift compute exactly `MainMerged`: the caller's snapshot afterwards and the list written back. |
| Snapshots.MainReplacesById | __lozicode__/core.ts:29-35 | The first entry with the snapshot's id is replaced in place. The length and every other entry stay, and nothing is aggregated into the snapshot. |
| Snapshots.MainAggregatesFunction | __lozicode__/core.ts:37-51 | With no id match, the snapshot gains the elapsed times and call counts of all entries of its function and goes to the front. Only the last of those entries leaves the list. All other entries follow in order. |
| Snapshots.MainKeepsOnePerFunction | __lozicode__/core.ts:37-52 | If the index held at most one entry per function and an id is only used for one function, it still does afterwards, and it grows by at most one entry. |
| Snapshots.MainTotalsOfFunction | __lozicode__/core.ts:37-51 | With one entry per function and no id match, the index's totals for the snapshot's function become the snapshot's own plus the previous totals. |
| Snapshots.MainTotalsOfOthers | __lozicode__/core.ts:37-51 | With no id match, the index's totals for every other function are unchanged. |
| Snapshots.MergeSnapshot | __lozicode__/core.ts:67-88 | The replace loop, the unshift and the pop compute exactly `HistoryMerged`. |
| Snapshots.HistoryCapped | __lozicode__/core.ts:84-86 | A history within ten entries stays within ten. No history grows past the larger of its length and ten. |
| Snapshots.HistoryInsertsNewest | __lozicode__/core.ts:80-86 | A new id goes to the front and the older entries follow in order. When the list reaches eleven, the oldest is dropped. |
| Snapshots.HistoryReplacesInPlace | __lozicode__/core.ts:73-79 | A known id replaces every entry carrying it, in place. The length, the order and every other entry stay. |
| Snapshots.HistoryTrimsOnReplace | __lozicode__/core.ts:84-86 | The pop also runs on an id match: a history over the cap loses its last entry. |
| Snapshots.HistoryKeepsIdsDistinct | __lozicode__/core.ts:73-86 | A history with distinct ids keeps them distinct. |
| Recorder.Write | __lozicode__/core.ts:55-65 | A write stores the list unless the path cannot be written. In that case the failure is swallowed and the disk is unchanged. No other file and no archive changes. |
| Recorder.Init | __lozicode__/core.ts:19-21 | The index file is gone. Every other file and all archives are unchanged. |
| Recorder.HistoryPathIsNotMain | __lozicode__/core.ts:90-94 | As a string, no history path is the index path. On disk the two can alias (see Left out). |
| Recorder.HistoryPathSegments | __lozicode__/core.ts:90-94 | A history path whose names hold no `/` splits into `data`, the target name and `<function>.json`. The index path splits into `data` and `main.json`. |
| Recorder.SaveSnapshot | __lozicode__/core.ts:89-98 | The update, the history merge and the index merge in that order compute exactly `Saved`. |
| Recorder.SavedFiles | __lozicode__/core.ts:89-98 | The function's history file holds the history merge of the timed snapshot, and the index holds its index merge, each unless its write fails. No other file and no archive changes, with files told apart by path string. The caller's snapshot is the timed one with the index aggregation, even when that write fails. |
| Recorder.SavedHistoriesCapped | __lozicode__/core.ts:84-98 | If every history file is within ten entries before a save, every one is within ten after it. |
| Recorder.RunLength | __lozicode__/core.ts:102 | The number returned is the length of the maximal run of `[0-9a-z]` starting at the position. |
| Recorder.LongRunFrom | __lozicode__/core.ts:102-103 | The position found is the leftmost at or after the start where at least nine id characters begin. None is found exactly when there is no such position. |
| Recorder.RunIdIsFirstLongRun | __lozicode__/core.ts:101-107 | The run id is `default` exactly when the comma-joined argv has no maximal `[0-9a-z]` run of nine or more. Otherwise it is the first such run, taken whole. It never contains a comma. |
| Recorder.ArchivedFormat | __lozicode__/core.ts:108-114 | A string output goes to `<path>.html`, and only there can a failed write throw. Any other serialisable output goes to `<path>.json`, with failures swallowed. An unserialisable one writes nothing. No snapshot file changes. |
| Recorder.CheckIsAsyncReduced | __lozicode__/core.ts:163-179 | `checkIsAsync` holds exactly when the lower-cased source contains `await`, `async` or `__generator`, or the trimmed text matches the transpiler pattern. It is false when none of the patterns match. |
| Recorder.KeywordMakesAsync | __lozicode__/core.ts:164-170 | Whatever its case and surrounding white space, a source containing one of the three keywords is async. |
| Recorder.RunWrapper | __lozicode__/core.ts:130-156 | The wrapper body, statement by statement, computes exactly `Invoke`: reset (async only), new id and input, save, original call, output archive, second save. |
| Recorder.CallAddsWeight | __lozicode__/core.ts:130-156 | Given a fresh id, a writable index and one index entry per function, a call adds the starting snapshot's weight to its function's index total, whatever the original returns or throws. The closure's snapshot ends up carrying the new total. |
| Recorder.AsyncCallCountsOnce | __lozicode__/core.ts:131-142 | A call through the async wrapper adds exactly one to its function's index total. |
| Recorder.SyncCallDoubles | __lozicode__/core.ts:145-155 | The sync wrapper shares its snapshot between calls, so a call doubles both the function's index total and the shared count. |
| Recorder.InvokeKeepsFunction | __lozicode__/core.ts:130-156 | A call never changes which target and function the closure's snapshot records. |
| Recorder.Target.constructor | __lozicode__/core.ts:117-121 | An object starts with no wrappers. Any set of names may already carry a truthy `__mocked` marker, and `mock` then leaves those names alone. |
| Recorder.Target.Mock | __lozicode__/core.ts:117-161 | A name already marked is left alone, so a second `mock` changes nothing. Otherwise a function gets its marker and a wrapper of the kind `checkIsAsync` picks. A truthy non-function gets only its marker. An empty slot gets nothing. |
| Recorder.Target.Call | __lozicode__/core.ts:130-159 | A wrapped name runs the wrapper's lifecycle and keeps the closure's new snapshot for the next call. Any other name is the original call and touches no file. |
| Validator.EmailRegexIffShape | login_form/src/domains/auth/shared/utils/Validator.tsx:3 | The pattern accepts a string exactly when it has no white space, exactly one `@`, which is not first, and after it a `.` that is neither the first nor the last character of the domain. |
| Validator.ValidateEmail | login_form/src/domains/auth/shared/utils/Validator.tsx:17-21 | The empty string is returned exactly when the pattern matches. A blank address gives "Email is required", and any other mismatch gives "Invalid email format". |
| Validator.ValidatePassword | login_form/src/domains/auth/shared/utils/Validator.tsx:24-30 | The empty string is returned exactly when the password is not blank and has at least six characters. The two messages come in that order. |
| Validator.MissingClassesOrdered | login_form/src/domains/auth/shared/utils/Validator.tsx:39-45 | The missing list names exactly the absent classes, each once, in the order uppercase, lowercase, number, special. |
| Validator.AtMostThreeMissing | login_form/src/domains/auth/shared/utils/Validator.tsx:39-45 | A non-empty password lacks at most three classes, because every character is in exactly one class. |
| Validator.ValidatePasswordStrong | login_form/src/domains/auth/shared/utils/Validator.tsx:32-50 | Blank is reported first. Fewer than eight characters is reported next, whatever the classes. Otherwise the message is the prefix followed by the comma-joined missing classes. The empty string is returned exactly when the password is long enough and has all four classes. |
| Validator.ValidateConfirmPassword | login_form/src/domains/auth/shared/utils/Validator.tsx:52-59 | A blank confirmation is reported before a mismatch. The empty string is returned exactly when the confirmation is non-blank and equal. |
| Validator.LengthMessages | login_form/src/domains/auth/shared/utils/Validator.tsx:6-8 | The too-short messages carry the configured 6 and 8. |
| Validator.StrongImpliesBasic | login_form/src/domains/auth/shared/utils/Validator.tsx:24-37 | A password the strong check accepts also passes the basic one. |
| UserTable.ChangeRoleTable | login_form/src/domains/home/components/admin/user_managerment/UserTable.tsx:105-120 | A SUPER_ADMIN may change anything, and a viewer below ADMIN nothing. An ADMIN may not touch an admin, and may otherwise assign exactly the non-admin roles. |
| UserTable.MissingViewerIsAdmin | login_form/src/domains/home/components/admin/user_managerment/UserTable.tsx:29 | With no viewer role given, the table decides as an ADMIN. Only users below the admins may be re-roled or deleted, and only to USER, MODERATOR or GUEST. An admin's selector offers only that admin's own role. |
| UserTable.OnlySuperAdminPromotes | login_form/src/domains/home/components/admin/user_managerment/UserTable.tsx:110-117 | Only a SUPER_ADMIN may assign an admin role. |
| UserTable.DeleteMatchesRoleSelector | login_form/src/domains/home/components/admin/user_managerment/UserTable.tsx:105-134 | `canDeleteUser` is true for a SUPER_ADMIN, for an ADMIN exactly on non-admin targets, and otherwise false. It is the same as whether the user's role selector is enabled. |
| UserTable.OptionsEnabledInLockstep | login_form/src/domains/home/components/admin/user_managerment/UserTable.tsx:105-150 | Every offered role is assignable exactly when the user may be managed at all. |
| UserTable.AvailableRolesShape | login_form/src/domains/home/components/admin/user_managerment/UserTable.tsx:136-150 | The offered roles are distinct. The user's own role is among them exactly when the viewer is an admin or the user is a USER. An ADMIN managing a user is never offered an admin role. |
| UserTable.UserNameFromEmail | login_form/src/domains/home/components/admin/user_managerment/UserTable.tsx:77-82 | Without both names, the display name is the e-mail up to, and not including, its first `@`. |
| UserTable.FirstChars | login_form/src/domains/home/components/admin/user_managerment/UserTable.tsx:86-89 | Each character is the first character of some non-empty part, and there are no more of them than parts. |
| UserTable.FirstCharsOfOne | login_form/src/domains/home/components/admin/user_managerment/UserTable.tsx:86-89 | A part contributes its first character, and an empty part contributes nothing. |
| UserTable.FirstCharsConcat | login_form/src/domains/home/components/admin/user_managerment/UserTable.tsx:86-89 | The first characters of two lists of parts are those of each, in order. With `FirstCharsOfOne` this pins the result to the parts' first characters in order. |
| UserTable.UserInitials | login_form/src/domains/home/components/admin/user_managerment/UserTable.tsx:84-92 | The result is the first two, or fewer, of the upper-cased first characters of the display name's space-separated parts, in order. So there are at most two, none lower-case. |
| UserTable.InitialsOfFullName | login_form/src/domains/home/components/admin/user_managerment/UserTable.tsx:77-92 | For a one-word first and last name, the initials are their two upper-cased first letters. |
| AdminUsers.InitialPagination | login_form/src/domains/home/components/admin/user_managerment/AdminUsersManagement.tsx:64-76 | A `page` that does not parse gives 1, and a parsed one is raised to at least 1. A `limit` that does not parse gives 10, and a parsed one is taken as it is. (A missing or empty parameter parses its fallback.) Nothing is known of the total: 0 users, 1 page, no neighbours. |
| AdminUsers.InitialPaginationReadsDigits | login_form/src/domains/home/components/admin/user_managerment/AdminUsersManagement.tsx:65-69 | Without parameters the screen opens on page 1 with 10 rows. A page given in digits is taken as it is, except that 0 becomes 1. A limit given in digits is taken as it is. |
| AdminUsers.LookupConcat | login_form/src/domains/home/components/admin/user_managerment/AdminUsersManagement.tsx:83-96 | A key of a concatenation is found in the first part if it is there, else in the second. |
| AdminUsers.QueryParamsContents | login_form/src/domains/home/components/admin/user_managerment/AdminUsersManagement.tsx:82-97 | The page and limit always come first. The trimmed search appears only when not blank, each filter only when not `all`, and the sort only when not `newest`. Besides page and limit, only those five keys can appear, so the query holds two to seven pairs. |
| AdminUsers.FetchParamsContents | login_form/src/domains/home/components/admin/user_managerment/AdminUsersManagement.tsx:149-181 | The request holds:<br>- the trimmed search when not blank;<br>- the upper-cased role;<br>- `isActive` true or false for `active` or `inactive` only;<br>- `isEmailVerified` for any filter but `all`;<br>- the sort when not `newest`;<br>- the page raised to at least 1;<br>- the limit. |
| AdminUsers.FetchedPagination | login_form/src/domains/home/components/admin/user_managerment/AdminUsersManagement.tsx:212-221 | The page, limit and totals are the server's. `hasMore` holds exactly when page < totalPages. The next page is page+1 only then, and the previous page is page-1 only when page > 1. |
| AdminUsers.FetchedNeighboursInRange | login_form/src/domains/home/components/admin/user_managerment/AdminUsersManagement.tsx:212-221 | For a page in range, both neighbours are in range too. |
| AdminUsers.HandlePageChange | login_form/src/domains/home/components/admin/user_managerment/AdminUsersManagement.tsx:311-314 | Only the page changes, and it is at least 1. With at least one page, it is the requested page when in range and otherwise clamped to the nearer end. With fewer than one page, it is 1. |
| AdminUsers.PageChangeIdempotent | login_form/src/domains/home/components/admin/user_managerment/AdminUsersManagement.tsx:311-314 | Changing to the page just reached changes nothing. |
| AdminUsers.PageJump | login_form/src/domains/home/components/admin/user_managerment/AdminUsersManagement.tsx:324-330 | A jump either changes nothing or moves to the parsed page, and only to a page in 1..totalPages. |
| AdminUsers.PageJumpInputChange | login_form/src/domains/home/components/admin/user_managerment/AdminUsersManagement.tsx:338-343 | The field takes the typed text exactly when it is all digits, the empty text included. Otherwise the field keeps its value. |
| AdminUsers.PageJumpFromField | login_form/src/domains/home/components/admin/user_managerment/AdminUsersManagement.tsx:324-343 | The field only ever holds digits. A jump happens exactly when they spell a page in 1..totalPages, and it goes to that page. |
| AdminUsers.Without | login_form/src/domains/home/components/admin/user_managerment/AdminUsersManagement.tsx:365 | Every copy of the id goes, every other id stays, and a list without the id is returned unchanged. With `WithoutConcat` this pins the result to the list with the id filtered out, order kept. |
| AdminUsers.WithoutConcat | login_form/src/domains/home/components/admin/user_managerment/AdminUsersManagement.tsx:365 | Filtering a concatenation filters each part in turn, so the kept ids keep their order. |
| AdminUsers.SelectUser | login_form/src/domains/home/components/admin/user_managerment/AdminUsersManagement.tsx:362-368 | The id's membership flips. An absent id is appended. A present one is removed with all its copies by `Without`, which keeps the other ids in order. |
| AdminUsers.WithoutAll | login_form/src/domains/home/components/admin/user_managerment/AdminUsersManagement.tsx:375 | Exactly the ids not on the page remain, and a selection with none of the page's ids is returned unchanged. |
| AdminUsers.WithoutAllConcat | login_form/src/domains/home/components/admin/user_managerment/AdminUsersManagement.tsx:375 | Removing the page's ids from a concatenation removes them from each part in turn, so the kept ids keep their order. |
| AdminUsers.Dedup | login_form/src/domains/home/components/admin/user_managerment/AdminUsersManagement.tsx:377 | `Array.from(new Set(...))` keeps the same ids, each once, in the order of their first occurrences. |
| AdminUsers.DedupKeepsDistinctPrefix | login_form/src/domains/home/components/admin/user_managerment/AdminUsersManagement.tsx:377 | Deduplicating a distinct list followed by more ids keeps that list, in order, in front. |
| AdminUsers.DedupOfDistinct | login_form/src/domains/home/components/admin/user_managerment/AdminUsersManagement.tsx:377 | A list without duplicates is its own deduplication. |
| AdminUsers.SelectAll | login_form/src/domains/home/components/admin/user_managerment/AdminUsersManagement.tsx:370-379 | A fully selected page is removed. Otherwise the page is added without creating duplicates. Ids from other pages stay either way. |
| AdminUsers.SelectAllToggles | login_form/src/domains/home/components/admin/user_managerment/UserTable.tsx:32-34 | Against the header checkbox, which is checked exactly when the page is non-empty and wholly selected: select-all on a checked page leaves none of it selected, and on an unchecked non-empty page leaves all of it selected. An empty page changes nothing. |
| UserTable.AllCurrentPageSelectedMeaning | login_form/src/domains/home/components/admin/user_managerment/UserTable.tsx:32-34 | The header checkbox is checked exactly when the page has users and every one of them is selected. Selecting more ids never clears it. |
| AdminUsers.SelectAllKeepsOrder | login_form/src/domains/home/components/admin/user_managerment/AdminUsersManagement.tsx:377 | Adding a page keeps the earlier distinct selection, in order, in front. |
| AdminUsers.RenderPaginationNumbers | login_form/src/domains/home/components/admin/user_managerment/AdminUsersManagement.tsx:693-782 | The loops and pushes compute exactly `PaginationTokens`. |
| AdminUsers.PlainPageNumbers | login_form/src/domains/home/components/admin/user_managerment/AdminUsersManagement.tsx:698-710 | The loop for up to seven pages pushes one button per page from 1 to the last, in order. Nothing is pushed when there are no pages. |
| AdminUsers.WindowPageNumbers | login_form/src/domains/home/components/admin/user_managerment/AdminUsersManagement.tsx:711-779 | Above seven pages, the first page, the gaps, the window and the last page are pushed in the order the full strip lays them out. |
| AdminUsers.MiddlePageNumbers | login_form/src/domains/home/components/admin/user_managerment/AdminUsersManagement.tsx:744-757 | The window loop pushes a button for each page of the window that is neither the first nor the last page, in order. |
| AdminUsers.ButtonsAt | login_form/src/domains/home/components/admin/user_managerment/AdminUsersManagement.tsx:744-757 | A run of buttons holds, in order, one button per page in the range, and only the current page's is active. |
| AdminUsers.MiddleUnguarded | login_form/src/domains/home/components/admin/user_managerment/AdminUsersManagement.tsx:744-757 | A window strictly inside 1..totalPages loses nothing to the guard `i > 1 && i < totalPages`. |
| AdminUsers.FewPagesShowAll | login_form/src/domains/home/components/admin/user_managerment/AdminUsersManagement.tsx:698-710 | Up to seven pages, the strip is exactly the pages 1..totalPages in order, the current one active, with no ellipsis. |
| AdminUsers.WindowInside | login_form/src/domains/home/components/admin/user_managerment/AdminUsersManagement.tsx:723-734 | Above seven pages, the window is [2,5] near the start, [total-4, total-1] near the end and [current-1, current+1] between. It lies strictly inside 1..totalPages. A window starting after 2 happens exactly when current > 3, and one ending before total-1 exactly when current < total-2. |
| AdminUsers.ManyPagesLayout | login_form/src/domains/home/components/admin/user_managerment/AdminUsersManagement.tsx:711-779 | Above seven pages, the strip is:<br>- page 1;<br>- an ellipsis exactly when the window starts after 2;<br>- the window's pages;<br>- an ellipsis exactly when the window ends before total-1;<br>- the last page.<br>That is seven tokens in all. |
| AdminUsers.CurrentPageShown | login_form/src/domains/home/components/admin/user_managerment/AdminUsersManagement.tsx:693-782 | For a page in range, its button is shown and is the only active one. Every button's page change lands on exactly that page. |
| AuditLogs.ActionColor | login_form/src/domains/home/components/admin/user_managerment/AuditLogs.tsx:153-165 | The colour is one of the five. |
| AuditLogs.ColorIffListed | login_form/src/domains/home/components/admin/user_managerment/AuditLogs.tsx:153-165 | Each colour is given exactly to the actions of its list, and grey exactly to actions in no list. |
| AuditLogs.RedActionsDelete | login_form/src/domains/home/components/admin/user_managerment/AuditLogs.tsx:154-159 | Every action shown red is a DELETE action. |
| AuditLogs.ActionIcon | login_form/src/domains/home/components/admin/user_managerment/AuditLogs.tsx:167-182 | Every action gets a non-empty icon. |
| AuditLogs.IconIffListed | login_form/src/domains/home/components/admin/user_managerment/AuditLogs.tsx:167-182 | An action gets a specific icon exactly when it is one of the eleven listed. A bulk action's icon is the warning sign followed by its single action's icon. |
| AuditLogs.IconedActionsAreColoured | login_form/src/domains/home/components/admin/user_managerment/AuditLogs.tsx:153-182 | Every action with its own icon has a colour other than grey. FORCE_DELETE_USER is red but has the default icon. |
| AuditLogs.UnderscoresToSpaces | login_form/src/domains/home/components/admin/user_managerment/AuditLogs.tsx:187 | The length is unchanged and no `_` remains. |
| AuditLogs.FormatActionText | login_form/src/domains/home/components/admin/user_managerment/AuditLogs.tsx:184-189 | The length is unchanged and no `_` remains. |
| AuditLogs.FormatActionTextChars | login_form/src/domains/home/components/admin/user_managerment/AuditLogs.tsx:184-189 | Character by character: an `_` becomes a space, a letter or digit that starts a word is upper-cased, and every other character is lower-cased. |
| AuditLogs.FormatActionTextIsTitleCase | login_form/src/domains/home/components/admin/user_managerment/AuditLogs.tsx:184-189 | The text is in title case: every word starts without a lower-case letter and continues without an upper-case one. |
| AuditLogs.FormatActionTextIdempotent | login_form/src/domains/home/components/admin/user_managerment/AuditLogs.tsx:184-189 | Formatting formatted text changes nothing. |
| AuditLogs.FormatActionTextExample | login_form/src/domains/home/components/admin/user_managerment/AuditLogs.tsx:184-189 | BULK_DELETE_USERS reads "Bulk Delete Users" and RESET_PASSWORD reads "Reset Password". |
| AuditLogs.CountPhraseReadsBack | login_form/src/domains/home/components/admin/user_managerment/AuditLogs.tsx:250 | A count phrase has three words: the verb, the count in digits, and "user" exactly when the count is 1. |
| AuditLogs.SummaryFromOldFormat | login_form/src/domains/home/components/admin/user_managerment/AuditLogs.tsx:243-272 | Without a body the summary is "Action performed". An imported user list is summed up by its length, whatever else the body holds. |
| AuditLogs.SummaryOfUsers | login_form/src/domains/home/components/admin/user_managerment/AuditLogs.tsx:248-251 | An imported list reads back as "Imported", its length, and "user" exactly when the length is 1. |
| AuditLogs.SummaryOfIds | login_form/src/domains/home/components/admin/user_managerment/AuditLogs.tsx:253-259 | Without an imported list, an id list reads back as three words. The verb is "Deleted" when the action mentions DELETE and "Processed" otherwise. Then come the list's length and "user" exactly when the length is 1. |
| AuditLogs.SummaryOfEmail | login_form/src/domains/home/components/admin/user_managerment/AuditLogs.tsx:261-271 | With neither list, a non-empty e-mail is named after "Created user:", "Updated user:" or "User:", chosen by the action. Otherwise the summary is "Action performed". |
| AuditLogs.MoreNoteReadsBack | login_form/src/domains/home/components/admin/user_managerment/AuditLogs.tsx:293 | The note reads back as "...and", the number left out, and "more". |
| AuditLogs.PreviewIds | login_form/src/domains/home/components/admin/user_managerment/AuditLogs.tsx:289-295 | The result has the full count and the first three ids, which are a prefix of the list. It has a note with count-3 exactly when there are more than three. |
| AuditLogs.FormatPerson | login_form/src/domains/home/components/admin/user_managerment/AuditLogs.tsx:281-288 | The e-mail and role are present exactly when non-empty. The status is Active or Inactive following `isActive` whenever that is given. The name is present when either name is non-empty, as the trimmed join of the two. |
| AuditLogs.FormatImport | login_form/src/domains/home/components/admin/user_managerment/AuditLogs.tsx:296-304 | The import count is the length of a user list. The two flags are copied when given. |
| AuditLogs.FormatOldRequest | login_form/src/domains/home/components/admin/user_managerment/AuditLogs.tsx:274-307 | A missing body, or one with no keys, gives only the note "No request data". Otherwise every key is filled exactly as the person, id and import parts state. |

## Left out

- **File system:** reading, writing and removing files through `fs-extra`, and `JSON.parse` and `JSON.stringify` of the stored lists. Files are a value (`Recorder.Disk`) holding lists and archived texts. A stored file that does not parse is not modelled, and neither is the pretty-printing of the JSON text. A list write fails in the model only at a path that cannot be written. `JSON.stringify` also throws when a snapshot's `input` or `output` is cyclic or holds a BigInt, and then both the history write and the index write are skipped. So `Recorder.CallAddsWeight`'s index total does not grow when a call's arguments cannot be serialised. Under the sync wrapper, later calls are hit too, because the shared snapshot keeps the old `output`.
- **Clock and ids:** `new Date()`, `toLocaleString` and `Math.random` are parameters: a `Clock` reading per save and an id per call.
- **Outputs:** an output is a string, a JSON text, or a value JSON cannot serialise. How a value is serialised is not modelled.
- **`mock` internals:** `jest.spyOn`, `Function.prototype.toString`, `this` and `originalMethod.apply` are left out. The function's source text is part of the target's slot, and the original call's outcome is a parameter of each call. An exception escaping `mock` is caught there. The model covers both caught paths: a slot that is empty or falsy gets no marker and no wrapper, and a truthy non-function, which `jest.spyOn` rejects, keeps its marker but gets no wrapper.
- **Asynchronous wrapper:** its `await` and any interleaving of concurrent calls are not modelled. Calls run one after another.
- **Validator:** `maxLength` 254 is declared but unused, so it has no counterpart.
- **Strings:**
  - Case mapping and the `\w`, `\b`, `\d` and `[A-Z]` classes are ASCII only, as the JavaScript patterns are. `toLowerCase` and `toUpperCase` of non-ASCII letters are not modelled.
  - A string's length is its count of characters, not of UTF-16 units, so `substring(0, 2)` on characters outside the basic plane differs.
- **`parseInt`:** modelled on a decimal or `0x` hexadecimal digit prefix after optional white space and sign. Precision limits of large numbers are not modelled.
- **User-management screen:**
  - React state, effects, the debounce timer, the URL update, focus handling and the network call are left out.
  - `handleLimitChange` is not part of the model.
  - Only the request of `fetchUsers` and the state derived from its reply are modelled.
  - `handleSelectAll` reads the selection of the render in the test and the pending selection in the update. The model treats the two as the same list.
- **Audit-log viewer:**
  - `parseLogDetails`, `formatOldResponse`, `formatDate`, the API calls and the rendering are not part of this model.
  - A `users` or `userIds` field that is not an array is treated as absent, as both functions treat it.
  - `isActive` is modelled as a boolean: `formatOldRequest` tests its truthiness, and a non-boolean value is not modelled.
  - An e-mail or role that is not a string is not modelled either.
- **Other parts of the repository:** `__lozicode__/mock.ts` (`readOutput`, `mockAll`), the other components and the demos are not part of this model.
- AuditLogs.ActionIcon: says only that an icon is non-empty. That the eleven listed icons are pairwise distinct is not proved, because comparing the many emoji literals pairwise is too costly for the solver.
- AuditLogs.RedActionsDelete: proved in one direction only, red implies DELETE. The converse is false: an unlisted action whose name contains DELETE, such as SOFT_DELETE_USER, is grey.
- Recorder.Target.Mock: the class invariant `Valid` does not record that a wrapper's kind equals `CheckIsAsync` of the slot's source. `Mock`'s own postcondition states it for the wrapper it installs.
- Recorder.HistoryPathIsNotMain: tells paths apart as strings. The file system does not. An empty target name with function `main` gives `data//main.json`, and a function name such as `../main` gives `data/x/../main.json`. Both open the index file, so the history merge and the index merge then act on one file, which the model does not capture. `Recorder.HistoryPathSegments` only states how both paths split into `/`-separated names. When the names also hold no `/` and the target name is not empty, `.` or `..`, those names denote distinct files, but that resolution step is not modelled.
- Recorder.SavedFiles: its separate history and index contents, and "no other file changes", hold for paths as strings. With the aliasing names above they do not hold on disk.
- Recorder.Target.Mock: the sync wrapper writes `input`, `id` and `output` into the very `snapshot` object the caller passed to `mock`, so the caller sees every call's changes. The model keeps the closure's snapshot in the target's slot as a value, so that aliasing is not captured. Only the closure's own view of the snapshot is modelled.
- Snapshots.MainKeepsOnePerFunction: needs the caller to use each id for one function only. Random ids make a clash unlikely but not impossible, and with a clash the index can end with two entries of one function.
