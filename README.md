# Krutanic student and admin screens — verified rules

This project models, in Dafny, the rules inside eight React screens of the Krutanic learning platform's front end:

- **Revenue sheet** (admin). It builds the lead list and the lead filter. It then makes one pass that folds enrolments into per-day and per-month buckets, together with the lifetime total. From these it produces the month selector's list and the day rows of the shown month.
- **Session player.** A current index over the course's session keys. The selected session follows the index. Previous and next are bounded at the two ends. The screen also shows a progress percentage and an "Up Next" line.
- **Password settings.** Validation happens in order: the two passwords must match, then the length must reach the minimum. Both fields are reset only after a successful update, and the live requirement indicators follow the same rules.
- **Dashboard** (current and legacy variants). It covers:
  - certificate eligibility, two calendar months after enrolment;
  - the confirmations and the title-cased name in the request;
  - the enrolled and active counters;
  - course cards that show either the amount due or the actions;
  - the certificate row.
- **Enrolled courses.** The first course is selected when the list arrives. The screen also defines a course-click handler, which selects a course and closes the sidebar on narrow windows, though no element calls it. Session rows are numbered with two zero-padded digits, and each row opens the player at its index.
- **Marketing leads** (admin). Assigning an executive updates one lead by id and leaves the others unchanged. The executive label falls back from the executive to the lead to "Not Assigned", and its colour follows.
- **Sidebar.** The menu table. The active item is matched against the current path ignoring letter case. Access to each item comes from the feature flags, and the name and initial have fallbacks.

Screens whose state changes step by step are classes with `modifies` clauses. Each handler is a method that states the new state. Pure rules are functions. The rows below name, for each rule, the lemma or contract that says what it means: an inverse, an invariant, an independent reference, or a comparison with the other screen that applies the same rule.

Days are `(year, month, day)` tuples with months numbered 0..11, as `getMonth` does. Months are `(year, month)` tuples. Money is an unbounded integer, and "now" is always a parameter.

The model is organised as follows:

- `common.dfy`: JavaScript helpers. These are `||` fallbacks, ASCII case mapping, `split(" ")` and `join(" ")`, the default string sort order, decimal numerals and `padStart`.
- `calendar.dfy`: dates, including `setMonth` overflow. For example, 31 December plus 2 months is 2 or 3 March.
- The other files: one module per screen.

## Model

| member | source | states |
|---|---|---|
| Common.InsertSorted | FRONTEND/src/Admin/RevenueSheet.jsx:40 | Adding a lead to a strictly sorted list keeps it strictly sorted. The result holds exactly the old elements and the new one. |
| Common.SplitFirst | FRONTEND/src/User/NewEnrolledCourses.jsx:133 | The first field of `split(" ")` is a prefix of the string. It ends at the end of the string or at a space. |
| Common.JoinSplit | FRONTEND/src/User/NewDashboard.jsx:90-92 | Joining the fields of `split(" ")` with spaces gives back the original string. |
| Common.SplitJoin | FRONTEND/src/User/NewDashboard.jsx:90-92 | Splitting a space-joined list of space-free words gives back the words. |
| Common.SplitLength | FRONTEND/src/User/NewDashboard.jsx:90 | `split(" ")` yields one more field than the string has spaces. |
| Common.DecimalValue | FRONTEND/src/User/NewEnrolledCourses.jsx:211 | The digits `String(n)` produces denote `n`, and they start with `0` only for `n` = 0, whose numeral is "0". |
| Common.DecimalCanonical | FRONTEND/src/User/NewEnrolledCourses.jsx:211 | Every digit string without a leading zero is the numeral of its own value, so together with DecimalValue the numeral is exactly `String(n)`. |
| Common.PadStart | FRONTEND/src/User/NewEnrolledCourses.jsx:211 | `padStart` gives length max(width, \|s\|), ends in `s`, and is padded with the pad character in front. |
| Calendar.AddMonths | FRONTEND/src/User/NewDashboard.jsx:71-72 | `setMonth(getMonth() + k)` gives a valid day. It is the same day `k` months on, or, when that month is too short, the overflow rolled into the following month. |
| Calendar.AddMonthsLater | FRONTEND/src/User/NewDashboard.jsx:71-72 | Moving forward one month or more gives a strictly later day. |
| Calendar.AddMonthsNoOverflow | FRONTEND/src/User/NewDashboard.jsx:71-72 | Up to day 28 the result is the same day of the target month. |
| Revenue.UniqueLeads | FRONTEND/src/Admin/RevenueSheet.jsx:40 | The lead list is strictly sorted, so it has no repeats. It contains exactly the truthy lead values of the students. |
| Revenue.FilterByLead | FRONTEND/src/Admin/RevenueSheet.jsx:56-58 | "All" keeps every student in order. Any other value keeps exactly the students whose lead equals it, each as many times as it occurs in the list, and never adds a student. |
| Revenue.KeepLeadCounts | FRONTEND/src/Admin/RevenueSheet.jsx:58 | The filter keeps every occurrence of a matching student and no occurrence of any other. |
| Revenue.FilterByLeadAppend | FRONTEND/src/Admin/RevenueSheet.jsx:56-58 | The filtered list keeps the source order: a student added at the end appears at the end of the result exactly when it passes the filter. |
| Revenue.FilteredLeadsListed | FRONTEND/src/Admin/RevenueSheet.jsx:93-96 | Every truthy lead of a filtered student is a column of every bucket, so the `hasOwnProperty` test holds for it. |
| Revenue.NewLeadCounts | FRONTEND/src/Admin/RevenueSheet.jsx:43-49 | One zero counter per unique lead, summing to 0. |
| Revenue.Record | FRONTEND/src/Admin/RevenueSheet.jsx:79-96 | Adding a student raises payments by 1, the total by its revenue, booked by `paidAmount \|\| 0`, credited by its credited amount, and pending by revenue − credited. The column of its lead rises by 1 when the lead is truthy and listed, and every other column is unchanged. |
| Revenue.RecordRaisesOwnColumn | FRONTEND/src/Admin/RevenueSheet.jsx:93-96 | Over the sorted lead list, column `j` rises by 1 exactly when the student's lead is truthy and equals `leads[j]`. |
| Revenue.FoldPending | FRONTEND/src/Admin/RevenueSheet.jsx:69-88 | In every bucket, pending = total − credited. |
| Revenue.FoldLeadCount | FRONTEND/src/Admin/RevenueSheet.jsx:93-96 | The per-lead counts sum to between 0 and the payments. They equal the payments when every student of the bucket has a listed lead. |
| Revenue.FoldCredited | FRONTEND/src/Admin/RevenueSheet.jsx:67-68 | Credited (the paid amount counted only for fully paid or half-cleared students) lies between 0 and booked, given non-negative paid amounts. |
| Revenue.FoldAbsent | FRONTEND/src/Admin/RevenueSheet.jsx:72-77 | A key no student has holds the zero bucket. |
| Revenue.TabulatedBuckets | FRONTEND/src/Admin/RevenueSheet.jsx:72-96 | Every bucket of an exact table has pending = total − credited and lead counts bounded by payments, with the equality case. Every key comes from some student. |
| Revenue.FirstKeysMembers | FRONTEND/src/Admin/RevenueSheet.jsx:72-77 | The key order of a table lists every key of the students, each once. |
| Revenue.FirstKeysPrecede | FRONTEND/src/Admin/RevenueSheet.jsx:72-77 | In that key order, a key comes before another only if one of its students occurs before every student of the other. |
| Revenue.UpsertKeys | FRONTEND/src/Admin/RevenueSheet.jsx:72-77 | Adding a student keeps every existing key in its place and appends a new key at the end. |
| Revenue.Aggregate | FRONTEND/src/Admin/RevenueSheet.jsx:60-99 | After the pass, both tables list each date or month key once, each with the fold of its students. Their rows are in the order in which each key first occurs among the filtered students, which is the order `Object.entries` yields. The total is the sum of all revenues. The payments over all buckets sum to the number of filtered students, and the bucket totals sum to the total. |
| Revenue.MonthRowIsFold | FRONTEND/src/Admin/RevenueSheet.jsx:237 | The row shown for any month, with the zero fallback, is the fold of that month's students. |
| Revenue.DailyRows | FRONTEND/src/Admin/RevenueSheet.jsx:130-133 | The day rows are exactly the day buckets whose month is the shown month. |
| Revenue.DailyRowsCounts | FRONTEND/src/Admin/RevenueSheet.jsx:130-133 | Each day bucket of the shown month appears as many times as in the table, and no other bucket appears. |
| Revenue.DailyRowsAppend | FRONTEND/src/Admin/RevenueSheet.jsx:130-133 | The rows keep the table's order: a bucket added last appears last exactly when it is in the shown month. |
| Revenue.Earliest | FRONTEND/src/Admin/RevenueSheet.jsx:104-110 | The earliest enrolment day belongs to some student and is no later than any. |
| Revenue.FirstMonth | FRONTEND/src/Admin/RevenueSheet.jsx:104-116 | The oldest month offered is the month of some enrolment, or the current month when there are no students. |
| Revenue.MonthsBack | FRONTEND/src/Admin/RevenueSheet.jsx:119-128 | The nested loops yield max(0, ord(current) − ord(start) + 1) valid months. Entry `i` is `i` months before the current month, so the list is strictly descending without gaps. |
| Revenue.MonthOptions | FRONTEND/src/Admin/RevenueSheet.jsx:101-128 | The `months` list runs from the current month down to the earliest enrolment's month. Without students it holds only the current month, and it is empty when every enrolment lies in a later month. |
| Revenue.OptionsCoverEnrolments | FRONTEND/src/Admin/RevenueSheet.jsx:101-128 | Every enrolment up to today has its month among the options. |
| Revenue.BuildSheet | FRONTEND/src/Admin/RevenueSheet.jsx:39-133 | The whole sheet from the fetched students and both selectors, with all the conservation facts above. Both tables, and hence the day rows, are in the order in which each key first occurs. |
| Learning.ProgressPercent | FRONTEND/src/User/NewLearning.jsx:67 | The integer nearest to 100·(index+1)/total, with halves rounded up: 2·p·total − total ≤ 200·(index+1) < 2·p·total + total. |
| Learning.ProgressFacts | FRONTEND/src/User/NewLearning.jsx:67 | Progress lies in 0..100, never falls as the index grows, and is 100 at the last session. |
| Learning.SessionPlayer.constructor | FRONTEND/src/User/NewLearning.jsx:8-15 | Mounting with the first effect run gives index 0, nothing playing, and the first session selected, or none when there are no sessions. `startIndex` is not read. |
| Learning.SessionPlayer.SessionClick | FRONTEND/src/User/NewLearning.jsx:18-22 | A click selects session `i`, moves the index there and starts playback. |
| Learning.SessionPlayer.Previous | FRONTEND/src/User/NewLearning.jsx:24-31 | At index 0 nothing changes. Otherwise the index drops by 1 and the selection follows. Playback is unchanged, and the index stays in range. |
| Learning.SessionPlayer.Next | FRONTEND/src/User/NewLearning.jsx:33-40 | At the last index nothing changes. Otherwise the index rises by 1 and the selection follows. Playback is unchanged, and the index stays in range. |
| Learning.SessionPlayer.SelectChange | FRONTEND/src/User/NewLearning.jsx:42-47 | Choosing index `i` (which must be in range) selects session `i` and leaves playback alone. |
| Learning.SessionPlayer.Play | FRONTEND/src/User/NewLearning.jsx:148 | The play button starts playback. |
| Learning.SessionPlayer.Progress | FRONTEND/src/User/NewLearning.jsx:67 | The pill's figure lies in 0..100 and is 100 on the last session. |
| Learning.SessionPlayer.UpNext | FRONTEND/src/User/NewLearning.jsx:158-160 | "This is the last session" exactly at the last index. Otherwise "Up Next: " and the next session's title, which prints as "undefined" when missing. |
| Learning.SessionPlayer.Resume | FRONTEND/src/User/NewLearning.jsx:13 | Corrected mount: the player opens at the router's `startIndex` when it names a session, and at 0 otherwise. |
| Learning.ResumeIndex | FRONTEND/src/User/NewEnrolledCourses.jsx:44-48 | The start index used is always a valid session index, or 0 when there are no sessions. |
| Setting.Validate | FRONTEND/src/User/Setting.jsx:18-25 | A mismatch is reported whenever the passwords differ, before the length is considered. "Too short" means equal but under 8 characters. Acceptance holds exactly when both requirement indicators are on. |
| Setting.RejectionExplains | FRONTEND/src/User/Setting.jsx:18-25 | A rejection shows "Passwords do not match" exactly when the passwords differ, and the length message exactly when they agree but are under 8 characters. Each message names a requirement indicator that is off. |
| Setting.PasswordForm.constructor | FRONTEND/src/User/Setting.jsx:9-13 | Both fields start empty and nothing is loading. |
| Setting.PasswordForm.SetNewPassword | FRONTEND/src/User/Setting.jsx:127 | Typing replaces the new password. |
| Setting.PasswordForm.SetRePassword | FRONTEND/src/User/Setting.jsx:158 | Typing replaces the confirmation. |
| Setting.PasswordForm.Submit | FRONTEND/src/User/Setting.jsx:16-33 | A request is sent exactly when validation accepts, and then `isLoading` is raised. The request carries the stored email and the new password. A rejection only reports its message. |
| Setting.PasswordForm.Complete | FRONTEND/src/User/Setting.jsx:34-41 | Success clears both fields. A failure keeps them and shows the server message or "Failed to update password". `isLoading` is false afterwards either way. |
| Dashboard.Walk | FRONTEND/src/User/NewDashboard.jsx:88-92 | The character-by-character reference: a character is upper-cased exactly when it starts a word. |
| Dashboard.WalkJoins | FRONTEND/src/User/NewDashboard.jsx:88-92 | Joining the capitalised split fields equals the character walk. |
| Dashboard.TitleCaseIsWalk | FRONTEND/src/User/NewDashboard.jsx:88-92 | The name's title case is the walk over its lower-cased form. |
| Dashboard.TitleCaseChars | FRONTEND/src/User/NewDashboard.jsx:88-92 | The length is kept. Each character is lower-cased, except the first of the name and any after a space, which is upper-cased (the effect of capitalising each `split(" ")` field). |
| Dashboard.TitleCaseWords | FRONTEND/src/User/NewDashboard.jsx:88-92 | The words of the result are the capitalised words of the lower-cased name, so the word count is kept. |
| Dashboard.TitleCaseIdempotent | FRONTEND/src/User/NewDashboard.jsx:88-92 | Title-casing twice is the same as once. |
| Dashboard.EligibleDate | FRONTEND/src/User/NewDashboard.jsx:69-72 | The eligible instant is a valid instant: the creation day plus two months, with the `setMonth` rollover, at the same time of day. |
| Dashboard.RefusalWindow | FRONTEND/src/User/NewDashboard.jsx:69-79 | Refused throughout the enrolment month and the next one. Accepted from the fourth month on. Never accepted before the second month after enrolment. |
| Dashboard.RefusalMonotone | FRONTEND/src/User/NewDashboard.jsx:76-79 | Once accepted, an application is accepted at every later instant. |
| Dashboard.ApplyOutcomeNotice | FRONTEND/src/User/NewDashboard.jsx:68-108 | The message of `handleSubmit`: none exactly when the application is not refused and a confirmation is declined. "Certificate Apply successfully!" exactly when it is eligible, both confirmations are given and the POST succeeds, and "Failed to apply, or you have already applied." when the POST fails. An "apply after" message names a date strictly after the enrolment day, and occurs only before the fourth month. |
| Dashboard.ActiveCount | FRONTEND/src/User/NewDashboard.jsx:337 | The active counter never exceeds the enrolled counter (line 330). It equals it exactly when every course is fully paid, and is 0 exactly when none is. |
| Dashboard.CardsMatchCounters | FRONTEND/src/User/NewDashboard.jsx:330-420 | The course cards (one per enrolment) offering the learn and certificate actions are exactly as many as the active counter. The cards showing the due amount make up the rest of the enrolled counter. |
| Dashboard.DashboardScreen.constructor | FRONTEND/src/User/NewDashboard.jsx:13-27 | Initially: no enrolments, loading, no certificate, no user, all flags off. |
| Dashboard.DashboardScreen.FetchEnrollData | FRONTEND/src/User/NewDashboard.jsx:54-66 | The list on success, the old list on failure. Loading is false afterwards. |
| Dashboard.DashboardScreen.FetchCertificate | FRONTEND/src/User/NewDashboard.jsx:110-119 | The certificate on success, the old value on failure. |
| Dashboard.DashboardScreen.FetchUserData | FRONTEND/src/User/NewDashboard.jsx:29-40 | Skipped when the stored id is missing or empty. Otherwise the user on success, the old value on failure. |
| Dashboard.DashboardScreen.FetchComponentsAccess | FRONTEND/src/User/NewDashboard.jsx:42-52 | Skipped when the stored id is missing or empty. Otherwise the server's flags replace the old ones on success. |
| Dashboard.DashboardScreen.SubmitApplication | FRONTEND/src/User/NewDashboard.jsx:68-108 | The outcome and its message are those of ApplyOutcomeNotice. Only a successful application refetches the certificate. |
| Dashboard.DashboardScreen.View | FRONTEND/src/User/NewDashboard.jsx:484-497 | "View" opens only a delivered certificate. |
| Dashboard.DashboardScreen.CloseModal | FRONTEND/src/User/NewDashboard.jsx:192 | Clicking outside closes the modal. |
| LegacyDashboard.CardsAgree | FRONTEND/src/User/Dashboard.jsx:252-299 | Wherever the legacy card renders, it shows the same session count, actions and due amount (programPrice − paidAmount) as the current card. |
| LegacyDashboard.LegacyCards | FRONTEND/src/User/Dashboard.jsx:252-260 | The card list renders only when every enrolment has a sessions object: `Object.keys` of a missing object throws during render, which takes down the whole screen. Otherwise one card per enrolment, in order. |
| LegacyDashboard.PanelAgrees | FRONTEND/src/User/Dashboard.jsx:311-343 | The legacy status panel appears exactly when the current dashboard lists a certificate row, and offers "View Certificate" exactly when that row's "View" is enabled, that is, when the certificate is delivered. |
| LegacyDashboard.LegacyDashboardScreen.constructor | FRONTEND/src/User/Dashboard.jsx:11-15 | Initially: no enrolments, loading, no certificate. |
| LegacyDashboard.LegacyDashboardScreen.FetchEnrollData | FRONTEND/src/User/Dashboard.jsx:17-33 | The list on success, the old list on failure. Loading is false afterwards. |
| LegacyDashboard.LegacyDashboardScreen.FetchCertificate | FRONTEND/src/User/Dashboard.jsx:88-98 | The certificate on success, the old value on failure. |
| LegacyDashboard.LegacyDashboardScreen.SubmitApplication | FRONTEND/src/User/Dashboard.jsx:35-86 | The same decision as the current dashboard, with the same messages as alerts. Only success refetches the certificate. |
| LegacyDashboard.LegacyDashboardScreen.ViewCertificate | FRONTEND/src/User/Dashboard.jsx:326-332 | "View Certificate" opens only a delivered certificate. |
| EnrolledCourses.SessionList | FRONTEND/src/User/NewEnrolledCourses.jsx:199-200 | The listed sessions are as many as the session count. |
| EnrolledCourses.CountMatchesRows | FRONTEND/src/User/NewEnrolledCourses.jsx:137-230 | The session count on the card (the number of keys, or 0 without a sessions object) equals the number of session rows and the number of sessions handed to the player. |
| EnrolledCourses.TitleBadge | FRONTEND/src/User/NewEnrolledCourses.jsx:133 | The badge is never empty. It is "Course", or the title's first field: a space-free prefix of the title that ends at a space or at the end. When the title starts with a non-space, it is exactly that first word; when the title is empty or starts with a space, the empty first field is falsy and the badge is "Course". |
| EnrolledCourses.RowLabel | FRONTEND/src/User/NewEnrolledCourses.jsx:211 | At least two digits, denoting index + 1. Exactly "0" followed by the digit for 1..9. Unchanged `String(index + 1)` once that has two or more digits. |
| EnrolledCourses.RowLabelsDistinct | FRONTEND/src/User/NewEnrolledCourses.jsx:211 | Different rows get different labels. |
| EnrolledCourses.RowsOpenTheirSession | FRONTEND/src/User/NewEnrolledCourses.jsx:199-225 | Row `i` is numbered `i + 1`, and its play target starts at index `i` and carries session `i` of the course. |
| EnrolledCourses.OpenRowAsWritten | FRONTEND/src/User/NewEnrolledCourses.jsx:225 | With the player as written, every row's play button shows session 0, not the row's session. |
| EnrolledCourses.OpenRow | FRONTEND/src/User/NewEnrolledCourses.jsx:225 | With the corrected player, row `i`'s play button shows session `i`. |
| EnrolledCourses.CoursesScreen.constructor | FRONTEND/src/User/NewEnrolledCourses.jsx:12-16 | Initially: no enrolments, no selection, loading, sidebar open. |
| EnrolledCourses.CoursesScreen.FetchEnrollData | FRONTEND/src/User/NewEnrolledCourses.jsx:29-42 | A fetched non-empty list selects its first course. An empty list keeps the selection. A failure changes nothing. Loading is false afterwards. |
| EnrolledCourses.CoursesScreen.FetchUserData | FRONTEND/src/User/NewEnrolledCourses.jsx:19-27 | Skipped when the stored id is missing or empty. Otherwise the user on success, the old value on failure. |
| EnrolledCourses.CoursesScreen.CourseClick | FRONTEND/src/User/NewEnrolledCourses.jsx:50-56 | The click always selects the course. It closes the sidebar exactly when the width is below 1024 and otherwise leaves it as it was. |
| EnrolledCourses.CoursesScreen.ToggleSidebar | FRONTEND/src/User/NewEnrolledCourses.jsx:94 | The menu button flips the sidebar. |
| MarketingLeads.AssignIdempotent | FRONTEND/src/Admin/AdminMarketingLeads.jsx:56-62 | Repeating the same assignment gives the same list. |
| MarketingLeads.GreenIffAssigned | FRONTEND/src/Admin/AdminMarketingLeads.jsx:139-142 | The label is green exactly when it is not "Not Assigned", for names other than that text. |
| MarketingLeads.RedMeansNotAssigned | FRONTEND/src/Admin/AdminMarketingLeads.jsx:139-142 | A red label always reads "Not Assigned". |
| MarketingLeads.AssignedLabel | FRONTEND/src/Admin/AdminMarketingLeads.jsx:54-62 | After a successful assignment with a non-empty name, the lead's label is that name and it is green. |
| MarketingLeads.AssignLeavesOthers | FRONTEND/src/Admin/AdminMarketingLeads.jsx:56-62 | An assignment keeps the list's length and every lead's id, and a lead with another id keeps its label and its colour. |
| MarketingLeads.LeadsScreen.constructor | FRONTEND/src/Admin/AdminMarketingLeads.jsx:7-9 | Initially: no leads, no executives, loading. |
| MarketingLeads.LeadsScreen.FetchAllMarketingLeads | FRONTEND/src/Admin/AdminMarketingLeads.jsx:11-26 | The list on success, with no toast. On failure the old list and the "Failed to fetch marketing leads" toast. Loading is false afterwards. |
| MarketingLeads.LeadsScreen.FetchAllExecutives | FRONTEND/src/Admin/AdminMarketingLeads.jsx:28-40 | The executives on success, with no toast. On failure the old ones and the "Failed to fetch executives" toast. |
| MarketingLeads.LeadsScreen.ExecutiveChange | FRONTEND/src/Admin/AdminMarketingLeads.jsx:42-68 | An empty name sends nothing and changes nothing. A reply with `success` set applies the assignment. A false flag or a thrown error leaves the list unchanged. |
| Sidebar.IsActiveFacts | FRONTEND/src/User/UserSidebar.jsx:61 | Active matching is reflexive, symmetric, transitive and blind to letter case. |
| Sidebar.LowerIdempotent | FRONTEND/src/User/UserSidebar.jsx:61 | Lower-casing twice is lower-casing once. |
| Sidebar.DisplayName | FRONTEND/src/User/UserSidebar.jsx:90 | The stored name when it is truthy, and "Student" otherwise, so never empty. |
| Sidebar.InitialOfDisplayName | FRONTEND/src/User/UserSidebar.jsx:87-90 | The avatar letter is the upper-cased first character of the shown name when the user has a name. Without one, name and letter fall back together, to "Student" and "U". |
| Sidebar.MenuPathsDistinct | FRONTEND/src/User/UserSidebar.jsx:70-78 | No two menu paths coincide, even ignoring letter case. |
| Sidebar.AtMostOneActive | FRONTEND/src/User/UserSidebar.jsx:61-78 | Whatever the current path, at most one menu item is highlighted. |
| Sidebar.MenuUsesEveryFlagOnce | FRONTEND/src/User/UserSidebar.jsx:13-19 | Every restricted item names one of the five flag keys, and each key gates exactly one item. |
| Sidebar.DefaultFlagsDenyRestricted | FRONTEND/src/User/UserSidebar.jsx:13-19 | With the initial flags, an item has access exactly when it is unrestricted. |
| Sidebar.DefaultFlagsClick | FRONTEND/src/User/UserSidebar.jsx:13-59 | Before the flags arrive, every restricted item's click only shows "Upgrade the plan to access this feature", and every open item navigates to its path. |
| Sidebar.RestrictedClickOwnFlag | FRONTEND/src/User/UserSidebar.jsx:53-97 | A restricted item's click depends on its own flag only: changing any other flag leaves it unchanged. |
| Sidebar.SidebarState.constructor | FRONTEND/src/User/UserSidebar.jsx:11-19 | Initially: no user and all flags off. |
| Sidebar.SidebarState.FetchUserData | FRONTEND/src/User/UserSidebar.jsx:21-29 | Skipped when the stored id is missing or empty. Otherwise the user on success, the old value on failure. |
| Sidebar.SidebarState.FetchComponentsAccess | FRONTEND/src/User/UserSidebar.jsx:31-41 | Skipped when the stored id is missing or empty. Otherwise the server's flags replace the old ones on success. |
| Sidebar.SidebarState.Click | FRONTEND/src/User/UserSidebar.jsx:95-134 | Clicking an item navigates to its path exactly when it has access. |
| Sidebar.SidebarState.FreshSidebarRefuses | FRONTEND/src/User/UserSidebar.jsx:13-134 | On a freshly mounted sidebar, a click on any restricted item shows the upgrade message. |

## Left out

- HTTP calls are not modelled. Each response is an input value: data, or a thrown error. The `debounce` wrapper, the `hasFetched` guards and the console logging are left out. So are the ordering of the concurrent fetches on mount and replies arriving after later user actions.
- Browser facilities are left out: local storage, routing, toasts, alerts and window size. Stored values are parameters, the toasts and alerts of the modelled handlers are returned notices, and confirmation answers and window width are parameters. The logout timers, the certificate image download and the LinkedIn link are not modelled.
- Date formatting is left out: `toLocaleDateString`, `toLocaleString`, time zones and daylight saving. A day key stands for its `en-GB` string and a month key for its "Month YYYY" string. The "apply after" message carries the eligible day rather than its formatted text.
- Revenue.Earliest: compares enrolment days only. The time of day that `Math.min` also compares cannot change the month, which is all the selector uses.
- Revenue.BuildSheet: requires every `createdAt` to be a valid calendar day. Invalid dates are not modelled.
- Revenue.MonthRow: the fallback bucket at RevenueSheet.jsx:237 has no `booked` field. The model uses the full zero bucket.
- Revenue.Bucket: the `month` string stored in each day bucket is not stored. It is recomputed from the key by `MonthOfKey`.
- Revenue.UniqueLeads: sorts by code point (Common.Lt), while `sort()` compares UTF-16 code units. The two orders differ only when a lead holds a character above U+FFFF at the same position as one in U+E000-U+FFFF.
- Revenue.FilterByLead: a lead literally named "All" cannot be selected on its own, because the filter treats that value as "no filter". This is modelled as written.
- Floating point is not modelled. Amounts are unbounded integers. Progress uses exact rational rounding (Learning.ProgressPercent) instead of the double-precision `Math.round`, and the two may differ when a product lands within rounding error of a half.
- Dashboard.TitleCase: uses ASCII case mapping only. Unicode case mapping, which can change a string's length, is not modelled.
- Setting.Validate: counts length in characters, not UTF-16 code units.
- Sidebar.Initial: upper-cases with ASCII case mapping only. `toUpperCase` also maps letters such as "é" to "É", and maps "ß" to the two letters "SS", so the one-character avatar letter holds for the model only.
- Sidebar.IsActive: compares paths with ASCII lower-casing only, where `toLowerCase` also maps non-ASCII letters.
- Learning.SessionPlayer.SessionClick: takes the index alone. The source's separate key argument is assumed to be the key at that index.
- Learning.SessionPlayer.SessionClick, Previous, Next and SelectChange: NewLearning.jsx:18-47 defines these handlers, but no element of that screen calls them; only the play button (line 148) is wired. They are modelled as written.
- Learning.SessionPlayer.SelectChange: requires the index to be in range, because the handler checks no bounds.
- Learning.SessionPlayer.constructor: covers the mount together with the first run of the effect that selects the first session. `sessions` never changes afterwards. A missing router state reads as no title and no sessions, and the player then stays on its loading screen.
- MarketingLeads.LeadsScreen.ExecutiveChange: takes each option's value to be the executive's `fullname` string. The "Select Executive" option has the empty value and no id.
- EnrolledCourses.CoursesScreen.FetchEnrollData: assumes a list in the response. A `null` body is not modelled.
- EnrolledCourses.CoursesScreen.CourseClick: NewEnrolledCourses.jsx:50-56 defines `handleCourseClick`, but no element calls it; the only click handlers are at lines 94, 156 and 224. It is modelled as written.
- EnrolledCourses.Enrollment: assumes that `fullname`, `email`, `domain`, `status`, `programPrice`, `paidAmount` and `createdAt` are present; only the course's `title`, `category`, `description` and `session` may be missing. A record without them is not modelled. Without `fullname`, `handleSubmit` throws at NewDashboard.jsx:88-89, before its `try`, after both confirmations, so nothing is posted or shown. Without `programPrice` or `paidAmount`, the due amount renders as "₹NaN" (NewDashboard.jsx:415, Dashboard.jsx:286).
- NewDashboard's `handleRestrictedClick` (NewDashboard.jsx:167-173) is defined but never wired there. It is the same decision as Sidebar.RestrictedClick, which models both. The avatar letter at NewDashboard.jsx:295 is the expression that Sidebar.Initial models.
- The certificate state starts as an empty string, which is falsy. The model starts it as `None`.
- The composition-only files are not part of this model: UserLayout.jsx and the five `*Page.jsx` files. Neither is the markup, styling or external URLs.

## Findings

| source | as written | input that shows it | evidently intended | confidence | as-written member | corrected member |
|---|---|---|---|---|---|---|
| FRONTEND/src/User/NewLearning.jsx:13 | The player reads only `courseTitle` and `sessions` from the router state, so the `startIndex` passed by each session row (NewEnrolledCourses.jsx:225) is ignored and playback opens at session 0. | Clicking the play button of row "02" (index 1) of a course with two sessions | The player opens at the row's session when the start index names one, and at session 0 otherwise. | medium, not executed | EnrolledCourses.OpenRowAsWritten | EnrolledCourses.OpenRow (via Learning.SessionPlayer.Resume) |
