# Learning dashboard — a Dafny model of its core

This project models the state and logic of a React learning dashboard:

- **The root component (`AppContent`).** It holds:
  - the current view;
  - whether the login or the registration form is shown;
  - the subject selected for the tutor chat;
  - the dark-mode flag;
  - the list of bookmarked subject ids.

  It reads dark mode and the bookmarks from the browser's key/value store when it mounts, and writes them back whenever they change. It renders a login or registration screen when nobody is signed in. Otherwise it renders the navigation bar and the page for the current view. Five views (`dashboard`, `admin`, `catalog`, `daily-quizzes`, `forums`) have no case of their own and fall back to the dashboard.
- **The home dashboard.** Its "Learning Paths" list shows the catalog subjects whose ids are bookmarked, with its empty state and the average progress over that list.
- **The subject catalog page.** It covers:
  - the case-insensitive search by name;
  - the badge colours and the material icons;
  - a bookmark button that keeps its own copy of the list and writes it to the store.
- **`getCurrentTopicName`.** The two dashboards share this topic lookup.
- **The study analytics page.** It covers `formatTime`, the week's best day (`Math.max`) and the week's total (`reduce`).

Modules:

| file | module | contents |
|---|---|---|
| `subjects.dfy` | `Subjects` | the `Subject` and learning-path records, the six catalog subjects, subsequences |
| `preferences.dfy` | `Preferences` | the key/value store (`Missing`, an empty string, or JSON) and `saved ? JSON.parse(saved) : fallback` |
| `bookmarks.dfy` | `Bookmarks` | the bookmark toggle, shared by the root component and the catalog page |
| `text.dfy` | `Text` | `toLowerCase` and `includes` |
| `topic_names.dfy` | `TopicNames` | the topic table and `getCurrentTopicName` |
| `dashboard.dfy` | `Dashboard` | the bookmarked list and its average progress |
| `subject_dashboard.dfy` | `SubjectDashboard` | search, badges, icons and the page's state (class `SubjectCatalogPage`) |
| `study_dashboard.dfy` | `StudyDashboard` | `formatTime` with a parser proving it invertible, best day, weekly total |
| `app.dfy` | `App` | the render dispatch and the session state (class `AppContent`) |

Some JavaScript semantics are written out explicitly:

- `%` takes the sign of the dividend (`JsRemainder`).
- `Math.max()` of nothing is `-Infinity` (`Extended.NegInfinity`).
- A zero `totalTopics` makes the division `NaN` or infinite (`None`).
- An empty stored string is falsy and so counts as absent (`Saved.Blank`).

## Model

| member | source | states |
|---|---|---|
| Preferences.LoadOr | src/App.tsx:26-33 | a stored JSON value is used; an absent or empty entry gives the fallback |
| Bookmarks.Without | src/App.tsx:100 | the filtered list lacks the id, keeps every other id with its multiplicity, and keeps the order |
| Bookmarks.Toggle | src/App.tsx:97-103 | the id is present afterwards iff it was absent; other ids keep their counts; an absent id is appended at the end; removal only deletes elements |
| Bookmarks.WithoutAbsent | src/App.tsx:100 | filtering out an id that does not occur leaves the list unchanged |
| Bookmarks.WithoutAppend | src/App.tsx:100 | filtering distributes over concatenation |
| Bookmarks.ToggleTwiceAbsent | src/App.tsx:97-103 | bookmarking and then un-bookmarking a new id restores the exact list |
| Bookmarks.ToggleTwicePresent | src/App.tsx:97-103 | un-bookmarking and re-bookmarking an id restores the same set of ids, with the id moved to the end and no duplicates |
| Bookmarks.ToggleKeepsNoDuplicates | src/App.tsx:97-103 | a duplicate-free list stays duplicate-free |
| Bookmarks.ToggleAsSet | src/App.tsx:97-103 | as a set, the toggle is the symmetric difference with the id |
| Text.LowerChar | src/components/subjects/SubjectDashboard.tsx:26 | ASCII capitals map to their small letters; other characters are unchanged |
| Text.ToLower | src/components/subjects/SubjectDashboard.tsx:26 | same length, pointwise lower-casing, no capitals left |
| Text.ToLowerIdempotent | src/components/subjects/SubjectDashboard.tsx:26 | lower-casing twice equals lower-casing once |
| Text.Includes | src/components/subjects/SubjectDashboard.tsx:26 | true iff the term occurs at some position of the text |
| Text.IncludesEmpty | src/components/subjects/SubjectDashboard.tsx:26 | the empty term occurs in every name |
| SubjectDashboard.FilteredSubjects | src/components/subjects/SubjectDashboard.tsx:25-28 | the result is the catalog's subjects whose lower-cased name contains the lower-cased term, in catalog order; every matching entry is kept as often as it occurs and no other entry is |
| SubjectDashboard.EmptySearchShowsAll | src/components/subjects/SubjectDashboard.tsx:25-28 | an empty search shows the whole catalog |
| SubjectDashboard.SearchIgnoresCase | src/components/subjects/SubjectDashboard.tsx:25-28 | a search term and its lower-cased form give the same result |
| SubjectDashboard.StatusColor | src/components/subjects/SubjectDashboard.tsx:30-38 | each enrollment status gets its own badge, iff-wise; every other string gets gray |
| SubjectDashboard.AssignmentStatusColor | src/components/subjects/SubjectDashboard.tsx:40-48 | upcoming is blue, active green, overdue red, iff-wise; `completed` and unknown statuses are gray |
| SubjectDashboard.MaterialIcon | src/components/subjects/SubjectDashboard.tsx:50-57 | video and link get their icons, iff-wise; everything else gets the file icon |
| SubjectDashboard.SubjectCatalogPage.constructor | src/components/subjects/SubjectDashboard.tsx:17-23 | empty search, the `all` filter, the bookmark list loaded from the store with `[]` as fallback |
| SubjectDashboard.SubjectCatalogPage.Shown | src/components/subjects/SubjectDashboard.tsx:25-28 | the grid shows exactly the catalog subjects that match the current search, in catalog order and with their multiplicities |
| SubjectDashboard.SubjectCatalogPage.SetSearchTerm | src/components/subjects/SubjectDashboard.tsx:427 | the search term becomes the typed value |
| SubjectDashboard.SubjectCatalogPage.SelectFilter | src/components/subjects/SubjectDashboard.tsx:440 | the filter changes and the grid does not |
| SubjectDashboard.SubjectCatalogPage.HandleBookmarkClick | src/components/subjects/SubjectDashboard.tsx:59-67 | the page's list is toggled and the new list is written to the store |
| TopicNames.TopicsWellFormed | src/components/Dashboard.tsx:44-51 | every table row is non-empty and has no empty topic name |
| TopicNames.CurrentTopicName | src/components/Dashboard.tsx:43-56 | a negative count gives "Advanced Topics"; an unlisted subject gives "General Topics"; a listed one gives the topic at the count, clamped to the last |
| TopicNames.CurrentTopicClamped | src/components/subjects/SubjectDashboard.tsx:70-83 | for a listed subject the name is always a topic of its row, and the last one once the count reaches the row length |
| TopicNames.CatalogTopicNames | src/components/subjects/SubjectDashboard.tsx:80-82 | the topic shown for each of the six catalog subjects at its catalog count (src/data/mockData.ts:15-76; e.g. Mathematics at 18 is "Exponentials", Literature at 8 is "British Literature"), the clamp to the last topic (Literature at 14 and 40 is "Rhetoric"), and the two fallbacks |
| Dashboard.BookmarkedSubjectsList | src/components/Dashboard.tsx:31 | the list is the catalog subjects whose id is bookmarked, in catalog order; every such entry is kept as often as it occurs and no other entry is |
| Dashboard.BookmarkedListShorter | src/components/Dashboard.tsx:105 | the count shown is at most the catalog size |
| Dashboard.BookmarkedListBound | src/components/Dashboard.tsx:105 | with unique catalog ids, the count shown is at most the number of distinct bookmarked ids |
| Dashboard.EmptyStateExactly | src/components/Dashboard.tsx:108 | the empty state shows iff no catalog subject's id is bookmarked |
| Dashboard.StaleIdIgnored | src/components/Dashboard.tsx:31 | a bookmarked id that names no catalog subject changes nothing in the list |
| Dashboard.TotalProgress | src/components/Dashboard.tsx:33-35 | an empty list gives 0 |
| Dashboard.TotalProgressIsPercentage | src/components/Dashboard.tsx:33-35 | when every subject has 0 to all of its topics done and some topics, the progress is between 0 and 100 |
| Dashboard.NothingBookmarkedNoProgress | src/components/Dashboard.tsx:31-35 | with no catalog subject bookmarked, the list is empty and the progress is 0 |
| Dashboard.CatalogIdsUnique | src/data/mockData.ts:15-76 | the catalog's ids are distinct |
| StudyDashboard.Digits | src/components/analytics/StudyDashboard.tsx:34 | a non-empty string of decimal digits, one digit iff the number is below 10, with a leading zero only for 0 itself |
| StudyDashboard.DigitsRoundTrip | src/components/analytics/StudyDashboard.tsx:34 | reading the digits back gives the number |
| StudyDashboard.IntToString | src/components/analytics/StudyDashboard.tsx:34 | a non-negative number's text is digits that read back to it, without leading zeros; a negative number's text is a minus sign followed by such digits of its absolute value |
| StudyDashboard.JsRemainder | src/components/analytics/StudyDashboard.tsx:33 | strictly between -60 and 60; the Euclidean remainder for a non-negative dividend; never positive for a negative one; the dividend minus the remainder is a multiple of 60, which together with the bound and the sign fixes the value |
| StudyDashboard.FormatTime | src/components/analytics/StudyDashboard.tsx:31-35 | for non-negative minutes, parsing the text back gives the minutes; the hours part appears iff minutes ≥ 60; negative minutes show only a signed remainder |
| StudyDashboard.FormatTimeInjective | src/components/analytics/StudyDashboard.tsx:31-35 | distinct non-negative durations are shown differently |
| StudyDashboard.FormatTimeSplit | src/components/analytics/StudyDashboard.tsx:31-35 | the text is `h`h `m`m with 60h + m = minutes and 0 ≤ m < 60, or `m`m below one hour |
| StudyDashboard.MaxStudyTime | src/components/analytics/StudyDashboard.tsx:37 | -Infinity iff there are no days; otherwise some day reaches the value and no day exceeds it |
| StudyDashboard.ReduceIsSum | src/components/analytics/StudyDashboard.tsx:228 | the left fold from an accumulator is the accumulator plus the sum |
| StudyDashboard.WeeklyTotal | src/components/analytics/StudyDashboard.tsx:228 | the weekly total is the sum of the days' minutes |
| StudyDashboard.BestDayAtMostTotal | src/components/analytics/StudyDashboard.tsx:228-244 | with no negative day, the best day is at most the week's total |
| StudyDashboard.TodayFigure | src/components/analytics/StudyDashboard.tsx:14-70 | today's 145 minutes show as "2h 25m" |
| StudyDashboard.BestDayFigure | src/components/analytics/StudyDashboard.tsx:21-37 | the week's best day is 200 minutes |
| StudyDashboard.BestDayShown | src/components/analytics/StudyDashboard.tsx:244 | 200 minutes show as "3h 20m" |
| StudyDashboard.WeekTotalFigure | src/components/analytics/StudyDashboard.tsx:21-29 | the week totals 975 minutes |
| StudyDashboard.WeekTotalShown | src/components/analytics/StudyDashboard.tsx:228 | 975 minutes show as "16h 15m" |
| App.IsAdmin | src/App.tsx:36 | true iff a user is signed in with the admin address |
| App.CountCompleted | src/App.tsx:66 | the number of completed topics in the list (their multiplicity); at most the number of topics; equal iff all are completed; zero iff none is |
| App.ToSubject | src/App.tsx:59-68 | id, name, description, colour and difficulty are copied; the icon is BookOpen; the total is the topic count and the completed count is the number of completed topics, between 0 and the total |
| App.PageFor | src/App.tsx:131-233 | the profile, subjects, analytics, chat and quiz views each get their own page, iff-wise; the dashboard page is shown iff the view has no case of its own, and gets the bookmark list; the chat and quiz pages get the selected subject |
| App.Render | src/App.tsx:110-128 | signed out, the registration or login screen by the form choice; signed in, the shell with the current view in the navigation bar and the page that view selects |
| App.AuthGateFirst | src/App.tsx:110-128 | signed out, the screen does not depend on the view, the selection or the bookmarks |
| App.FallbackShowsDashboard | src/App.tsx:210-232 | admin, catalog, daily-quizzes and forums render the dashboard's page, while the navigation bar keeps the view |
| App.DarkModeParity | src/App.tsx:93-95 | after n toggles from light mode, dark mode is on iff n is odd |
| App.ToggleDarkModeRepeatedly | src/App.tsx:38-45 | after n calls of toggleDarkMode in a fresh session, the stored flag is on iff n is odd |
| App.AppContent.constructor | src/App.tsx:22-49 | dashboard view, login form, nothing selected; both preferences loaded with fallbacks false and [] and written back to the store |
| App.AppContent.HandleSelectSubject | src/App.tsx:51-54 | the subject is selected and the chat page shows it |
| App.AppContent.HandleSelectCoreSubject | src/App.tsx:56-71 | the learning-path subject and its conversion are selected; the view is the chat |
| App.AppContent.HandleStartChat | src/App.tsx:73-76 | no subject is selected and the chat page opens |
| App.AppContent.HandleStartQuiz | src/App.tsx:78-81 | no subject is selected and the quiz page opens |
| App.AppContent.HandleBackToDashboard | src/App.tsx:83-87 | the dashboard view, both selections cleared, dark mode and bookmarks untouched |
| App.AppContent.HandleNavigation | src/App.tsx:105-107 | the view becomes the one chosen |
| App.AppContent.SwitchToRegister | src/App.tsx:123 | the registration screen is shown while signed out |
| App.AppContent.SwitchToLogin | src/App.tsx:114 | the login screen is shown while signed out |
| App.AppContent.ToggleDarkMode | src/App.tsx:38-45 | the flag flips and the store holds the new value |
| App.AppContent.ToggleBookmark | src/App.tsx:47-49 | the list is toggled and the store holds the new list |
| App.AppContent.HandleDashboardBookmarkClick | src/components/Dashboard.tsx:37-40 | the clicked subject, which is one of the listed cards, has its id toggled in the session's list, and so is no longer bookmarked; the store holds the new list |
| App.FirstSession | src/App.tsx:93-103 | a fresh session that toggles dark mode and bookmarks `math` leaves true and ["math"] in the store, on the dashboard |
| App.StaleBookmarksScenario | src/components/subjects/SubjectDashboard.tsx:20-23 | with `physics` stored, a `math` bookmark made on the catalog page is missing from the dashboard, and un-bookmarking `physics` there leaves the store empty |
| App.VisitCatalogAndClick | src/components/subjects/SubjectDashboard.tsx:20-67 | mounting the catalog page over the store and clicking one bookmark button stores the toggle of the list it loaded |
| App.AppContent.HandleSubjectsBookmarkClick | src/components/subjects/SubjectDashboard.tsx:59-67 | the corrected catalog click toggles the session's own list and keeps the store in step with it |
| App.SharedBookmarksScenario | src/components/subjects/SubjectDashboard.tsx:59-67 | with the shared list, the same visits list `math` on the dashboard and leave `["math"]` stored |

## Left out

- The JSX markup, the styling classes, the `document.documentElement` dark class and the Navbar, TutorChat, QuizSystem, ProfilePage, login and registration components: they render and hold no logic of the core.
- The authentication provider: `isAuthenticated` and the user are parameters of `Render` and `IsAdmin`.
- `handleQuizComplete`: it only writes to the console.
- `JSON.stringify`/`JSON.parse`: the store holds decoded values of the expected type. A malformed stored text, which would make `JSON.parse` throw, is not modelled. Nor is well-formed JSON of another type, such as `null` under the bookmarks key, after which `.includes` throws.
- The catalog page's detail view (its `selectedSubject`) and the enhanced-subject records it shows: only the badge and icon functions used there are modelled.
- Floating point: progress uses exact reals, and `NaN` and infinities from a zero total are lumped together as `None`. `Math.round`, the daily average, the percentages and the bar heights on the analytics page are not modelled.
- `formatTime` is modelled on integer minutes only. The source's callers pass integers.
- `StudyDashboard.IntToString`, and with it `StudyDashboard.FormatTime`, `StudyDashboard.FormatTimeInjective`, `StudyDashboard.WeeklyTotal` and the `completedTopics` count given to `TopicNames.CurrentTopicName`: JavaScript numbers are doubles, but the model uses unbounded integers. Integers are exact only below 2^53, and template literals switch to exponent notation from 1e21. So the digit text, the `ParseTime` round trip and injectivity hold for the program only for magnitudes below 2^53. The page's own values are at most 975.
- `Text.LowerChar`: lower-cases the ASCII capitals only; other capitals such as `É` are kept, where `toLowerCase` maps them.
- `Text.ToLower`: built on `Text.LowerChar`, so Unicode case mapping is not modelled.
- `TopicNames.TopicsOf`: names such as `constructor` that an object literal inherits from its prototype are treated as unlisted, as for any other unknown name.
- `Dashboard.TotalProgress`: its ensures states only the empty case. The value for a non-empty list is bounded by `TotalProgressIsPercentage`, not computed in closed form.

## Findings

| source | as written | input that shows it | evidently intended | confidence | as-written member | corrected member |
|---|---|---|---|---|---|---|
| src/components/subjects/SubjectDashboard.tsx:20-23 | the catalog page keeps its own bookmark list, loaded from the store on mount. The session keeps the list it loaded at start (src/App.tsx:30-33) and writes it back on every change. | `["physics"]` stored; bookmark `math` on the catalog page (the store holds `["physics", "math"]`), go back, un-bookmark `physics` on the dashboard | the catalog page uses the session's list and `toggleBookmark`, as the dashboard does (src/components/Dashboard.tsx:37-40), so `math` shows on the dashboard and the store ends with `["math"]` | medium, not executed: the dashboard never lists `math`, and the store ends with `[]` | App.StaleBookmarksScenario | App.AppContent.HandleSubjectsBookmarkClick |
