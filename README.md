# AI course generator front end: a Dafny model

This project models the client-side logic of a React front end for an AI course
generator. Users sign in, keep a list of their own courses, read a generated course
chapter by chapter, browse a public catalogue, and preview a course layout. Every
module here corresponds to one source file and keeps its state, its branches, its
error paths and its constants.

- `js.dfy` (`Js`): the few JavaScript semantics the pages rely on. These are
  `parseInt` with NaN, `+` on numbers that may be NaN, `Array.prototype.slice(0, end)`
  with a negative or NaN end, ASCII `toLowerCase`, `String.prototype.includes`, and the
  UTF-16 `length` of a string.
- `api.dfy` (`Api`): the shapes of the server's replies. It also has `Call`, which is
  either a resolved body or a thrown error with its message. A call's outcome is an
  input of the operation that awaits it.
- `course_view.dfy` (`CourseView`): `src/pages/CourseView.tsx`.
  - Grouping the generated chapters by `order` into sorted chapter groups, as a
    reference definition and as the loop that builds it.
  - The chapter/topic cursor: Next and Previous, the reset-on-chapter-change effect,
    the sidebar clicks and the disabled conditions of the two buttons.
- `learning.dfy` (`Learning`): `src/pages/Learning.tsx`.
  - The search and filter chain over the user's courses.
  - Fetching, deleting, and changing a course's status, with the filter effect that
    keeps `filteredCourses` in step.
- `explore.dfy` (`Explore`): `src/pages/Explore.tsx`.
  - The request parameters, and the five-page window of the pager.
  - The pager's controls, search submit, Clear Filters, and the refetch effect.
- `course_modal.dfy` (`CourseModal`): `src/components/CourseModal.tsx`. These are the
  create-course dialog's steps, its form, the simulated generation timer and the
  sample-chapter preview.
- `course_preview.dfy` (`CoursePreview`): `src/pages/CoursePreview.tsx`. These are the
  loading and not-found screens, the total-duration and topic-count figures, and the
  chapter numbering.
- `profile.dfy` (`Profile`): `src/pages/Profile.tsx`. These are the edit form, the
  password checks, the update payload, save and cancel.
- `auth.dfy` (`Auth`): `src/contexts/AuthContext.tsx`. These are the session's user and
  token, and their copy in local storage. The model covers start-up validation, login,
  signup, logout and `isAuthenticated`.

React state updates are modelled as assignments to the fields of a class, one class per
page or component. An effect that runs after a render is an explicit method. In
`CourseView` it is `ResetTopicOnChapterChange`, in `Learning` it is `FilterCourses`
(which the setters call), and in `Explore` it is the `fetchDue` flag that
`FetchCourses` clears.

## Model

| member | source | states |
|---|---|---|
| Js.Add | src/pages/CoursePreview.tsx:149 | the sum of two numbers is NaN exactly when one of them is NaN |
| Js.TrimStart | src/pages/CoursePreview.tsx:148 | `parseInt` skips leading white space: the result is a suffix of the input, everything skipped is white space, and the result does not start with white space |
| Js.LeadingDigits | src/pages/CoursePreview.tsx:148 | the digits `parseInt` reads are a prefix of the input, all digits, and followed by a non-digit or the end |
| Js.ParseUnsigned | src/pages/CoursePreview.tsx:148 | the digits after the sign never parse to a negative value; after `0x`/`0X` the result is NaN exactly when no hexadecimal digit follows the prefix, and otherwise exactly when the text does not start with a decimal digit |
| Js.ParseInt | src/pages/CoursePreview.tsx:148 | a negative result only comes from a minus sign after the white space, and text whose first non-space character is not a sign or a digit is NaN |
| Js.Negate | src/pages/CoursePreview.tsx:148 | a minus sign negates the value and keeps NaN |
| Js.ParseIntOfDecimalPrefix | src/pages/CoursePreview.tsx:148 | `parseInt` of a run of decimal digits followed by a non-digit is the value of those digits |
| Js.ParseIntOfHexPrefix | src/pages/CoursePreview.tsx:148 | `parseInt` of `0x` or `0X`, a run of hexadecimal digits and a non-digit is the value of those digits in base 16 |
| Js.ParseIntSkipsWhiteSpace | src/pages/CoursePreview.tsx:148 | leading white space does not change the result of `parseInt` |
| Js.TrimStartSkipsWhiteSpace | src/pages/CoursePreview.tsx:148 | trimming skips any run of leading white space completely |
| Js.LeadingDigitsOfPrefix | src/pages/CoursePreview.tsx:148 | in base 10 or 16, the digits read from digits-then-non-digit are exactly the leading digits |
| Js.ParseIntWithoutDigit | src/pages/CoursePreview.tsx:148 | `parseInt` of a string that does not start with a sign, a digit or white space is NaN |
| Js.SliceFromStart | src/components/CourseModal.tsx:237 | `slice(0, end)` is a prefix: empty for NaN, `min(end, length)` long for a non-negative end, and `length + end` (at least 0) for a negative end |
| Js.Lower | src/pages/Learning.tsx:76-77 | lower-casing keeps the length and maps each ASCII capital to its small letter and every other character to itself |
| Js.Includes | src/pages/Learning.tsx:76-77 | `includes` holds exactly when the needle occurs at some position of the text |
| Js.Utf16Length | src/pages/Profile.tsx:57 | a string's `length` counts UTF-16 code units: between its number of characters and twice that, and equal to it for characters of the Basic Multilingual Plane |
| Api.OrElse | src/pages/Learning.tsx:63 | `message \|\| fallback` is the message when there is one, and otherwise never empty when the fallback is not |
| CourseView.FirstSeenOrders | src/pages/CourseView.tsx:75-90 | the keys of the grouping object are exactly the chapter orders that occur, each once |
| CourseView.GroupsFor | src/pages/CourseView.tsx:92 | `Object.values` yields one group per key |
| CourseView.InsertByOrder | src/pages/CourseView.tsx:92 | inserting a group into a list sorted by order keeps every group (same multiset) |
| CourseView.InsertKeepsAscending | src/pages/CourseView.tsx:92 | inserting into an ascending list keeps it ascending by order |
| CourseView.InsertKeepsStrictlyAscending | src/pages/CourseView.tsx:92 | inserting a group with a new order into a strictly ascending list keeps it strictly ascending |
| CourseView.SortByOrder | src/pages/CourseView.tsx:92 | sorting by `a.order - b.order` gives a permutation of the groups in ascending order |
| CourseView.SortStrictlyAscending | src/pages/CourseView.tsx:92 | groups with distinct orders sort into strictly ascending order |
| CourseView.AccumulateStep | src/pages/CourseView.tsx:76-89 | one `reduce` step on an accumulator that matches the records so far gives the accumulator of one more record: keys in creation order and each group as the reference definition gives it |
| CourseView.AccumulatedValues | src/pages/CourseView.tsx:92 | the values of such an accumulator, read in key-creation order, are the reference list of groups (a permutation of the ascending-key order `Object.values` uses, which the sort that follows makes irrelevant) |
| CourseView.CollectGroups | src/pages/CourseView.tsx:75-90 | the `reduce` loop ends with the accumulator of all records |
| CourseView.GroupChapters | src/pages/CourseView.tsx:75-92 | the `reduce` plus the sort give exactly the reference grouping: strictly ascending orders, and as many topics as chapters |
| CourseView.GroupForStep | src/pages/CourseView.tsx:77-88 | one `reduce` step creates the group for a new order with the chapter's title, or appends a topic to the existing group, and leaves other groups alone |
| CourseView.OrdersMembership | src/pages/CourseView.tsx:76 | an order is a key exactly when some chapter has it |
| CourseView.FirstTitleIsEarliest | src/pages/CourseView.tsx:77-83 | a group's title is the title of the first chapter with that order |
| CourseView.TopicsWithConcat | src/pages/CourseView.tsx:84-88 | the topics for an order over two runs of chapters are the first run's followed by the second's |
| CourseView.TopicPosition | src/pages/CourseView.tsx:84-88 | every chapter becomes a topic of its group, at the position given by the earlier chapters of that order |
| CourseView.TopicsKeepSourceOrder | src/pages/CourseView.tsx:84-88 | two chapters of the same order keep their relative order as topics |
| CourseView.TopicsWithAbsent | src/pages/CourseView.tsx:84-88 | an order no chapter has collects no topics |
| CourseView.TopicsWithPresent | src/pages/CourseView.tsx:77-88 | every group has at least one topic |
| CourseView.TopicCountAppendKey | src/pages/CourseView.tsx:84-88 | counting topics over one more key adds that key's topics |
| CourseView.TopicCountAppendRecord | src/pages/CourseView.tsx:84-88 | one more chapter adds one topic when its order is counted |
| CourseView.TopicCountOfFirstSeen | src/pages/CourseView.tsx:75-90 | over all keys, the topics number exactly the chapters |
| CourseView.TotalTopicsOfGroupsFor | src/pages/CourseView.tsx:92 | the groups' topic total is the topic count of their keys |
| CourseView.TotalTopicsInsert | src/pages/CourseView.tsx:92 | insertion keeps every topic |
| CourseView.TotalTopicsSort | src/pages/CourseView.tsx:92 | sorting keeps every topic |
| CourseView.GroupedTopicCount | src/pages/CourseView.tsx:75-92 | no chapter is lost or duplicated: the topics of all groups number exactly the chapters |
| CourseView.GroupedStrictlyAscending | src/pages/CourseView.tsx:92 | the groups appear in strictly ascending order, one group per order |
| CourseView.GroupedContents | src/pages/CourseView.tsx:75-92 | every group is the group of an order that occurs, every order that occurs has a group, and no group is empty |
| CourseView.Settle | src/pages/CourseView.tsx:44-46 | after a render, a change of chapter resets the topic to 0, and otherwise the requested position stands |
| CourseView.Next | src/pages/CourseView.tsx:105-112 | Next moves to the next topic, or to the first topic of the next chapter; it stays in bounds and does nothing exactly when the button is disabled (line 294) |
| CourseView.NextRequest | src/pages/CourseView.tsx:105-112 | the Next handler throws exactly when there is no current chapter; otherwise it asks for the next topic of the same chapter, topic 0 of the next chapter, or the same position |
| CourseView.PreviousRequest | src/pages/CourseView.tsx:114-121 | the Previous handler throws exactly when it must leave topic 0 for a chapter that does not exist; a change of chapter asks for the last topic of the chapter before |
| CourseView.PreviousQueued | src/pages/CourseView.tsx:114-121 | the updates the Previous handler has queued: what it asks for, or on a throw the chapter change of line 118 alone |
| CourseView.Previous | src/pages/CourseView.tsx:114-121 | Previous moves to the previous topic, and from a chapter's first topic to topic 0 of the chapter before, also when line 119 throws; it stays in bounds and does nothing exactly when the button is disabled (line 287) |
| CourseView.SelectChapter | src/pages/CourseView.tsx:181 | a chapter click selects that chapter, with topic 0 unless it was already selected |
| CourseView.Step | src/pages/CourseView.tsx:105-294 | one click keeps an in-bounds cursor in bounds, and a disabled Next or Previous button only blocks a click that would change nothing |
| CourseView.RunStaysInBounds | src/pages/CourseView.tsx:105-121 | any sequence of clicks from a valid position keeps the cursor on an existing topic |
| CourseView.CursorAlwaysInBounds | src/pages/CourseView.tsx:93-94 | from the initial position over the grouped chapters, the current chapter and topic always exist |
| CourseView.NextThenPreviousWithinChapter | src/pages/CourseView.tsx:105-121 | inside a chapter, Previous undoes Next |
| CourseView.PreviousAcrossChapterLandsOnFirstTopic | src/pages/CourseView.tsx:117-119 | crossing back a chapter requests its last topic, but the render effect lands on its first |
| CourseView.PreviousAsWrittenDoesNotUndoNext | src/pages/CourseView.tsx:114-121 | see Findings: Next into a new chapter followed by Previous does not return where it started when that chapter has several topics |
| CourseView.PreviousIntended | src/pages/CourseView.tsx:114-121 | the corrected Previous: it stays in bounds and does nothing exactly when the button is disabled |
| CourseView.PreviousIntendedUndoesNext | src/pages/CourseView.tsx:105-121 | the corrected Previous undoes every enabled Next |
| CourseView.NextUndoesPreviousIntended | src/pages/CourseView.tsx:105-121 | Next undoes every enabled corrected Previous |
| CourseView.CourseViewer.constructor | src/pages/CourseView.tsx:72-92 | the page starts at chapter 0, topic 0 over the grouped chapters |
| CourseView.CourseViewer.ResetTopicOnChapterChange | src/pages/CourseView.tsx:44-46 | the effect sets the topic to 0 when the chapter changed since the last render |
| CourseView.CourseViewer.HandleNextTopic | src/pages/CourseView.tsx:105-112 | the handler sets exactly the requested position, and fails only when there is no current chapter |
| CourseView.CourseViewer.HandlePreviousTopic | src/pages/CourseView.tsx:114-121 | the handler sets exactly the requested position, and fails only when the previous chapter does not exist, in which case the chapter has already moved back and the topic is kept |
| CourseView.CourseViewer.NextTopic | src/pages/CourseView.tsx:105-112 | a click on Next followed by the render effect moves the cursor as `Next` says |
| CourseView.CourseViewer.PreviousTopic | src/pages/CourseView.tsx:114-121 | a click on Previous followed by the render effect moves the cursor as `Previous` says, on the throwing path too |
| CourseView.CourseViewer.ClickChapter | src/pages/CourseView.tsx:181 | a sidebar chapter click followed by the render effect selects the chapter as `SelectChapter` says |
| CourseView.CourseViewer.ClickTopic | src/pages/CourseView.tsx:200 | a sidebar topic click selects that topic of the current chapter |
| Learning.Holds | src/pages/Learning.tsx:75-90 | one criterion's test; an empty search term matches every course, and so does a term equal to the name up to case |
| Learning.ActiveCriteria | src/pages/Learning.tsx:74-91 | a criterion applies exactly when its control is set (a non-empty search, or a filter other than "all"), and no other criterion applies |
| Learning.VisibleMembers | src/pages/Learning.tsx:71-94 | a course is shown exactly when it is in the list, its name or description contains the search term ignoring case (or the term is empty), and it has the selected status, category and difficulty (or that filter is "all") |
| Learning.ActiveCriteriaHold | src/pages/Learning.tsx:74-91 | a course meets the active criteria exactly when it passes every control that is set |
| Learning.Keep | src/pages/Learning.tsx:75-90 | one `filter` call never lengthens the list |
| Learning.KeepMatching | src/pages/Learning.tsx:71-94 | the reference filter never lengthens the list |
| Learning.KeepMatchingMembers | src/pages/Learning.tsx:71-94 | a course is shown exactly when it is in the list and meets every active criterion |
| Learning.KeepMatchingIsSubsequence | src/pages/Learning.tsx:71-94 | the shown courses keep the list's order |
| Learning.KeepMatchingNothing | src/pages/Learning.tsx:72 | with no criterion every course is shown |
| Learning.AllHoldCons | src/pages/Learning.tsx:71-94 | meeting criteria k then ks is meeting k and meeting ks |
| Learning.AllHoldSnoc | src/pages/Learning.tsx:71-94 | meeting criteria ks then k is meeting ks and meeting k |
| Learning.KeepThenKeepMatching | src/pages/Learning.tsx:71-94 | filtering by k and then by ks is filtering by k then ks |
| Learning.KeepAfterKeepMatching | src/pages/Learning.tsx:71-94 | filtering by ks and then by k is filtering by ks then k |
| Learning.ApplyAllIsKeepMatching | src/pages/Learning.tsx:71-94 | the chain of `filter` calls equals the single reference filter |
| Learning.KeepMatchingSameCriteria | src/pages/Learning.tsx:71-94 | the result depends only on the set of criteria |
| Learning.FilterOrderIrrelevant | src/pages/Learning.tsx:71-94 | applying the same criteria in any order shows the same courses |
| Learning.NoFilterShowsEverything | src/pages/Learning.tsx:27-30 | with the initial controls every course is shown |
| Learning.KeepMatchingIdempotent | src/pages/Learning.tsx:71-94 | filtering an already filtered list changes nothing |
| Learning.RemoveId | src/pages/Learning.tsx:101 | removing an id never lengthens the list |
| Learning.RemoveIdMembers | src/pages/Learning.tsx:101 | after a delete, a course remains exactly when it was there and has another id |
| Learning.RemoveIdCommutesWithFilter | src/pages/Learning.tsx:101 | deleting and then filtering shows the same as removing the course from the filtered list |
| Learning.WithStatus | src/pages/Learning.tsx:120-122 | the status change keeps the list's length and replaces the status of exactly the courses with that id |
| Learning.WithStatusEffect | src/pages/Learning.tsx:120-122 | a changed course keeps its id and now meets the new status filter, and every criterion other than status is unaffected |
| Learning.NarrowBy | src/pages/Learning.tsx:74-91 | each `if` of `filterCourses` extends the applied criteria by its own one when its control is set |
| Learning.LearningPage.constructor | src/pages/Learning.tsx:24-30 | the page starts with no courses, loading, no search, and every filter on "all" |
| Learning.LearningPage.FilterCourses | src/pages/Learning.tsx:71-94 | after the effect, the filtered courses are exactly the visible ones for the current controls |
| Learning.LearningPage.FetchCourses | src/pages/Learning.tsx:51-69 | without a token nothing changes; otherwise a successful reply replaces the courses, a throw reports its message or the fallback, loading ends, and the shown list is re-filtered |
| Learning.LearningPage.DeleteCourse | src/pages/Learning.tsx:96-113 | without a token, or on a throw, nothing changes; any resolved reply removes the course from the list, and the shown list becomes the previously visible one without that course |
| Learning.LearningPage.ChangeStatus | src/pages/Learning.tsx:115-134 | without a token, or on a throw, nothing changes; any resolved reply sets the status of that course and re-filters |
| Learning.LearningPage.SetSearchTerm | src/pages/Learning.tsx:27 | typing a search updates it and re-filters |
| Learning.LearningPage.SetStatusFilter | src/pages/Learning.tsx:28 | choosing a status updates it and re-filters |
| Learning.LearningPage.SetCategoryFilter | src/pages/Learning.tsx:29 | choosing a category updates it and re-filters |
| Learning.LearningPage.SetDifficultyFilter | src/pages/Learning.tsx:30 | choosing a difficulty updates it and re-filters |
| Explore.PageWindow | src/pages/Explore.tsx:291-301 | the pager shows `min(5, totalPages)` numbers, consecutive from the window start |
| Explore.PageWindowContainsCurrent | src/pages/Explore.tsx:291-301 | from a real page the window holds only real pages, contains the current one, and centres it when two pages fit each side |
| Explore.BuildParams | src/pages/Explore.tsx:55-63 | the request carries the page and a limit of 12, and a filter property exactly when the filter is on; the filter state can be read back from it |
| Explore.RequestIsInjective | src/pages/Explore.tsx:55-63 | two different page states never send the same request |
| Explore.AfterPagerClick | src/pages/Explore.tsx:285-322 | Previous moves back one page unless on the first, Next forward one unless on the last, and a number goes to a page of the shown window |
| Explore.PagerKeepsPageInRange | src/pages/Explore.tsx:285-322 | from a real page, every pager click lands on a real page |
| Explore.ExplorePage.constructor | src/pages/Explore.tsx:48-50 | the page starts on page 1 with no filter and its first fetch due |
| Explore.ExplorePage.FetchCourses | src/pages/Explore.tsx:52-80 | the request built from the current state is sent; only a successful reply replaces the list and the totals; a throw reports its message or the fallback |
| Explore.ExplorePage.SetCurrentPage | src/pages/Explore.tsx:48-50 | a new page is set, and a fetch becomes due only if it changed |
| Explore.ExplorePage.SetFilters | src/pages/Explore.tsx:48-50 | a new filter state is set, and a fetch becomes due only if it changed |
| Explore.ExplorePage.HandleSearch | src/pages/Explore.tsx:82-85 | submitting the search goes to page 1, and fetches only if the page changed |
| Explore.ExplorePage.HandlePageChange | src/pages/Explore.tsx:87-90 | a page change sets the page |
| Explore.ExplorePage.ClickPager | src/pages/Explore.tsx:285-322 | a pager click moves as the control says, disabled ones do nothing, and the page stays in range |
| Explore.ExplorePage.ClearFilters | src/pages/Explore.tsx:200-206 | every filter goes off and the page goes to 1, so the next request holds only page and limit |
| CourseModal.Get | src/components/CourseModal.tsx:19-27 | each field holds a value of its own kind |
| CourseModal.WithInput | src/components/CourseModal.tsx:37-39 | an input sets its field and leaves the others as they were |
| CourseModal.PreviewCards | src/components/CourseModal.tsx:237 | the preview shows the first `chapters` samples (none for NaN, counted from the end for a negative count), numbered from 1, with the video hint when videos are on |
| CourseModal.PreviewCardCount | src/components/CourseModal.tsx:237 | for a count from 1 to 20 the preview shows that many samples, at most three |
| CourseModal.CourseDialog.constructor | src/components/CourseModal.tsx:19-27 | the dialog starts at the input step with the default form: 5 chapters and videos on |
| CourseModal.CourseDialog.InputChange | src/components/CourseModal.tsx:37-39 | an input updates the form as `WithInput` says |
| CourseModal.CourseDialog.GeneratePreview | src/components/CourseModal.tsx:41-57 | an incomplete form is reported and nothing changes; otherwise the dialog starts generating and one timer is pending |
| CourseModal.CourseDialog.TimerFired | src/components/CourseModal.tsx:54-56 | the timer shows the preview |
| CourseModal.CourseDialog.BackToEdit | src/components/CourseModal.tsx:269 | Back to Edit returns to the input step and keeps the form |
| CourseModal.CourseDialog.CreateCourse | src/components/CourseModal.tsx:59-66 | creating closes the dialog and returns to the input step |
| CourseModal.CourseDialog.Close | src/components/CourseModal.tsx:92 | closing changes only the open flag |
| CourseModal.CourseDialog.Open | src/components/CourseModal.tsx:92 | reopening finds the dialog as it was left |
| CourseModal.CreateOnce | src/components/CourseModal.tsx:37-66 | one pass through a complete form ends closed, at the input step, with the form still filled in |
| CoursePreview.ScreenFor | src/pages/CoursePreview.tsx:58-85 | the page shows the spinner while loading, the layout exactly when the reply has `data.aiGeneratedLayout`, and the 404 otherwise |
| CoursePreview.AfterFetch | src/pages/CoursePreview.tsx:40-66 | without a route id the page keeps loading; a failed request gives the 404 |
| CoursePreview.FirstToken | src/pages/CoursePreview.tsx:148 | `split(' ')[0]` is the prefix up to the first space |
| CoursePreview.ChapterHours | src/pages/CoursePreview.tsx:148 | a chapter counts a number only when its duration has a non-empty first word; an empty duration or one starting with a space counts NaN |
| CoursePreview.HoursList | src/pages/CoursePreview.tsx:147-150 | one hours figure per chapter |
| CoursePreview.SumLeft | src/pages/CoursePreview.tsx:147-150 | the running total is NaN exactly when some figure is NaN |
| CoursePreview.SumIntsSnoc | src/pages/CoursePreview.tsx:147-150 | adding one more figure adds its value |
| CoursePreview.SumLeftIsSum | src/pages/CoursePreview.tsx:147-150 | without NaN the running total is the plain sum |
| CoursePreview.TotalDuration | src/pages/CoursePreview.tsx:147-150 | the sum starts from 0, and is NaN exactly when some chapter's hours are NaN |
| CoursePreview.TotalDurationMeaning | src/pages/CoursePreview.tsx:147-150 | the total duration is NaN exactly when some chapter's duration does not start with a number, and otherwise the sum of the hours |
| CoursePreview.HoursOfNumberedDuration | src/pages/CoursePreview.tsx:148 | a duration "n unit" counts n hours |
| CoursePreview.HoursOfFirstWord | src/pages/CoursePreview.tsx:148 | the hours are `parseInt` of the first word |
| CoursePreview.FirstTokenOfWord | src/pages/CoursePreview.tsx:148 | the first word of a word followed by a space is that word |
| CoursePreview.FractionalHoursAreTruncated | src/pages/CoursePreview.tsx:148 | a duration "1.5 hours" counts only its whole hours |
| CoursePreview.LeadingSpaceMakesTotalNaN | src/pages/CoursePreview.tsx:147-150 | a duration with a leading space makes the total NaN |
| CoursePreview.AllTopicsSnoc | src/pages/CoursePreview.tsx:162 | one more chapter appends its topics |
| CoursePreview.TotalTopics | src/pages/CoursePreview.tsx:162 | the Topics figure is 0 without chapters and at least the topic count of every chapter |
| CoursePreview.TotalTopicsCountsCards | src/pages/CoursePreview.tsx:162 | the Topics figure equals the number of topic cards listed |
| CoursePreview.ChapterHeadings | src/pages/CoursePreview.tsx:186-192 | the chapters are numbered 1, 2, … in list order with their own names |
| Profile.WithField | src/pages/Profile.tsx:27-32 | an input sets its field and leaves the others as they were |
| Profile.FormFor | src/pages/Profile.tsx:19-25 | the form is filled from the user, or empty without one, and the password fields are empty |
| Profile.PasswordProblem | src/pages/Profile.tsx:48-65 | no new password means no check; otherwise a mismatch is reported first, then a length under 6 UTF-16 units, and a matching password of at least 6 units passes |
| Profile.BuildPayload | src/pages/Profile.tsx:68-75 | the update sends name and email, and the new password exactly when one was typed |
| Profile.PayloadIgnoresCurrentPassword | src/pages/Profile.tsx:68-75 | the current password is never sent |
| Profile.SentPasswordIsChecked | src/pages/Profile.tsx:48-75 | a password that is sent matches its confirmation and is at least 6 units long |
| Profile.CheckedPasswordIsSent | src/pages/Profile.tsx:48-75 | conversely, a typed password that matches its confirmation and is at least 6 units long passes and is sent |
| Profile.ProfilePage.constructor | src/pages/Profile.tsx:16-25 | the page starts not editing, not loading, with the form filled from the user |
| Profile.ProfilePage.StartEditing | src/pages/Profile.tsx:126-128 | the Edit Profile button turns editing on |
| Profile.ProfilePage.InputChange | src/pages/Profile.tsx:27-32 | an input updates the form as `WithField` says |
| Profile.ProfilePage.Save | src/pages/Profile.tsx:34-104 | without a token nothing changes; a password problem is reported and nothing is sent; otherwise the payload is sent, and any resolved reply ends editing, clears the password fields and reloads, while a throw keeps the form |
| Profile.ProfilePage.Cancel | src/pages/Profile.tsx:106-115 | cancel ends editing and refills the form from the user |
| Auth.StoredToken | src/contexts/AuthContext.tsx:42 | the stored token is present exactly when local storage has the key |
| Auth.AuthError | src/contexts/AuthContext.tsx:65-95 | login and signup fail exactly when the reply is not a success: a throw is rethrown as it is, and a failed reply rejects with its message or the fallback |
| Auth.AuthSession.IsAuthenticated | src/contexts/AuthContext.tsx:110 | authenticated implies both a user and a token |
| Auth.AuthSession.constructor | src/contexts/AuthContext.tsx:36-38 | the session starts with no user, the stored token, and loading |
| Auth.AuthSession.InitializeAuth | src/contexts/AuthContext.tsx:41-60 | a stored token is kept only when the profile request succeeds, which also sets the user; otherwise the token is dropped from state and storage; loading always ends, and state and storage stay in step |
| Auth.AuthSession.SignIn | src/contexts/AuthContext.tsx:69-72 | a successful reply sets the user without its token, and sets and stores the token |
| Auth.AuthSession.Login | src/contexts/AuthContext.tsx:65-79 | on success the user and token are set and stored; on failure nothing changes and the error is `AuthError` with "Login failed" |
| Auth.AuthSession.Signup | src/contexts/AuthContext.tsx:81-95 | the same as Login with "Signup failed" |
| Auth.AuthSession.Logout | src/contexts/AuthContext.tsx:97-101 | no user, no token, and only the token key removed from storage |
| Auth.LoginThenLogout | src/contexts/AuthContext.tsx:65-110 | a successful login with a non-empty token authenticates, a logout ends it, and a second logout changes nothing |

## Left out

- api.ts is not part of this model. Each request's outcome (a resolved body or a thrown
  message) is an input of the operation that awaits it. HTTP, headers and URLs are not
  modelled.
- Asynchrony is not modelled: each handler runs to completion with its reply in hand.
  Interleavings are not modelled either: replies arriving out of order, and handlers that
  see stale state.
- Toasts, `navigate`, `console`, `window.location.reload` and `window.scrollTo` are left
  out. The reload is kept as the flag `reloadRequested` in `Profile.ProfilePage`. Toast
  messages are kept only as the `error`/`outcome` results.
- JSX layout, CSS classes and the colour helpers are left out.
- Learning's `Valid` filter effect runs after every change to its inputs. The list
  React renders in between is not modelled.
- CourseModal's three-second delay is a "timer fired" event. Nothing cancels the timer,
  so it can fire after the dialog was closed.
- CourseModal sends nothing to a server. The dialog's "create" only closes the dialog and
  does not clear the form.
- CourseModal does not validate the chapter count. `chapters` comes from `parseInt` of
  the number box, so it can be NaN or negative. The preview then follows `slice`'s rules
  for that value.
- The modal's preview text (descriptions, objectives, video keywords) is left out; only
  the titles and numbering are kept.
- Learning.LearningPage.ChangeStatus: `handleStatusChange` is never wired to a control
  in the page's markup. It is modelled as the code defines it.
- Learning.LearningPage.DeleteCourse: any resolved reply counts as a success, even one
  whose `success` is false. The same holds for status changes and for
  the profile update.
- Explore's filter changes do not reset the page to 1. Only the search
  submit and Clear Filters do.
- Explore's pager shows page numbers for any `totalPages`. `PageWindowContainsCurrent`
  assumes the current page lies between 1 and the total.
- Js.Lower: only ASCII letters are lower-cased. JavaScript's full Unicode case mapping is
  not modelled.
- CourseView.AccumulatedValues: the accumulator is read in key-creation order, while
  `Object.values` lists integer keys in ascending numeric order. The list is sorted by
  order right after, and the orders are distinct keys, so the sorted result is the same.
- Js.ParseInt: numbers are unbounded integers. Precision loss beyond 2^53 is not
  modelled.
- CoursePreview's "Chapters" figure shows `noOfChapters` as the server sent it. It is not
  related to the length of the chapter list.
- CoursePreview.AfterFetch: the "Try Again" and "Return to Home" buttons (a reload and a
  navigation) are left out.
- The video URL parsing and the relative-date formatting used for display are left out,
  as they are only display helpers.
- Profile.ProfilePage.Save: a thrown value is taken to be an `Error`, so its message is
  reported as it is. The fallback for non-`Error` values is not modelled.
- Profile's show/hide password toggle is left out, as it is display only.
- Auth.AuthSession.InitializeAuth: the user object stored from the profile reply also
  holds the token field. The model keeps only the user part.
- The remaining pages (billing, landing page, dashboard and its layout) and the button
  component are not part of this model.

## Findings

| source | as written | input that shows it | evidently intended | confidence | as-written member | corrected member |
|---|---|---|---|---|---|---|
| src/pages/CourseView.tsx:117-119 | Previous from the first topic of a chapter requests the last topic of the previous chapter, but the effect at lines 44-46 resets the topic to 0 after the chapter changes, so it lands on topic 0 | two chapters with two topics each, cursor (0, 1): Next goes to (1, 0), then Previous goes to (0, 0) instead of (0, 1) | Previous lands on the last topic of the previous chapter, so that it undoes Next | not executed | CourseView.PreviousAsWrittenDoesNotUndoNext | CourseView.PreviousIntended |
