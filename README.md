# Campus portal: page logic in Dafny

This project models the logic inside the pages of a small React student portal. The portal works over hard-coded mock data. The model covers:

- **Assignment page**: the submission gate (`canSubmit`), the in-memory record store and its single write path, and the upload dialog. The simulated upload advances by 7 percent per timer tick, and when it reaches 100 it appends a submission and moves the record to grading.
- **Modules and Courses tables**: the two-field sort state machine (`toggleSort`), the column comparators with their direction flip, `aria-sort`, the grouping of modules by term, and the default-open terms.
- **Notification menu**: the unread count, "mark all as read", and marking one item read by selecting it.
- **Classmates page**: the case-insensitive name filter, plus the presence caption, the last-message line and the avatar initials.
- **Login form**: the blank check, the email pattern `^[^@\s]+@[^@\s]+\.[^@\s]+$`, and the role-to-route choice.

Layout. There is one module per page. Four shared modules support them:

- `Wrappers`: `Option`.
- `Text`: the ECMAScript white-space set used by both `trim` and the regular-expression class `\s`, ASCII case mapping, trimming, and substring search.
- `Sorting`: the comparator contract and the sort that stands in for `Array.prototype.sort`.
- `TableSort`: the sort state machine shared by the two tables.

Stateful pieces are classes whose methods stand in for the event handlers: `AssignmentPage`, `ModulesPage`, `CoursesPage`, `Menu` and `LoginForm`. Their fields are the component state. An explicit `Tick` method stands in for the interval callback. `Intl.Collator` is a parameter `collate` that is assumed to be a comparator: its sign is antisymmetric and `<= 0` is transitive.

Where the code and its design description differ, the model follows the code:

- **No quota check at append.** The store's append has no quota check and no error path; it appends unconditionally. The quota is kept by the gate instead: the dialog opens only when `canSubmit` holds (the trigger is disabled otherwise). `AssignmentPage.Valid` carries `WithinQuota` as an invariant that every handler keeps.
- **Cancel does not clear the file.** The footer Cancel only closes the dialog, and it is disabled while uploading, so it does not clear the staged file. Closing the dialog through `onOpenChange(false)` does clear it, and also stops a running timer.

## Model

| member | source | states |
|---|---|---|
| JsObject.Get | src/Pages/Assignment.tsx:223 | `obj[key]` yields the own value exactly when the key is stored; otherwise it yields an inherited `Object.prototype` member exactly when the key names one, and `undefined` for every other key |
| Assignment.Lookup | src/Pages/Assignment.tsx:222-249 | the page shows the record exactly when its id is a key of the store; an id naming an inherited `Object.prototype` member passes the `!item` test and fails at `item.submissions.length`; every other id shows "Assignment not found." |
| Assignment.SeedLookupEdges | src/Pages/Assignment.tsx:223-249 | on the seed store the empty id (a missing route parameter) is not found, while "constructor" and "toString" fail to render |
| Assignment.HasSubmission | src/Pages/Assignment.tsx:248 | `hasSubmission` holds exactly when the record has at least one submission |
| Assignment.CanSubmit | src/Pages/Assignment.tsx:249 | `canSubmit` implies the record is open and has a quota of at least one, so a record in grading or closed, or with quota 0, never accepts a submission |
| Assignment.AppendSubmission | src/Pages/Assignment.tsx:297-313 | the record gets the new submission appended after its earlier ones, in order, and its status becomes grading; its other fields and every other record are unchanged; the key set is unchanged |
| Assignment.AppendKeepsQuota | src/Pages/Assignment.tsx:249-313 | an append made while `canSubmit` held keeps every record within quota, and afterwards that record has a submission and `canSubmit` is false |
| Assignment.SeedWellFormed | src/Pages/Assignment.tsx:40-174 | every seed record is stored under its own id, starts with no submissions and is open with quota left |
| Assignment.StatusPanel | src/Pages/Assignment.tsx:595-611 | "no submissions yet" exactly when there is none; the final grade exactly when there is a submission and a grade; otherwise waiting for a grade |
| Assignment.NextPct | src/Pages/Assignment.tsx:290 | one tick never exceeds 100 and never lowers the progress; it reaches 100 exactly from 93 or more, and otherwise adds 7 |
| Assignment.PctAfter | src/Pages/Assignment.tsx:288-290 | the progress after any number of ticks from 0 is a percentage between 0 and 100 |
| Assignment.TickStep | src/Pages/Assignment.tsx:288-295 | during an upload of at most 14 earlier ticks, the next tick reaches 100 exactly on the 15th tick, and before that it is exactly the next step of the sequence and strictly higher |
| Assignment.PctAfterClosedForm | src/Pages/Assignment.tsx:284-290 | after `n` ticks from 0 the progress is `min(7n, 100)` |
| Assignment.PctAfterMonotone | src/Pages/Assignment.tsx:290 | progress stays within 0..100 and never decreases from tick to tick |
| Assignment.FullFirstAtFifteen | src/Pages/Assignment.tsx:288-295 | progress is 100 exactly from the 15th tick on; after 14 ticks it is 98 |
| Assignment.AssignmentPage.constructor | src/Pages/Assignment.tsx:222-232 | the page starts from the seed store, closed, with nothing staged, no upload, progress 0 and input key 0 |
| Assignment.AssignmentPage.PickFile | src/Pages/Assignment.tsx:252-255 | the picked file, if any, becomes the staged file; no file leaves the selection as it was |
| Assignment.AssignmentPage.Drop | src/Pages/Assignment.tsx:257-263 | a drop switches the highlight off; the dropped file is staged unless an upload is running |
| Assignment.AssignmentPage.DragOver | src/Pages/Assignment.tsx:455-458 | the highlight is switched on only when idle and nothing is staged |
| Assignment.AssignmentPage.DragLeave | src/Pages/Assignment.tsx:459 | the highlight goes off |
| Assignment.AssignmentPage.ClearSelectedFile | src/Pages/Assignment.tsx:266-279 | nothing is staged, progress is 0, no upload and no timer, the input key is one higher, and the store and dialog are untouched |
| Assignment.AssignmentPage.StartUpload | src/Pages/Assignment.tsx:281-286 | with nothing staged nothing changes; otherwise the staged file is captured, progress restarts at 0 and the timer runs |
| Assignment.AssignmentPage.FinishUpload | src/Pages/Assignment.tsx:291-318 | the completing tick appends the submission to the viewed record, after which `canSubmit` is false; the timer stops, the dialog closes, the selection clears and the progress is 0; the page invariant is kept |
| Assignment.AssignmentPage.Tick | src/Pages/Assignment.tsx:288-322 | below 100 the tick adds 7 and changes nothing else; the tick that reaches 100 (the 15th) stops the timer, appends the captured file's name and size as a submission, closes the dialog, clears the selection and resets the progress, after which `canSubmit` is false; the page invariant, including the quota, is kept |
| Assignment.AssignmentPage.OnOpenChange | src/Pages/Assignment.tsx:432-442 | the dialog opens only while `canSubmit` holds; opening it leaves the selection, the progress and the upload untouched; closing it always clears the selection, stops any upload and bumps the input key |
| Assignment.AssignmentPage.Cancel | src/Pages/Assignment.tsx:533-542 | Cancel, available only when no upload runs, only closes the dialog |
| TableSort.Toggle | src/Pages/Modules.tsx:128-135 | after a toggle the key is the clicked one with a direction set; a new key gives desc; the same key flips desc to asc and asc to desc |
| TableSort.ToggleConsistent | src/Pages/Courses.tsx:37-44 | a toggle never leaves only one of key and direction set |
| TableSort.ToggleTwiceRestores | src/Pages/Courses.tsx:37-44 | toggling the active column twice returns to the same state |
| TableSort.ToggleAlternates | src/Pages/Modules.tsx:128-135 | repeated clicks on one column alternate the direction |
| TableSort.Initial | src/Pages/Courses.tsx:34-35 | the initial state has no key and no direction |
| TableSort.AriaSortFor | src/Pages/Courses.tsx:94-97 | "none" unless the column is the active key with a direction; "ascending" exactly for asc and "descending" exactly for desc |
| TableSort.AtMostOneHeaderSorted | src/Pages/Modules.tsx:190-193 | at most one column reports a sort |
| TableSort.Directed | src/Pages/Courses.tsx:65 | the desc comparator is exactly the negated asc comparator |
| TableSort.DirectedIsComparator | src/Pages/Modules.tsx:155 | flipping the direction keeps a comparator a comparator |
| TableSort.StatusRank | src/Pages/Modules.tsx:141 | Ongoing ranks 1 and Completed ranks 2 |
| Sorting.Negated | src/Pages/Courses.tsx:65 | the negated comparator is the pointwise negation |
| Sorting.ByInt | src/Pages/Courses.tsx:57-60 | numeric comparison is the difference of the keys |
| Sorting.Through | src/Pages/Courses.tsx:61-63 | text comparison is the collation of the projected values |
| Sorting.NegatedIsComparator | src/Pages/Courses.tsx:65 | negating a comparator gives a comparator |
| Sorting.ByIntIsComparator | src/Pages/Courses.tsx:57-60 | key differences form a comparator |
| Sorting.ThroughIsComparator | src/Pages/Courses.tsx:61-63 | collation through a projection is a comparator when the collation is one |
| Sorting.Insert | src/Pages/Courses.tsx:52 | insertion adds exactly the one element |
| Sorting.SortBy | src/Pages/Courses.tsx:52 | the sort returns a permutation of its input |
| Sorting.InsertKeepsLowerBound | src/Pages/Courses.tsx:52 | an element below every element and below the inserted one stays below the result |
| Sorting.PrependSorted | src/Pages/Courses.tsx:52 | a sorted list stays sorted when an element below all its elements is put in front |
| Sorting.TailSorted | src/Pages/Courses.tsx:52 | the tail of a sorted list is sorted and lies above its head |
| Sorting.InsertSorted | src/Pages/Courses.tsx:52 | inserting into a sorted list keeps it sorted |
| Sorting.SortBySorted | src/Pages/Courses.tsx:52 | the result of the sort is ordered by the comparator |
| Modules.ModulesFor | src/Pages/Modules.tsx:122 | a known course code lists its modules; a code naming an inherited `Object.prototype` member is not nullish, so `??` keeps it and the page fails to render; every other code lists no modules |
| Modules.ValueOfProgressScore | src/Pages/Modules.tsx:143-144 | a completed module sorts by its score, 0 when it has none, and an ongoing one by its progress |
| Modules.ModuleCmp | src/Pages/Modules.tsx:147-154 | the title column compares by collation of the titles, the status column by the difference of the ranks, and the progress/score column by the difference of the values |
| Modules.SortedModules | src/Pages/Modules.tsx:137-159 | the result is a permutation of the modules, and is the original order when no key or no direction is set |
| Modules.ModuleCmpIsComparator | src/Pages/Modules.tsx:140-154 | each column comparator (title by collation, status by rank, progress/score numerically) is a comparator |
| Modules.SortedModulesOrdered | src/Pages/Modules.tsx:141-156 | with a key and direction, the rows are in ascending key order for asc and descending for desc; the progress/score key is the score for completed rows (missing counts 0) and the progress otherwise |
| Modules.TermInAllTerms | src/Pages/Modules.tsx:161 | every term has a group |
| Modules.GroupByTerm | src/Pages/Modules.tsx:162-171 | there is one group per term, and each group is exactly the sorted rows of that term, in sorted order |
| Modules.OfTerm | src/Pages/Modules.tsx:169 | a term's group holds exactly the rows of that term and is no longer than the rows |
| Modules.OfTermAppend | src/Pages/Modules.tsx:169 | grouping distributes over concatenation, so the order within a group is the sorted order |
| Modules.OfTermCounts | src/Pages/Modules.tsx:169 | each module lands in the group of its own term, with its multiplicity, and in no other |
| Modules.GroupSizesSum | src/Pages/Modules.tsx:162-171 | the group sizes add up to the number of rows |
| Modules.TermIndex | src/Pages/Modules.tsx:161 | every term has its position in the fixed term order |
| Modules.NonEmptyTerms | src/Pages/Modules.tsx:195 | filtering the term list never makes it longer |
| Modules.NonEmptyTermsMembers | src/Pages/Modules.tsx:195 | a term survives the filter exactly when it has a non-empty group |
| Modules.HeadBeforeTail | src/Pages/Modules.tsx:161 | in an ordered term list the head precedes every later term |
| Modules.PrependInTermOrder | src/Pages/Modules.tsx:161 | a term before all others can be put in front of an ordered list |
| Modules.NonEmptyTermsOrdered | src/Pages/Modules.tsx:161-195 | the filter keeps the Prelim, Midterms, Prefinals, Finals order |
| Modules.DefaultOpen | src/Pages/Modules.tsx:195 | the default-open terms are exactly those with non-empty groups, in term order |
| Modules.ModulesPage.constructor | src/Pages/Modules.tsx:116-126 | the page holds the modules listed for its course code and starts in the initial sort state, with no key and no direction |
| Modules.ModulesPage.ToggleSort | src/Pages/Modules.tsx:128-135 | the new sort state is the toggle of the old one |
| Modules.ModulesPage.Sorted | src/Pages/Modules.tsx:137-159 | the displayed rows are a permutation of the course's modules |
| Modules.ModulesPage.AriaSort | src/Pages/Modules.tsx:190-193 | a header reports a sort exactly when it is the active key with a direction |
| Modules.ModulesPage.Grouped | src/Pages/Modules.tsx:161-195 | the groups are the per-term rows of the sorted list, and the open terms are those with rows |
| Courses.SortedCourses | src/Pages/Courses.tsx:46-69 | the result is a permutation of the courses, and is the original order when no key or no direction is set |
| Courses.CourseCmp | src/Pages/Courses.tsx:53-63 | the units column compares by the difference of the units, the status column by the difference of the ranks, and every other column by collation of the column's text |
| Courses.CourseCmpIsComparator | src/Pages/Courses.tsx:56-63 | each column comparator (units numerically, status by rank, the rest by collation of the text) is a comparator |
| Courses.SortedCoursesOrdered | src/Pages/Courses.tsx:52-66 | with a key and direction, the rows are in ascending key order for asc and descending for desc |
| Courses.NoCoursesRowIff | src/Pages/Courses.tsx:207 | "No courses found." shows exactly when there are no courses, whatever the sort |
| Courses.CoursesPage.constructor | src/Pages/Courses.tsx:27-35 | the page holds the mock course list and starts in the initial sort state, with no key and no direction |
| Courses.CoursesPage.ToggleSort | src/Pages/Courses.tsx:37-44 | the new sort state is the toggle of the old one |
| Courses.CoursesPage.Sorted | src/Pages/Courses.tsx:46-69 | the displayed rows are a permutation of the course list |
| Courses.CoursesPage.AriaSort | src/Pages/Courses.tsx:94-97 | a header reports a sort exactly when it is the active key with a direction |
| NotificationMenu.UnreadCount | src/components/ui/common/NotificationMenu.tsx:49 | the count of entries whose unread flag is true is at most the list length; a missing flag counts as read |
| NotificationMenu.MarkAllRead | src/components/ui/common/NotificationMenu.tsx:51-52 | every entry becomes read; length, order and all other fields are kept |
| NotificationMenu.MarkRead | src/components/ui/common/NotificationMenu.tsx:96-98 | entries with the selected id become read; every other entry is unchanged |
| NotificationMenu.MarkAllReadClearsCount | src/components/ui/common/NotificationMenu.tsx:49-52 | after "mark all as read" the count is 0 |
| NotificationMenu.MarkAllReadIdempotent | src/components/ui/common/NotificationMenu.tsx:51-52 | "mark all as read" twice equals once |
| NotificationMenu.MarkReadCount | src/components/ui/common/NotificationMenu.tsx:49-98 | selecting an id lowers the count by exactly the number of unread entries with that id |
| NotificationMenu.NoUnreadWithId | src/components/ui/common/NotificationMenu.tsx:96-98 | when no entry with the id is unread, no unread entry carries it |
| NotificationMenu.SelectReadItemKeepsCount | src/components/ui/common/NotificationMenu.tsx:49-98 | selecting an already-read item leaves the count unchanged |
| NotificationMenu.UniqueUnreadWithId | src/components/ui/common/NotificationMenu.tsx:92-98 | with unique ids exactly one unread entry carries an unread entry's id |
| NotificationMenu.SelectUnreadItemDecrements | src/components/ui/common/NotificationMenu.tsx:49-98 | with unique ids, selecting an unread item lowers the count by exactly 1 |
| NotificationMenu.InitialUnreadCount | src/components/ui/common/NotificationMenu.tsx:25-47 | the initial list has two unread entries and unique ids |
| NotificationMenu.Menu.constructor | src/components/ui/common/NotificationMenu.tsx:25-47 | the menu starts with the mock list, which has two unread entries and unique ids |
| NotificationMenu.Menu.AllCaughtUp | src/components/ui/common/NotificationMenu.tsx:85 | "You're all caught up" shows only for an empty list, and then no badge is shown |
| NotificationMenu.Menu.Badge | src/components/ui/common/NotificationMenu.tsx:59-67 | the badge is shown exactly when the count is positive, and shows the count |
| NotificationMenu.Menu.MarkAllAsRead | src/components/ui/common/NotificationMenu.tsx:51-52 | the list is replaced by its all-read copy, and the badge disappears |
| NotificationMenu.Menu.Select | src/components/ui/common/NotificationMenu.tsx:94-99 | the list is replaced by the copy with the selected id read, and the count drops by the unread entries with that id |
| Text.LowerChar | src/Pages/Classmates.tsx:36 | ASCII capitals map to their small letters, and every other character is kept |
| Text.UpperChar | src/Pages/Classmates.tsx:141 | ASCII small letters map to their capitals, and every other character is kept |
| Text.ToLower | src/Pages/Classmates.tsx:36 | lower-casing is character by character and keeps the length |
| Text.ToUpper | src/Pages/Classmates.tsx:141 | upper-casing is character by character and keeps the length |
| Text.LowerOfUpper | src/Pages/Classmates.tsx:36 | lower-casing after upper-casing equals lower-casing |
| Text.TrimStart | src/Pages/Login.tsx:27 | the result is a suffix that starts with no white space, and only white space was removed |
| Text.TrimEnd | src/Pages/Login.tsx:27 | the result is a prefix that ends with no white space, and only white space was removed |
| Text.Trim | src/Pages/Login.tsx:27 | the trimmed string neither starts nor ends with white space |
| Text.BlankIffAllWhitespace | src/Pages/Login.tsx:27 | a string trims to empty exactly when it is all white space |
| Text.IncludesIffOccurs | src/Pages/Classmates.tsx:36 | `includes` is true exactly when the needle occurs at some position |
| Text.IncludesEmpty | src/Pages/Classmates.tsx:36 | the empty needle is always included |
| Classmates.Filtered | src/Pages/Classmates.tsx:35-37 | the result keeps exactly the classmates whose name matches, and is never longer than the list |
| Classmates.FilteredAppend | src/Pages/Classmates.tsx:35-37 | the filter keeps the list order |
| Classmates.NameMatchesIffOccurs | src/Pages/Classmates.tsx:36 | a name matches exactly when the lower-cased query occurs in the lower-cased name |
| Classmates.EmptyQueryKeepsAll | src/Pages/Classmates.tsx:35-37 | the empty query lists everyone |
| Classmates.FilterIgnoresCase | src/Pages/Classmates.tsx:36 | a query and its upper-case form select the same classmates |
| Classmates.NoClassmatesRowIff | src/Pages/Classmates.tsx:164 | "No classmates found." shows exactly when no name matches |
| Classmates.PresenceText | src/Pages/Classmates.tsx:39-40 | online, away and offline each get their own caption: "Available now", "Away" and "Offline" |
| Classmates.RenderLastMsg | src/Pages/Classmates.tsx:63-64 | the line ends with the message text, and has the "You: " prefix exactly when the student sent it |
| Classmates.FirstWord | src/Pages/Classmates.tsx:141 | the first word is the prefix of the name up to its first space |
| Classmates.Initials | src/Pages/Classmates.tsx:141 | the initials are the first one or two characters of the first word, upper-cased |
| Classmates.ClassListInitials | src/Pages/Classmates.tsx:29-141 | "Ana D." shows "AN" and "Diego T." shows "DI" |
| Login.ValidEmailIffPattern | src/Pages/Login.tsx:31 | the email rule holds exactly when the string matches `^[^@\s]+@[^@\s]+\.[^@\s]+$`; the rule is: no white space, exactly one '@' with something before it, and a '.' in the domain that is neither its first nor its last character |
| Login.RouteFor | src/Pages/Login.tsx:40-44 | a student goes to "/" and a professor to "/professor" |
| Login.Submit | src/Pages/Login.tsx:23-45 | the form navigates exactly when neither field is blank and the untrimmed email matches the pattern, to the role's route; a blank field gives "Please enter your email and password." and any other rejection gives "Please enter a valid email address." |
| Login.BlankNeverInvalidFormat | src/Pages/Login.tsx:27-34 | the emptiness check runs first, so a blank field never gets the format message |
| Login.PasswordOnlyNonBlank | src/Pages/Login.tsx:27 | the password has no rule beyond being non-blank |
| Login.BlankFieldRejected | src/Pages/Login.tsx:27-30 | a password made only of white space is rejected with the blank message |
| Login.SurroundingWhitespaceRejected | src/Pages/Login.tsx:27-31 | leading or trailing white space in the email makes it invalid, because the pattern is tested on the untrimmed value |
| Login.LoginForm.constructor | src/Pages/Login.tsx:16-21 | the form starts as a student with empty fields, no error and not loading |
| Login.LoginForm.OnSubmit | src/Pages/Login.tsx:23-36 | the error is reset on every submit, then set to the rejection message; on success no error is shown, loading starts and the role's route is pending |
| Login.LoginForm.DelayElapsed | src/Pages/Login.tsx:37-44 | after the delay loading stops and the form navigates to the pending route, which is "/" or "/professor" |

## Left out

- Browser and platform calls: `URL.createObjectURL`, `crypto.randomUUID` and `new Date().toISOString()` at the append site. The new id, the URL and the timestamp are parameters of `Tick`.
- Real timing: the 160 ms interval is modelled as explicit `Tick` calls. The 450 ms sign-in delay is modelled as `DelayElapsed`.
- React scheduling: batching, updater functions that call other setters, and strict-mode double invocation are not modelled. State updates take effect in program order. The completing tick therefore leaves the progress at 0, the last value written on that path.
- Assignment.AssignmentPage.Tick: stands for a running interval only. A cleared interval never fires again, so `Tick` requires the timer to be active.
- Assignment.AssignmentPage.constructor: covers only an id stored in the seed store. Any other id renders no handlers: an unknown id shows "Assignment not found." (`Lookup` gives `NotFound`), and an inherited `Object.prototype` name throws during render (`Lookup` gives `RenderError`).
- Modules.ModulesPage.constructor: covers only a course code for which `ModulesFor` lists rows. A code naming an inherited `Object.prototype` member throws during the first render and has no page state.
- JsObject.PrototypeNames: the standard members of `Object.prototype` only. Names an engine or a library adds to it are not modelled.
- Unmount: the page has no effect cleanup. An interval still running when the page unmounts is not modelled.
- The file picker opening (a click on the hidden input) and the input element's value reset are not modelled. The input key stands for the remount.
- Radix Dialog internals. Cancel is modelled as closing the dialog only. Whether the dialog library also reports that close through `onOpenChange` is not modelled.
- Floating point and locale formatting: `bytesPretty`, `GradeDonut` and `formatDT`.
- The status, quota and class-total badges are plain field reads and are not modelled separately.
- `Intl.Collator` (base sensitivity, numeric collation) is not modelled. It is an abstract comparator parameter.
- Sorting.SortBy: stands for the engine's `Array.prototype.sort`. The model proves the result is ordered and is a permutation of the input. Stability is not stated.
- Text.LowerChar, Text.UpperChar, Text.ToLower, Text.ToUpper: map ASCII letters only and keep every other character, whereas `toLowerCase` and `toUpperCase` apply full Unicode case mapping (for example "É" to "é", and "ß" to "SS", which changes the length).
- Classmates.Initials: strings are sequences of code points, whereas `slice(0, 2)` counts UTF-16 code units. For a name whose first word starts with a character outside the Basic Multilingual Plane, such as "𝒜na", the page shows the one character "𝒜" and the model gives "𝒜N".
- The settings dialog, user menu, top navigation, routing, dashboard, profile page and build configuration are not part of this model.
