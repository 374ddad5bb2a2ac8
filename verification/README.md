# Courses and classes pages of web-music, in Dafny

This project models two page components of the web-music front end: the data transforms they
run and the order in which they send requests.

**The courses page** (`src/pages/courses/courses.js`) keeps a list of courses fetched from the
API. It shows them as cards, filtered by a "Privado" checkbox and a search box. A card shows a
twelve-word preview of the description. The expand button looks up the course's creator, and a
confirmation dialog removes the course. The page switches between three views: the list, the
create form and the update form. Both forms are guarded by the same length and required rules,
and each submit reports its outcome through snackbar notifications.

**The classes page** (`src/pages/classes/classes.js`) has two tables.

- The course table merges its column filters, with `private` defaulting to unchecked. It lists
  the courses and keeps those whose title contains the title filter and whose start and end
  fall on the filters' days.
- The class table of one course fetches the course's classes and looks up every instructor. It
  joins the names in, all or nothing. It decides who may edit or delete a row, and handles row
  add, update and delete. An update sends a minimal patch: only the changed fields, with
  `vacancies` run through `parseInt` and `time` turned into an `hours:minutes` label.

## How the model is built

- Every remote call (`client.request`) becomes an oracle argument, `Reply<T>`: the payload it
  resolved with, or `Failed`. A handler is a method that returns the requests it sent and the
  notifications it raised, in order. A notification is its message and its variant.
- React state that handlers update becomes a class:
  - `CoursesPage` holds the list, the checkbox, the search term and the two view flags.
  - `CourseCard` holds the expanded flag, the dialog flag, the creator and the removal outcome.
- Each handler is a method that `modifies` exactly the fields its setters touch. `Valid()`
  holds from construction on: the create and update views are never active together, the
  update view always has a course, and the search term is lower case.
- Rows of the class table are JavaScript objects, modelled as `map<string, Value>`. The merged
  filter object is a `map<string, FilterValue>` from field to column type and value. A `Value`
  is a string, number, `NaN`, boolean, `undefined` or `Date`. Strict equality (`===`) is modelled as JavaScript defines it: `NaN` equals nothing, and
  two `Date`s are equal only when they are the same object. `parseInt` is modelled as
  JavaScript defines it:
  - it skips leading white space and takes a sign;
  - it reads hexadecimal after `0x` and decimal otherwise;
  - it stops at the first non-digit, and gives `NaN` when no digit was read.
- The host's time zone and locale are a `Clock`: three uninterpreted functions giving an
  instant's local day, hour and minute.
- The generic `Seqs.Filter` stands for `Array.prototype.filter`. Its lemmas say it keeps
  exactly the passing elements, in order.

The creator lookup is sent on every click of the expand button, collapse included, not only
on the first expand (`src/pages/courses/courses.js:351-360`). `Courses.CourseCard.ExpandClick`
does the same and counts the lookups.

## Model

| member | source | states |
|---|---|---|
| Courses.CourseGrid | src/pages/courses/courses.js:177-213 | The "no course" message appears exactly when the stored list is empty; otherwise the cards are a sub-list of the stored courses, none private while "Privado" is unchecked, and, for a non-empty term, each with the term in its lower-cased title or description |
| Courses.GridMembership | src/pages/courses/courses.js:179-194 | A stored course gets a card if and only if it is public or "Privado" is checked, and the search term is empty or occurs in its lower-cased title or description |
| Courses.GridShowsAll | src/pages/courses/courses.js:177-194 | With "Privado" checked and an empty search term, the cards are the stored list itself, in the same order |
| Courses.GridKeepsOrder | src/pages/courses/courses.js:178-194 | The card filter preserves order: the cards of a concatenated list are the cards of each part, one after the other |
| Courses.SearchIsCaseInsensitive | src/pages/courses/courses.js:180-191 | With the term lower-cased as on entry, a course passes if and only if it may be shown (public, or the box checked) and its lower-cased title or description contains the lower-cased typed text, whatever the case of either; an empty term matches every course that may be shown |
| Courses.SearchFindsVerbatim | src/pages/courses/courses.js:182-191 | A course that may be shown and whose title contains the typed text verbatim always passes the search |
| Text.ContainsLower | src/pages/courses/courses.js:184-187 | Lower-casing both sides of `includes` keeps every occurrence |
| Courses.CoursesPage.Search | src/pages/courses/courses.js:118-120 | The stored term is the lower-cased input; the page invariant, including a lower-case term, is kept |
| Text.LowerIdempotent | src/pages/courses/courses.js:118-120 | A lower-cased term has no upper-case letter left, and lower-casing it again changes nothing |
| Courses.WithoutPrivate | src/pages/courses/courses.js:145-149 | The pruned list holds exactly the stored courses whose private flag is false |
| Courses.PruneKeepsCards | src/pages/courses/courses.js:145-149 | With the box unchecked, pruning changes no card; when every stored course was private, the grid goes from no cards to the "no course" message |
| Courses.CoursesPage.TogglePrivate | src/pages/courses/courses.js:135-149 | The box flips. Checking it sends `private: true` and stores the reply's list, or the empty list on failure. Unchecking it sends nothing and stores the pruned list. The page invariant is kept |
| Courses.CoursesPage.Mount | src/pages/courses/courses.js:71-87 | The first fetch uses the current checkbox; a resolved fetch stores the returned list unchanged and a failed one stores the empty list |
| Courses.CoursesPage.constructor | src/pages/courses/courses.js:902-913 | Initially nothing is stored, the box is unchecked, the term is empty, only the list view is shown, and the invariant holds |
| Courses.CoursesPage.ShownViews | src/pages/courses/courses.js:930-969 | Under the invariant exactly one view is shown: the list if and only if neither form is active, each form if and only if its flag is set |
| Courses.CoursesPage.OpenCreate | src/pages/courses/courses.js:164-167 | From the list view the "new course" button leads to the create view alone, keeping the invariant |
| Courses.CoursesPage.LeaveCreate | src/pages/courses/courses.js:486-496 | Going back from the create view fetches the public courses, stores the result and shows the list view alone |
| Courses.CoursesPage.OpenUpdate | src/pages/courses/courses.js:367-377 | From the list view a card's edit button leads to the update view alone, editing that card's course |
| Courses.CoursesPage.LeaveUpdate | src/pages/courses/courses.js:718-731 | Going back from the update view fetches the public courses, clears the edited course and shows the list view alone |
| Courses.DescriptionPreview | src/pages/courses/courses.js:249-254 | The preview is a prefix of the description. It is the whole description when there are at most twelve space-separated tokens, and otherwise it splits into exactly the first twelve |
| Text.JoinSplit | src/pages/courses/courses.js:251-254 | Joining the space-separated pieces of a string with single spaces gives the string back |
| Text.SplitJoin | src/pages/courses/courses.js:251-254 | Splitting a join of space-free pieces gives the pieces back |
| Text.JoinTakePrefix | src/pages/courses/courses.js:251-254 | Joining the first k pieces gives a prefix of joining them all |
| Courses.FormErrors | src/pages/courses/courses.js:587-597 | No rule is broken if and only if the title has at least 10 characters, the description at least 30, and both dates are present; each too-short error appears exactly when its field is short. The update form's schema at 791-801 is the same |
| Courses.CourseCard.constructor | src/pages/courses/courses.js:229-239 | A new card is collapsed, its dialog is closed, its creator is blank, nothing has been removed and no lookup has been sent |
| Courses.CourseCard.DialogClick | src/pages/courses/courses.js:241-243 | The delete and cancel buttons flip the dialog |
| Courses.CourseCard.ExpandClick | src/pages/courses/courses.js:351-360 | Every click, collapsing ones included, sends one creator lookup for the course's creator and flips `expanded`. A resolved lookup replaces the creator shown; a failed one keeps it |
| Courses.CourseCard.Remove | src/pages/courses/courses.js:267-314 | The removal request goes first. On success, "Curso removido" is reported, the card is marked removed, and every course, private ones included, is refetched into the page. On failure the error is reported and the list is left alone. The dialog flips either way |
| Courses.SubmitCreateCourse | src/pages/courses/courses.js:516-586 | Exactly two notifications: creation success or error, then association success or error. The create request carries the form's values, the checkbox and the current user. The association is sent only with a created course's id; after a failed creation, or one that resolved with no course, it is not sent and always reports an error |
| Courses.SubmitUpdateCourse | src/pages/courses/courses.js:756-790 | One update request with the course id and the form's values, and one notification that is a success exactly when the request resolved |
| Courses.UnchangedUpdateKeepsCourse | src/pages/courses/courses.js:743-767 | With the dates written on the 24-hour clock, saving the update form untouched passes the schema and sends the course back with the same title, description, privacy and local start and end |
| Courses.TwelveHourKeeps | src/pages/courses/courses.js:748-753 | The 12-hour pattern keeps an hour unchanged if and only if it lies between 1 and 12 |
| Courses.AsWrittenUpdateMovesStart | src/pages/courses/courses.js:748-753 | As written, saving the update form untouched sends a different start for any course starting at midnight or between 13:00 and 23:59; 14:30 becomes 02:30 |
| Classes.UpdatePatch | src/pages/classes/classes.js:242-263 | The patch's keys are exactly the non-empty keys whose new value is not `===` the old one, plus `id` from the new row. `vacancies` goes through `parseInt`, `time` becomes its hour:minute label, and every other field is copied verbatim. There is no patch exactly when `time` changed to something that is not a `Date` |
| Classes.UnchangedRowPatch | src/pages/classes/classes.js:242-262 | When nothing changed, the patch is `{ id }` alone |
| Classes.RoomOnlyPatch | src/pages/classes/classes.js:242-262 | Changing only the room sends the new room and the id, nothing else |
| Classes.VacanciesPatch | src/pages/classes/classes.js:249-250 | Vacancies typed as digits are sent as the number they spell |
| Classes.TimeLabelReadsBack | src/pages/classes/classes.js:252-255 | The time label is the hour, a colon, then the minute, with no padding; `parseInt` reads the hour from the front and the minute from after the colon |
| JsValue.ParseInt | src/pages/classes/classes.js:250 | `parseInt` of any value is a number or `NaN`, and a string of decimal digits gives the number it spells |
| JsValue.ParseIntRoundTrip | src/pages/classes/classes.js:250 | `parseInt` reads back the decimal rendering of every integer, negative ones included |
| JsValue.ParseIntOfNumber | src/pages/classes/classes.js:178 | A `vacancies` value that is already an integer goes through `parseInt` unchanged |
| JsValue.ParseIntStopsAtNonDigit | src/pages/classes/classes.js:178 | `parseInt` stops at the first character that is not a digit and returns the value of the digits before it |
| JsValue.StrictEqMeaning | src/pages/classes/classes.js:244 | Apart from `NaN` and `Date` objects, `===` holds exactly when the two values are equal |
| Classes.WithInstructor | src/pages/classes/classes.js:79-86 | A joined row has the raw row's fields plus `instructor`, set to the given name, and `instructorId`, set to the raw row's instructor; every other field is unchanged |
| Classes.JoinInstructors | src/pages/classes/classes.js:79-87 | The joined list has the raw list's length, and element i is raw row i joined with name i |
| Classes.ResolvedNames | src/pages/classes/classes.js:65-77 | The names resolve if and only if every lookup resolved. They are then one per row, in row order, each "firstName secondName" of that row's instructor |
| Classes.LoadClasses | src/pages/classes/classes.js:49-100 | It sends the class query, then one lookup per raw class in order. The data is the joined list when every lookup resolved and empty otherwise. A failed class query counts as no classes. The page is 0 and the total count is the data's length |
| Classes.LoadFailures | src/pages/classes/classes.js:52-92 | A failed class query gives no rows, and a single failed lookup discards the whole list |
| Classes.IsEditable | src/pages/classes/classes.js:159-170 | A row may be edited, and by the same test deleted, if and only if it has an `instructorId` equal to the course's creator or to the current user |
| Classes.WithCreateFields | src/pages/classes/classes.js:176-182 | The spread sets `vacancies`, `instructor`, `courseId` and `time` and keeps every other field of the row |
| Classes.CreateParamsFields | src/pages/classes/classes.js:174-183 | The create request carries the row as entered, with `vacancies` parsed (digits become their number), the current user as instructor, the course's id, and the time as its hour:minute label |
| Classes.RowAdd | src/pages/classes/classes.js:171-240 | The handler always resolves, with exactly two notifications: creation, then association. A row whose time is not a `Date` sends nothing. The association is sent only with a created class's id; after a failed creation, or one that resolved with no class, it is not sent and always reports an error |
| Classes.RowUpdate | src/pages/classes/classes.js:241-289 | It sends the patch and reports its outcome, and resolves. When building the patch throws, it rejects with no request and no notification |
| Classes.RowDelete | src/pages/classes/classes.js:290-321 | The handler always resolves, after one removal request with the row's id and one notification that is a success exactly when the request resolved |
| Classes.MergedFilters | src/pages/classes/classes.js:343-351 | The merged filters always have a `private` entry |
| Classes.MergedFiltersAt | src/pages/classes/classes.js:334-351 | A field is merged exactly when some filter names it or it is `private`. Its value is the last such filter's, and `private` defaults to unchecked |
| Classes.MergeFilters | src/pages/classes/classes.js:343-351 | Assigning the filters one at a time into the default object gives the merged filters |
| Classes.PrivateRequestedMeaning | src/pages/classes/classes.js:355-358 | The course query asks for private courses if and only if the last `private` filter exists and is "checked" |
| Classes.FilteredCoursesMembership | src/pages/classes/classes.js:365-391 | A listed course stays if and only if its lower-cased title contains the lower-cased title filter, and its start and end fall on the filters' days |
| Classes.FilteredCoursesKeepsOrder | src/pages/classes/classes.js:365-391 | The three filters preserve order: filtering a concatenation filters each part in turn |
| Classes.NoFiltersKeepAll | src/pages/classes/classes.js:365-391 | Without title, start or end filters every listed course stays |
| Classes.LoadCourseTable | src/pages/classes/classes.js:333-399 | It sends the course query with the private flag of the merged filters, resolves with the filtered list (a failed query lists nothing), page 0, and a total count equal to the data's length |
| Seqs.FilterMembership | src/pages/classes/classes.js:365-373 | `filter` keeps an element if and only if it is in the input and passes |
| Seqs.FilterAppend | src/pages/classes/classes.js:365-373 | `filter` preserves order: filtering a concatenation is the concatenation of the filtered parts |
| Seqs.FilterCount | src/pages/courses/courses.js:146-148 | `filter` keeps every passing element as many times as it occurs, and no failing one |

## Left out

- Rendering, Material-UI, Formik's form state and styles are not modelled. The edit form's reinitialisation when its private checkbox is toggled is not modelled either. `profile.js` and `styles.js` are not part of this model.
- The GraphQL client and its query documents are out of scope. Each call is a reply argument, and the wire format is not modelled.
- Timing and concurrency are not modelled. A handler's requests are an ordered list. `Promise.all` is a sequential pass that still sends every lookup. A reply is whatever the oracle gives, and late replies or unmounted components are not modelled.
- `Classes.LoadClasses`: the lookup reply is a function of the instructor id, so two rows with the same instructor get the same reply. A resolved lookup whose user is `null` is not modelled; the page would throw there and load an empty table.
- `console.log`, snackbar durations and anchoring, Formik's `setSubmitting` and `resetForm` are not modelled.
- Dates are not modelled in detail. `moment` formatting and locale, `toISOString`, and `new Date` on a `datetime-local` string are left abstract. A form date is a local day, hour and minute. The conversion between local time and instants is the host's, through the uninterpreted `Clock`. The card's `L hh:mm` date display is rendering and is not modelled.
- `Classes.LoadCourseTable` requires that the `title` filter holds a string and the date filters hold `Date`s, as the filter row supplies them. A date filter given as a string goes through `new Date` in the page, and that string parsing is not modelled.
- `Courses.CourseGrid`: a course's title and description are always strings, so the `!== undefined` guards are taken as true.
- Courses.PruneKeepsCards: a course's `private` flag is taken to be a boolean. The grid hides a course only when the flag is truthy (`src/pages/courses/courses.js:180`), while the prune keeps it only when the flag is `=== false` (line 147). So a course whose flag is `null` or missing would be shown with the box unchecked but removed by the prune; the model does not capture that case.
- `Text.Lower`: lower-casing covers ASCII letters only, not the full Unicode case mapping.
- `Courses.FormErrors`: lengths count Dafny characters, not UTF-16 code units. Which message the schema shows is not modelled. The `private` rule always holds because the value is a boolean.
- Numbers are unbounded integers. Floating-point precision of large values is not modelled.
- `Courses.CoursesPage.OpenCreate` and `Courses.CoursesPage.OpenUpdate` require the list view to be shown, because their buttons exist only there. The back buttons likewise require their own view.

## Findings

| source | as written | input that shows it | evidently intended | confidence | as-written member | corrected member |
|---|---|---|---|---|---|---|
| src/pages/courses/courses.js:748-753 | The update form's date fields are filled with the pattern `YYYY-MM-DDThh:mm`; `hh` is moment's 12-hour hour, while a `datetime-local` field reads 24-hour time | A course starting at 14:30: the form shows 02:30, and saving it untouched moves the start to 02:30 (a midnight start moves to noon) | `YYYY-MM-DDTHH:mm`, so the unedited form sends the course's own start and end | high (not executed) | Courses.AsWrittenUpdateMovesStart | Courses.UnchangedUpdateKeepsCourse |
