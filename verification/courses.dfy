/** The course cards page: the stored course list and the filters over it, the card's
    description preview and actions, the create and update forms, and the switch between
    the list, create and update views. */
module Courses {
  import opened Text
  import opened Seqs
  import opened Remote
  import opened Entities

  // ---------------------------------------------------------------------
  // Requests and notifications

  /** The parameters of a `createCourse` request. Start and end are the local date-times the
      form holds; turning them into ISO instants is the host's time zone's business. */
  datatype CourseParams = CourseParams(
    title: string, description: string, start: LocalDateTime, end: LocalDateTime,
    isPrivate: bool, creator: string)

  /** The parameters of an `updateCourseById` request. */
  datatype UpdateParams = UpdateParams(
    id: string, title: string, description: string, start: LocalDateTime, end: LocalDateTime,
    isPrivate: bool)

  datatype Request =
    | ListAllCourses(includePrivate: bool)
    | SearchCourseCreator(userId: string)
    | RemoveCourseById(courseId: string)
    | CreateCourse(params: CourseParams)
    | UserCourse(courseId: string, userId: string)
    | UpdateCourseById(update: UpdateParams)

  const CourseRemoved := Notification("Curso removido", Success)
  const CourseRemoveFailed := Notification("Erro ao remover curso", Error)
  const CourseCreated := Notification("Curso cadastrado", Success)
  const CourseCreateFailed := Notification("Erro ao cadastrar curso", Error)
  const CourseAssociated := Notification("Curso associado ao usuário", Success)
  const CourseAssociateFailed := Notification("Erro ao associar curso ao usuário", Error)
  const CourseUpdated := Notification("Curso atualizado", Success)
  const CourseUpdateFailed := Notification("Erro ao atualizar curso", Error)

  // ---------------------------------------------------------------------
  // The card grid

  /** Whether a stored course gets a card: private ones only while "Privado" is checked, and,
      for a non-empty search term, only those whose lower-cased title or description includes it. */
  predicate CardVisible(c: Course, privateCourses: bool, search: string)
  {
    if c.isPrivate && !privateCourses then false
    else if search != "" then Contains(Lower(c.title), search) || Contains(Lower(c.description), search)
    else true
  }

  /** The grid shows the "no course" message when nothing is stored, and the visible cards otherwise
      (possibly none). */
  datatype Grid = NoCoursesMessage | Cards(shown: seq<Course>)

  function CourseGrid(courses: seq<Course>, privateCourses: bool, search: string): (g: Grid)
    ensures g.NoCoursesMessage? <==> courses == []
    ensures g.Cards? ==> |g.shown| <= |courses| && forall c :: c in g.shown ==> c in courses
    ensures g.Cards? && !privateCourses ==> forall c :: c in g.shown ==> !c.isPrivate
    ensures g.Cards? && search != "" ==>
      forall c :: c in g.shown ==> Contains(Lower(c.title), search) || Contains(Lower(c.description), search)
  {
    if |courses| == 0 then NoCoursesMessage
    else Cards(Filter(courses, c => CardVisible(c, privateCourses, search)))
  }

  /** A stored course gets a card exactly when it passes the visibility and search test. */
  lemma GridMembership(courses: seq<Course>, privateCourses: bool, search: string, c: Course)
    requires courses != []
    ensures c in CourseGrid(courses, privateCourses, search).shown <==>
      c in courses && (!c.isPrivate || privateCourses)
      && (search == "" || Contains(Lower(c.title), search) || Contains(Lower(c.description), search))
  {
    FilterMembership(courses, c => CardVisible(c, privateCourses, search), c);
  }

  /** With "Privado" checked and no search term the cards are the stored list, in order. */
  lemma GridShowsAll(courses: seq<Course>, search: string)
    requires courses != [] && search == ""
    ensures CourseGrid(courses, true, search) == Cards(courses)
  {
    FilterAllPass(courses, c => CardVisible(c, true, search));
  }

  /** The grid keeps the stored order: the cards of a concatenation are those of each part, in turn. */
  lemma GridKeepsOrder(a: seq<Course>, b: seq<Course>, privateCourses: bool, search: string)
    requires a != [] && b != []
    ensures CourseGrid(a + b, privateCourses, search).shown ==
      CourseGrid(a, privateCourses, search).shown + CourseGrid(b, privateCourses, search).shown
  {
    FilterAppend(a, b, c => CardVisible(c, privateCourses, search));
  }

  /** The search ignores letter case: with the term lower-cased as it is typed, a course passes
      exactly when it may be shown and its title or description contains the typed text once
      both are lower-cased (an empty term matches everything). */
  lemma SearchIsCaseInsensitive(c: Course, privateCourses: bool, typed: string)
    ensures CardVisible(c, privateCourses, Lower(typed)) <==>
      (!c.isPrivate || privateCourses)
      && (Contains(Lower(c.title), Lower(typed)) || Contains(Lower(c.description), Lower(typed)))
  {
  }

  /** In particular a course that may be shown and whose title contains the typed text verbatim
      always passes the search. */
  lemma SearchFindsVerbatim(c: Course, privateCourses: bool, typed: string)
    requires !c.isPrivate || privateCourses
    requires Contains(c.title, typed)
    ensures CardVisible(c, privateCourses, Lower(typed))
  {
    ContainsLower(c.title, typed);
    SearchIsCaseInsensitive(c, privateCourses, typed);
  }

  /** `course.private === false`. */
  predicate IsPublic(c: Course) { !c.isPrivate }

  /** Unchecking "Privado" keeps the courses whose flag is false, in their order. */
  function WithoutPrivate(courses: seq<Course>): (r: seq<Course>)
    ensures forall c :: c in r <==> c in courses && !c.isPrivate
  {
    var r := Filter(courses, IsPublic);
    forall c ensures c in r <==> c in courses && !c.isPrivate {
      FilterMembership(courses, IsPublic, c);
    }
    r
  }

  /** Pruning the stored list does not change which cards an unchecked box shows; only when
      every stored course was private does the grid switch from no cards to the "no course" message. */
  lemma {:induction false} PruneKeepsCards(courses: seq<Course>, search: string)
    requires courses != []
    ensures WithoutPrivate(courses) != [] ==>
      CourseGrid(WithoutPrivate(courses), false, search) == CourseGrid(courses, false, search)
    ensures WithoutPrivate(courses) == [] ==>
      CourseGrid(WithoutPrivate(courses), false, search) == NoCoursesMessage
      && CourseGrid(courses, false, search) == Cards([])
  {
    var visible := c => CardVisible(c, false, search);
    FilterAbsorbs(courses, IsPublic, visible);
    if WithoutPrivate(courses) == [] {
      assert Filter(WithoutPrivate(courses), visible) == [];
    }
  }

  // ---------------------------------------------------------------------
  // The description preview on a card

  const PreviewWords := 12

  /** The first twelve space-separated words of the description, joined by single spaces. */
  function DescriptionPreview(description: string): (preview: string)
    ensures StartsWith(description, preview)
    ensures |SplitSpaces(description)| <= PreviewWords ==> preview == description
    ensures |SplitSpaces(description)| > PreviewWords ==>
      SplitSpaces(preview) == SplitSpaces(description)[..PreviewWords]
  {
    var words := SplitSpaces(description);
    var n := if |words| < PreviewWords then |words| else PreviewWords;
    JoinTakePrefix(words, n);
    JoinSplit(description);
    assert words[..n] == words ==> JoinSpaces(words[..n]) == description;
    if n == PreviewWords then SplitJoin(words[..n]); JoinSpaces(words[..n])
    else JoinSpaces(words[..n])
  }

  // ---------------------------------------------------------------------
  // The create and update forms

  const MinTitleLength := 10
  const MinDescriptionLength := 30

  /** The form's values; a date that is empty or does not parse is `None`. */
  datatype CourseForm = CourseForm(
    title: string, description: string, start: Option<LocalDateTime>, end: Option<LocalDateTime>,
    isPrivate: bool)

  datatype Rule =
    | TitleRequired | TitleTooShort
    | DescriptionRequired | DescriptionTooShort
    | StartRequired | EndRequired

  /** The rules the form's schema reports as broken (the same schema guards both forms). */
  function FormErrors(f: CourseForm): (errors: set<Rule>)
    ensures errors == {} <==>
      |f.title| >= MinTitleLength && |f.description| >= MinDescriptionLength
      && f.start.Some? && f.end.Some?
    ensures TitleTooShort in errors <==> |f.title| < MinTitleLength
    ensures DescriptionTooShort in errors <==> |f.description| < MinDescriptionLength
  {
    (if f.title == "" then {TitleRequired} else {})
    + (if |f.title| < MinTitleLength then {TitleTooShort} else {})
    + (if f.description == "" then {DescriptionRequired} else {})
    + (if |f.description| < MinDescriptionLength then {DescriptionTooShort} else {})
    + (if f.start.None? then {StartRequired} else {})
    + (if f.end.None? then {EndRequired} else {})
  }

  /** Submitting the create form: create the course, then associate it with the current user.
      Each step reports its own outcome. The create reply's `createCourse` may be `null`
      (`Ok(None)`): creation is still reported a success. The association needs the created
      course's id, so when creation failed or returned no course it is not sent and always
      reports an error. */
  method SubmitCreateCourse(values: CourseForm, privateCourse: bool, userId: string,
                            createReply: Reply<Option<string>>, associateReply: Reply<()>)
    returns (requests: seq<Request>, notes: seq<Notification>)
    requires FormErrors(values) == {}
    ensures |notes| == 2
    ensures notes[0] == (if createReply.Ok? then CourseCreated else CourseCreateFailed)
    ensures notes[1] == (if createReply.Ok? && createReply.payload.Some? && associateReply.Ok?
                         then CourseAssociated else CourseAssociateFailed)
    ensures |requests| >= 1 && requests[0] == CreateCourse(CourseParams(
      values.title, values.description, values.start.value, values.end.value, privateCourse, userId))
    ensures createReply.Ok? && createReply.payload.Some? ==>
      requests == [requests[0], UserCourse(createReply.payload.value, userId)]
    ensures !(createReply.Ok? && createReply.payload.Some?) ==> |requests| == 1
  {
    var responseCourse: Option<string> := None;
    var params := CourseParams(values.title, values.description, values.start.value, values.end.value,
                               privateCourse, userId);
    requests := [CreateCourse(params)];
    match createReply {
      case Ok(created) =>
        responseCourse := created;
        notes := [CourseCreated];
      case Failed =>
        notes := [CourseCreateFailed];
    }
    match responseCourse {
      case None =>
        notes := notes + [CourseAssociateFailed];
      case Some(courseId) =>
        requests := requests + [UserCourse(courseId, userId)];
        notes := notes + [if associateReply.Ok? then CourseAssociated else CourseAssociateFailed];
    }
  }

  /** Submitting the update form: one request carrying the course id and the form's values,
      and one notification of its outcome. */
  method SubmitUpdateCourse(values: CourseForm, courseId: string, reply: Reply<()>)
    returns (request: Request, note: Notification)
    requires FormErrors(values) == {}
    ensures request == UpdateCourseById(UpdateParamsOf(values, courseId))
    ensures note.variant == Success <==> reply.Ok?
  {
    request := UpdateCourseById(UpdateParamsOf(values, courseId));
    note := if reply.Ok? then CourseUpdated else CourseUpdateFailed;
  }

  /** The update request's parameters: the course id and the form's values. */
  function UpdateParamsOf(values: CourseForm, courseId: string): UpdateParams
    requires FormErrors(values) == {}
  {
    UpdateParams(courseId, values.title, values.description, values.start.value, values.end.value,
                 values.isPrivate)
  }

  /** The update form's initial values as they should be: the course's title, description and
      privacy, and its start and end written with the 24-hour pattern `YYYY-MM-DDTHH:mm`, which
      is what a `datetime-local` field reads. The page itself uses the 12-hour `hh`; see
      `InitialUpdateFormAsWritten`. */
  function InitialUpdateForm(course: Course, clock: Clock): CourseForm
  {
    CourseForm(course.title, course.description, Some(LocalTime(clock, course.start)),
               Some(LocalTime(clock, course.end)), course.isPrivate)
  }

  /** Saving the update form untouched sends the course back as it is: same title, description,
      privacy, and the same local start and end. */
  lemma UnchangedUpdateKeepsCourse(course: Course, clock: Clock)
    requires |course.title| >= MinTitleLength && |course.description| >= MinDescriptionLength
    ensures FormErrors(InitialUpdateForm(course, clock)) == {}
    ensures UpdateParamsOf(InitialUpdateForm(course, clock), course.id)
         == UpdateParams(course.id, course.title, course.description,
                         LocalTime(clock, course.start), LocalTime(clock, course.end), course.isPrivate)
  {
  }

  /** moment's `hh`: the hour on a 12-hour clock, 12 standing for 0 and for 12. */
  function TwelveHour(h: nat): nat
  {
    if h % 12 == 0 then 12 else h % 12
  }

  /** The update form's initial values as the page fills them, with the pattern
      `YYYY-MM-DDThh:mm`, whose `hh` is the 12-hour hour. */
  function InitialUpdateFormAsWritten(course: Course, clock: Clock): CourseForm
  {
    var s, e := LocalTime(clock, course.start), LocalTime(clock, course.end);
    CourseForm(course.title, course.description,
               Some(LocalDateTime(s.day, TwelveHour(s.hour), s.minute)),
               Some(LocalDateTime(e.day, TwelveHour(e.hour), e.minute)), course.isPrivate)
  }

  /** The 12-hour pattern keeps the hour exactly from 1 to 12 o'clock. */
  lemma TwelveHourKeeps(h: nat)
    requires h < 24
    ensures TwelveHour(h) == h <==> 1 <= h <= 12
  {
  }

  /** As the page is written, saving the update form untouched moves a course that starts in
      the afternoon, evening or the midnight hour twelve hours back or forward: a start at
      14:30 is sent as 02:30. */
  lemma AsWrittenUpdateMovesStart(course: Course, clock: Clock)
    requires |course.title| >= MinTitleLength && |course.description| >= MinDescriptionLength
    requires clock.hours(course.start) == 0 || 13 <= clock.hours(course.start) < 24
    ensures FormErrors(InitialUpdateFormAsWritten(course, clock)) == {}
    ensures UpdateParamsOf(InitialUpdateFormAsWritten(course, clock), course.id).start
         != LocalTime(clock, course.start)
    ensures clock.hours(course.start) == 14 ==>
      UpdateParamsOf(InitialUpdateFormAsWritten(course, clock), course.id).start.hour == 2
  {
  }

  // ---------------------------------------------------------------------
  // Page state

  /** The update view's state: whether it is open and the course it edits (`{}` when none). */
  datatype UpdateState = UpdateState(active: bool, course: Option<Course>)

  datatype View = ListView | CreateView | UpdateView

  class CoursesPage {
    var courses: seq<Course>
    var privateCourses: bool
    var createCourseState: bool
    var updateCourseState: UpdateState
    var searchCourse: string

    /** The list, create and update views are never open together, the update view always
        has a course, and the stored search term is lower case. */
    ghost predicate Valid()
      reads this
    {
      && !(createCourseState && updateCourseState.active)
      && (updateCourseState.active <==> updateCourseState.course.Some?)
      && Lower(searchCourse) == searchCourse
    }

    predicate ListShown()
      reads this
    {
      !createCourseState && !updateCourseState.active
    }

    /** The views on screen: exactly one, and the list only when neither form is open. */
    function ShownViews(): (views: set<View>)
      reads this
      requires Valid()
      ensures |views| == 1
      ensures ListView in views <==> !createCourseState && !updateCourseState.active
      ensures CreateView in views <==> createCourseState
      ensures UpdateView in views <==> updateCourseState.active
    {
      if createCourseState then {CreateView}
      else if updateCourseState.active then {UpdateView}
      else {ListView}
    }

    /** The values the update view's form starts from, as the page fills them from the course
        being edited (with the 12-hour hour). */
    function UpdateFormValues(clock: Clock): CourseForm
      reads this
      requires Valid() && updateCourseState.active
    {
      InitialUpdateFormAsWritten(updateCourseState.course.value, clock)
    }

    constructor ()
      ensures Valid() && ListShown()
      ensures courses == [] && !privateCourses && searchCourse == ""
      ensures updateCourseState == UpdateState(false, None)
    {
      courses := [];
      privateCourses := false;
      createCourseState := false;
      updateCourseState := UpdateState(false, None);
      searchCourse := "";
    }

    /** The fetch on first render, with the current "Privado" flag. */
    method Mount(reply: Reply<seq<Course>>) returns (request: Request)
      modifies this`courses
      ensures request == ListAllCourses(privateCourses)
      ensures courses == ListOrEmpty(reply)
    {
      request := ListAllCourses(privateCourses);
      courses := ListOrEmpty(reply);
    }

    /** Typing in the search box stores the lower-cased text. */
    method Search(input: string)
      requires Valid()
      modifies this`searchCourse
      ensures Valid()
      ensures searchCourse == Lower(input)
    {
      LowerIdempotent(input);
      searchCourse := Lower(input);
    }

    /** Clicking "Privado": checking it refetches with private courses included; unchecking it
        prunes the private courses from the stored list without a request. */
    method TogglePrivate(reply: Reply<seq<Course>>) returns (request: Option<Request>)
      requires Valid()
      modifies this`privateCourses, this`courses
      ensures Valid()
      ensures privateCourses == !old(privateCourses)
      ensures !old(privateCourses) ==> request == Some(ListAllCourses(true)) && courses == ListOrEmpty(reply)
      ensures old(privateCourses) ==> request == None && courses == WithoutPrivate(old(courses))
    {
      var wasChecked := privateCourses;
      privateCourses := !wasChecked;
      if !wasChecked {
        request := Some(ListAllCourses(true));
        courses := ListOrEmpty(reply);
      } else {
        request := None;
        courses := WithoutPrivate(courses);
      }
    }

    /** The "new course" button, shown only in the list view, opens the create view. */
    method OpenCreate()
      requires Valid() && ListShown()
      modifies this`createCourseState
      ensures Valid() && ShownViews() == {CreateView}
    {
      createCourseState := !createCourseState;
    }

    /** The back button of the create view refetches the public courses and returns to the list. */
    method LeaveCreate(reply: Reply<seq<Course>>) returns (request: Request)
      requires Valid() && createCourseState
      modifies this`createCourseState, this`courses
      ensures Valid() && ShownViews() == {ListView}
      ensures request == ListAllCourses(false) && courses == ListOrEmpty(reply)
    {
      request := ListAllCourses(false);
      courses := ListOrEmpty(reply);
      createCourseState := !createCourseState;
    }

    /** A card's edit button, shown only in the list view, opens the update view on that course. */
    method OpenUpdate(course: Course)
      requires Valid() && ListShown()
      modifies this`updateCourseState
      ensures Valid() && ShownViews() == {UpdateView}
      ensures updateCourseState.course == Some(course)
    {
      updateCourseState := UpdateState(!updateCourseState.active, Some(course));
    }

    /** The back button of the update view refetches the public courses and returns to the list. */
    method LeaveUpdate(reply: Reply<seq<Course>>) returns (request: Request)
      requires Valid() && updateCourseState.active
      modifies this`updateCourseState, this`courses
      ensures Valid() && ShownViews() == {ListView}
      ensures updateCourseState == UpdateState(false, None)
      ensures request == ListAllCourses(false) && courses == ListOrEmpty(reply)
    {
      request := ListAllCourses(false);
      courses := ListOrEmpty(reply);
      updateCourseState := UpdateState(!updateCourseState.active, None);
    }
  }

  /** One course card: its expanded and dialog flags, the creator it looked up, and the outcome
      of its last removal. */
  class CourseCard {
    const course: Course
    var expanded: bool
    var dialogOpen: bool
    var courseCreator: User
    var courseRemoved: bool
    /** How many creator lookups the card has sent. */
    ghost var creatorLookups: nat

    constructor (course: Course)
      ensures this.course == course
      ensures !expanded && !dialogOpen && !courseRemoved && creatorLookups == 0
      ensures courseCreator == User("", "")
    {
      this.course := course;
      expanded := false;
      dialogOpen := false;
      courseCreator := User("", "");
      courseRemoved := false;
      creatorLookups := 0;
    }

    /** The expand button looks the creator up on every click, collapsing included, then
        flips `expanded`. A failed lookup keeps the creator shown so far. */
    method ExpandClick(reply: Reply<User>) returns (request: Request)
      modifies this`expanded, this`courseCreator, this`creatorLookups
      ensures request == SearchCourseCreator(course.creator)
      ensures creatorLookups == old(creatorLookups) + 1
      ensures expanded == !old(expanded)
      ensures courseCreator == (if reply.Ok? then reply.payload else old(courseCreator))
    {
      request := SearchCourseCreator(course.creator);
      creatorLookups := creatorLookups + 1;
      if reply.Ok? {
        courseCreator := reply.payload;
      }
      expanded := !expanded;
    }

    /** The delete button and the dialog's cancel button toggle the confirmation dialog. */
    method DialogClick()
      modifies this`dialogOpen
      ensures dialogOpen == !old(dialogOpen)
    {
      dialogOpen := !dialogOpen;
    }

    /** Confirming removal: remove the course; on success report it and refetch every course,
        private ones included, into the page; on failure report the error and leave the list.
        The dialog is toggled either way. */
    method Remove(page: CoursesPage, removeReply: Reply<()>, listReply: Reply<seq<Course>>)
      returns (requests: seq<Request>, note: Notification)
      modifies this`courseRemoved, this`dialogOpen, page`courses
      ensures |requests| >= 1 && requests[0] == RemoveCourseById(course.id)
      ensures removeReply.Ok? ==>
                (requests == [requests[0], ListAllCourses(true)] && note == CourseRemoved
                 && courseRemoved && page.courses == ListOrEmpty(listReply))
      ensures removeReply.Failed? ==>
                (requests == [requests[0]] && note == CourseRemoveFailed
                 && !courseRemoved && page.courses == old(page.courses))
      ensures dialogOpen == !old(dialogOpen)
    {
      requests := [RemoveCourseById(course.id)];
      if removeReply.Ok? {
        note := CourseRemoved;
        courseRemoved := true;
        requests := requests + [ListAllCourses(true)];
        page.courses := ListOrEmpty(listReply);
      } else {
        note := CourseRemoveFailed;
        courseRemoved := false;
      }
      dialogOpen := !dialogOpen;
    }
  }
}
