/** The course table with its column filters, and the per-course class table: loading classes
    with their instructors' names, who may edit a row, and the add, update and delete handlers. */
module Classes {
  import opened Text
  import opened Seqs
  import opened Remote
  import opened Entities
  import opened JsValue

  // ---------------------------------------------------------------------
  // Requests, notifications, table results

  datatype Request =
    | ListAllCourses(includePrivate: bool)
    | ListClasses(courseId: string)
    | SearchClassInstructor(id: Value)
    | CreateClass(params: Record)
    | CreateClassUser(classId: string, userId: string)
    | UpdateClass(patch: Record)
    | RemoveClass(id: Value)

  const ClassCreated := Notification("Turma criada", Success)
  const ClassCreateFailed :=
    Notification("Erro ao criar turma, verifique se todos os campos estão preenchidos", Error)
  const ClassAssociated := Notification("Turma associada com aluno", Success)
  const ClassAssociateFailed := Notification("Erro ao associar turma ao aluno", Error)
  const ClassUpdated := Notification("Turma atualizada", Success)
  const ClassUpdateFailed := Notification("Erro ao atualizar turma", Error)
  const ClassRemoved := Notification("Turma excluída", Success)
  const ClassRemoveFailed := Notification("Erro ao excluir turma", Error)

  /** What a table's data loader resolves with. */
  datatype TablePage<T> = TablePage(data: seq<T>, page: int, totalCount: int)

  /** How an async row handler settles: a handler resolves unless something throws outside
      its `try` blocks. */
  datatype Settlement = Resolved | Rejected

  // ---------------------------------------------------------------------
  // Time of day

  /** `${time.getHours()}:${time.getMinutes()}`: local hour and minute, without zero padding. */
  function TimeLabel(clock: Clock, stamp: Timestamp): string
  {
    NatToDecimal(clock.hours(stamp)) + ":" + NatToDecimal(clock.minutes(stamp))
  }

  /** The label holds the hour and the minute and nothing else: `parseInt` reads the hour
      from the front, and the minute from just after the colon. */
  lemma TimeLabelReadsBack(clock: Clock, stamp: Timestamp)
    ensures var hours := NatToDecimal(clock.hours(stamp));
      && |TimeLabel(clock, stamp)| > |hours|
      && TimeLabel(clock, stamp)[|hours|] == ':'
      && ParseIntString(TimeLabel(clock, stamp)) == Num(clock.hours(stamp))
      && ParseIntString(TimeLabel(clock, stamp)[|hours| + 1..]) == Num(clock.minutes(stamp))
  {
    var hours, minutes := NatToDecimal(clock.hours(stamp)), NatToDecimal(clock.minutes(stamp));
    var written := TimeLabel(clock, stamp);
    assert written == hours + (":" + minutes);
    assert !HasHexPrefix(written) by {
      if |hours| == 1 { assert written[1] == ':'; } else { assert IsDecimalDigit(written[1]); }
    }
    ParseIntStopsAtNonDigit(hours, ":" + minutes);
    DecimalRoundTrip(clock.hours(stamp));
    DecimalRoundTrip(clock.minutes(stamp));
    assert written[|hours| + 1..] == minutes;
  }

  // ---------------------------------------------------------------------
  // Row update: the minimal patch

  /** The fields of the edited row whose value is not `===` to the original's. The filter's
      callback returns the key itself, so a field named by the empty string never passes. */
  function ChangedKeys(newData: Record, oldData: Record): set<string>
  {
    set k | k in newData && k != "" && !StrictEq(newData[k], Get(oldData, k))
  }

  /** The per-field coercion: `vacancies` through `parseInt`, `time` to its hour:minute label
      (`None` when `time` is not a `Date`: calling `getHours` on it throws), anything else as is. */
  function Coerced(key: string, v: Value, clock: Clock): Option<Value>
  {
    if key == "vacancies" then Some(ParseInt(v))
    else if key == "time" then (if v.DateObj? then Some(Str(TimeLabel(clock, v.stamp))) else None)
    else Some(v)
  }

  /** The `params` of the update request: each changed field, coerced, plus the row's `id`.
      `None` when the coercion throws, before any request is made. */
  function UpdatePatch(newData: Record, oldData: Record, clock: Clock): (patch: Option<Record>)
    ensures patch.None? <==> "time" in ChangedKeys(newData, oldData) && !newData["time"].DateObj?
    ensures patch.Some? ==> patch.value.Keys == ChangedKeys(newData, oldData) + {"id"}
    ensures patch.Some? ==> patch.value["id"] == Get(newData, "id")
    ensures patch.Some? && "vacancies" in ChangedKeys(newData, oldData) ==>
      patch.value["vacancies"] == ParseInt(newData["vacancies"])
    ensures patch.Some? && "time" in ChangedKeys(newData, oldData) ==>
      patch.value["time"] == Str(TimeLabel(clock, newData["time"].stamp))
    ensures patch.Some? ==> forall k :: k in ChangedKeys(newData, oldData) && k !in {"id", "vacancies", "time"} ==>
      patch.value[k] == newData[k]
  {
    var changed := ChangedKeys(newData, oldData);
    if "time" in changed && !newData["time"].DateObj? then None
    else
      var changes := map k | k in changed :: Coerced(k, newData[k], clock).value;
      Some(changes["id" := Get(newData, "id")])
  }

  /** With nothing edited the patch is the row's `id` alone. */
  lemma UnchangedRowPatch(newData: Record, oldData: Record, clock: Clock)
    requires forall k :: k in newData ==> StrictEq(newData[k], Get(oldData, k))
    ensures UpdatePatch(newData, oldData, clock) == Some(map["id" := Get(newData, "id")])
  {
  }

  /** Changing only the room sends the new room and the id. */
  lemma RoomOnlyPatch(oldData: Record, room: string, clock: Clock)
    requires "room" in oldData && "id" in oldData && oldData["room"] != Str(room)
    requires forall k :: k in oldData ==> !oldData[k].NaN? && !oldData[k].DateObj?
    ensures UpdatePatch(oldData["room" := Str(room)], oldData, clock)
         == Some(map["room" := Str(room), "id" := oldData["id"]])
  {
    var newData := oldData["room" := Str(room)];
    assert ChangedKeys(newData, oldData) == {"room"} by {
      forall k | k in newData ensures StrictEq(newData[k], Get(oldData, k)) <==> k != "room" {
        StrictEqMeaning(newData[k], Get(oldData, k));
      }
    }
    var patch := UpdatePatch(newData, oldData, clock).value;
    assert patch.Keys == {"room", "id"};
    assert patch["room"] == Str(room) && patch["id"] == oldData["id"];
    assert patch == map["room" := Str(room), "id" := oldData["id"]];
  }

  /** A vacancies edit typed as digits reaches the request as the number they spell. */
  lemma VacanciesPatch(oldData: Record, typed: string, clock: Clock)
    requires typed != [] && AllDecimal(typed)
    requires Get(oldData, "vacancies") != Str(typed)
    requires forall k :: k in oldData ==> !oldData[k].NaN?
    ensures var newData := oldData["vacancies" := Str(typed)];
      UpdatePatch(newData, oldData, clock).Some?
      && UpdatePatch(newData, oldData, clock).value["vacancies"] == Num(DecimalValue(typed))
  {
  }

  // ---------------------------------------------------------------------
  // Loading the class table: the instructor join

  function InstructorName(u: User): string
  {
    u.firstName + " " + u.secondName
  }

  /** `{ ...rest, instructor: name, instructorId: instructor }` for a row `{ instructor, ...rest }`. */
  function WithInstructor(row: Record, name: string): (r: Record)
    ensures r.Keys == row.Keys + {"instructor", "instructorId"}
    ensures r["instructor"] == Str(name)
    ensures r["instructorId"] == Get(row, "instructor")
    ensures forall k :: k in row && k !in {"instructor", "instructorId"} ==> r[k] == row[k]
  {
    (row - {"instructor"})["instructor" := Str(name)]["instructorId" := Get(row, "instructor")]
  }

  /** The rows joined index by index with the resolved names. */
  function JoinInstructors(raw: seq<Record>, names: seq<string>): (rows: seq<Record>)
    requires |names| == |raw|
    ensures |rows| == |raw|
    ensures forall i :: 0 <= i < |raw| ==> rows[i] == WithInstructor(raw[i], names[i])
  {
    seq(|raw|, i requires 0 <= i < |raw| => WithInstructor(raw[i], names[i]))
  }

  /** The instructor id a raw class row carries (`undefined` when it has none). */
  function InstructorOf(row: Record): Value
  {
    Get(row, "instructor")
  }

  /** All instructors' names, in row order, or `None` as soon as one lookup failed. */
  function ResolvedNames(raw: seq<Record>, lookup: Value -> Reply<User>): (names: Option<seq<string>>)
    ensures names.Some? <==> forall i :: 0 <= i < |raw| ==> lookup(InstructorOf(raw[i])).Ok?
    ensures names.Some? ==>
              (&& |names.value| == |raw|
               && forall i :: 0 <= i < |raw| ==> names.value[i] == InstructorName(lookup(InstructorOf(raw[i])).payload))
  {
    if raw == [] then Some([])
    else
      match lookup(InstructorOf(raw[0]))
      case Failed => None
      case Ok(user) =>
        match ResolvedNames(raw[1..], lookup)
        case None => None
        case Some(rest) => Some([InstructorName(user)] + rest)
  }

  /** The class table's loader: fetch the course's classes, look every instructor up (all
      lookups are sent; one failure discards the whole list), join the names in, and resolve
      the table's first and only page. */
  method LoadClasses(courseId: string, listReply: Reply<seq<Record>>, lookup: Value -> Reply<User>)
    returns (requests: seq<Request>, result: TablePage<Record>)
    ensures |requests| == 1 + |ListOrEmpty(listReply)| && requests[0] == ListClasses(courseId)
    ensures forall i :: 0 <= i < |ListOrEmpty(listReply)| ==>
      requests[i + 1] == SearchClassInstructor(InstructorOf(ListOrEmpty(listReply)[i]))
    ensures result.page == 0 && result.totalCount == |result.data|
    ensures result.data == match ResolvedNames(ListOrEmpty(listReply), lookup)
      case Some(names) => JoinInstructors(ListOrEmpty(listReply), names)
      case None => []
  {
    var raw := ListOrEmpty(listReply);
    requests := [ListClasses(courseId)];
    var names: seq<string> := [];
    var failed := false;
    var i := 0;
    while i < |raw|
      invariant 0 <= i <= |raw|
      invariant |requests| == 1 + i && requests[0] == ListClasses(courseId)
      invariant forall j :: 0 <= j < i ==> requests[j + 1] == SearchClassInstructor(InstructorOf(raw[j]))
      invariant failed <==> exists j :: 0 <= j < i && lookup(InstructorOf(raw[j])).Failed?
      invariant !failed ==>
                  (&& |names| == i
                   && forall j :: 0 <= j < i ==> names[j] == InstructorName(lookup(InstructorOf(raw[j])).payload))
    {
      requests := requests + [SearchClassInstructor(InstructorOf(raw[i]))];
      match lookup(InstructorOf(raw[i])) {
        case Failed => failed := true;
        case Ok(user) => names := names + [InstructorName(user)];
      }
      i := i + 1;
    }
    var data: seq<Record>;
    if failed {
      data := [];
    } else {
      assert forall j :: 0 <= j < |raw| ==> lookup(InstructorOf(raw[j])).Ok?;
      var resolved := ResolvedNames(raw, lookup);
      assert resolved.Some? && |resolved.value| == |names|;
      assert resolved.value == names;
      data := JoinInstructors(raw, names);
    }
    result := TablePage(data, 0, |data|);
  }

  /** A failed class query loads an empty table, and so does a single failed lookup. */
  lemma LoadFailures(listReply: Reply<seq<Record>>, lookup: Value -> Reply<User>, i: nat)
    ensures listReply.Failed? ==>
              (ResolvedNames(ListOrEmpty(listReply), lookup) == Some([])
               && JoinInstructors(ListOrEmpty(listReply), []) == [])
    ensures i < |ListOrEmpty(listReply)| && lookup(InstructorOf(ListOrEmpty(listReply)[i])).Failed? ==>
      ResolvedNames(ListOrEmpty(listReply), lookup).None?
  {
  }

  // ---------------------------------------------------------------------
  // Who may change a row

  /** A row may be edited, and deleted (the page applies the same test to both), when its
      instructor created the course or is the current user. */
  function IsEditable(row: Record, course: Course, userId: string): (editable: bool)
    ensures editable <==>
              ("instructorId" in row
               && (row["instructorId"] == Str(course.creator) || row["instructorId"] == Str(userId)))
  {
    StrictEq(Get(row, "instructorId"), Str(course.creator)) || StrictEq(Get(row, "instructorId"), Str(userId))
  }

  // ---------------------------------------------------------------------
  // Row add, update, delete

  /** `{ ...row, vacancies, instructor, courseId, time }`: the row with those four fields set. */
  function WithCreateFields(row: Record, vacancies: Value, instructor: Value, courseId: Value, time: Value)
    : (params: Record)
    ensures params.Keys == row.Keys + {"vacancies", "instructor", "courseId", "time"}
    ensures params["vacancies"] == vacancies && params["instructor"] == instructor
    ensures params["courseId"] == courseId && params["time"] == time
    ensures forall k :: k in row && k != "vacancies" && k != "instructor" && k != "courseId" && k != "time" ==>
      params[k] == row[k]
  {
    row["vacancies" := vacancies]["instructor" := instructor]["courseId" := courseId]["time" := time]
  }

  /** The `params` of the create request: the row as entered, with `vacancies` parsed, the
      current user as instructor, the course's id, and the time as its hour:minute label. */
  function CreateParams(newData: Record, course: Course, userId: string, clock: Clock): Record
    requires Get(newData, "time").DateObj?
  {
    WithCreateFields(newData, ParseInt(Get(newData, "vacancies")), Str(userId), Str(course.id),
                     Str(TimeLabel(clock, Get(newData, "time").stamp)))
  }

  /** What the create request carries: `vacancies` parsed (typed digits become their number),
      the current user as instructor, the course's id, the hour:minute label, and every other
      field as entered. */
  lemma CreateParamsFields(newData: Record, course: Course, userId: string, clock: Clock)
    requires Get(newData, "time").DateObj?
    ensures var params := CreateParams(newData, course, userId, clock);
      && params.Keys == newData.Keys + {"vacancies", "instructor", "courseId", "time"}
      && params["vacancies"] == ParseInt(Get(newData, "vacancies"))
      && (Get(newData, "vacancies").Str? && Get(newData, "vacancies").s != [] && AllDecimal(Get(newData, "vacancies").s) ==>
            params["vacancies"] == Num(DecimalValue(Get(newData, "vacancies").s)))
      && params["instructor"] == Str(userId) && params["courseId"] == Str(course.id)
      && params["time"] == Str(TimeLabel(clock, Get(newData, "time").stamp))
      && forall k :: k in newData && k != "vacancies" && k != "instructor" && k != "courseId" && k != "time" ==>
           params[k] == newData[k]
  {
  }

  /** Adding a row: create the class, then associate it with the current user. Each step
      reports its own outcome. A row whose time is not a `Date` throws while the request is
      being built, so nothing is sent. The create reply's `createClass` may be `null`
      (`Ok(None)`): creation is still reported a success. The association needs the created
      class's id, so without one it is not sent and always reports an error. The handler
      always resolves. */
  method RowAdd(newData: Record, course: Course, userId: string, clock: Clock,
                createReply: Reply<Option<string>>, associateReply: Reply<()>)
    returns (settled: Settlement, requests: seq<Request>, notes: seq<Notification>)
    ensures settled == Resolved
    ensures var created := Get(newData, "time").DateObj? && createReply.Ok?;
      var withId := created && createReply.payload.Some?;
      && |notes| == 2
      && notes[0] == (if created then ClassCreated else ClassCreateFailed)
      && notes[1] == (if withId && associateReply.Ok? then ClassAssociated else ClassAssociateFailed)
      && (withId ==> |requests| == 2 && requests[1] == CreateClassUser(createReply.payload.value, userId))
      && (!withId ==> |requests| <= 1)
    ensures !Get(newData, "time").DateObj? ==> requests == []
    ensures Get(newData, "time").DateObj? ==>
      |requests| >= 1 && requests[0] == CreateClass(CreateParams(newData, course, userId, clock))
  {
    var classCreated: Option<string> := None;
    requests := [];
    if Get(newData, "time").DateObj? {
      requests := [CreateClass(CreateParams(newData, course, userId, clock))];
      match createReply {
        case Ok(created) =>
          classCreated := created;
          notes := [ClassCreated];
        case Failed =>
          notes := [ClassCreateFailed];
      }
    } else {
      notes := [ClassCreateFailed];
    }
    match classCreated {
      case None =>
        notes := notes + [ClassAssociateFailed];
      case Some(classId) =>
        requests := requests + [CreateClassUser(classId, userId)];
        notes := notes + [if associateReply.Ok? then ClassAssociated else ClassAssociateFailed];
    }
    settled := Resolved;
  }

  /** Saving an edited row: send the patch and report its outcome; when building the patch
      throws, the handler rejects without a request or a notification. */
  method RowUpdate(newData: Record, oldData: Record, clock: Clock, reply: Reply<()>)
    returns (settled: Settlement, requests: seq<Request>, notes: seq<Notification>)
    ensures UpdatePatch(newData, oldData, clock).None? ==>
      settled == Rejected && requests == [] && notes == []
    ensures UpdatePatch(newData, oldData, clock).Some? ==>
      && settled == Resolved
      && requests == [UpdateClass(UpdatePatch(newData, oldData, clock).value)]
      && notes == [if reply.Ok? then ClassUpdated else ClassUpdateFailed]
  {
    var patch := UpdatePatch(newData, oldData, clock);
    if patch.None? {
      return Rejected, [], [];
    }
    requests := [UpdateClass(patch.value)];
    notes := [if reply.Ok? then ClassUpdated else ClassUpdateFailed];
    settled := Resolved;
  }

  /** Deleting a row: send its id and report the outcome. The handler always resolves. */
  method RowDelete(oldData: Record, reply: Reply<()>)
    returns (settled: Settlement, request: Request, note: Notification)
    ensures settled == Resolved
    ensures request == RemoveClass(Get(oldData, "id"))
    ensures note == (if reply.Ok? then ClassRemoved else ClassRemoveFailed)
    ensures note.variant == Success <==> reply.Ok?
  {
    request := RemoveClass(Get(oldData, "id"));
    note := if reply.Ok? then ClassRemoved else ClassRemoveFailed;
    settled := Resolved;
  }

  // ---------------------------------------------------------------------
  // The course table: column filters

  /** One active column filter: the column's field and type, and the value typed or picked. */
  datatype ColumnFilter = ColumnFilter(field: string, columnType: string, value: Value)

  datatype FilterValue = FilterValue(columnType: string, value: Value)

  const PrivateDefault := FilterValue("boolean", Str("unchecked"))

  /** `Object.assign({ private: default }, ...entries)`: later entries override earlier ones. */
  function MergedFilters(filters: seq<ColumnFilter>): (merged: map<string, FilterValue>)
    ensures "private" in merged
  {
    if filters == [] then map["private" := PrivateDefault]
    else
      var last := filters[|filters| - 1];
      MergedFilters(filters[..|filters| - 1])[last.field := FilterValue(last.columnType, last.value)]
  }

  /** The last filter on a field, searching from the end. */
  function LastFilterOn(filters: seq<ColumnFilter>, field: string): Option<FilterValue>
  {
    if filters == [] then None
    else if filters[0].field == field && LastFilterOn(filters[1..], field).None? then
      Some(FilterValue(filters[0].columnType, filters[0].value))
    else LastFilterOn(filters[1..], field)
  }

  lemma {:induction false} LastFilterOnAppend(filters: seq<ColumnFilter>, x: ColumnFilter, field: string)
    ensures LastFilterOn(filters + [x], field) ==
      if x.field == field then Some(FilterValue(x.columnType, x.value)) else LastFilterOn(filters, field)
  {
    if filters == [] {
      assert [] + [x] == [x];
    } else {
      assert (filters + [x])[1..] == filters[1..] + [x];
      LastFilterOnAppend(filters[1..], x, field);
    }
  }

  /** A field is in the merged filters when some filter names it, or when it is `private`;
      its value is the last filter's, and `private` defaults to unchecked. */
  lemma {:induction false} MergedFiltersAt(filters: seq<ColumnFilter>, field: string)
    ensures field in MergedFilters(filters) <==> field == "private" || LastFilterOn(filters, field).Some?
    ensures LastFilterOn(filters, field).Some? ==> MergedFilters(filters)[field] == LastFilterOn(filters, field).value
    ensures LastFilterOn(filters, field).None? && field == "private" ==> MergedFilters(filters)[field] == PrivateDefault
  {
    if filters != [] {
      var init, last := filters[..|filters| - 1], filters[|filters| - 1];
      assert filters == init + [last];
      LastFilterOnAppend(init, last, field);
      MergedFiltersAt(init, field);
    }
  }

  /** The merge as the page runs it, one `Object.assign` source at a time into a fresh object. */
  method MergeFilters(filters: seq<ColumnFilter>) returns (merged: map<string, FilterValue>)
    ensures merged == MergedFilters(filters)
    ensures "private" in merged
  {
    merged := map["private" := PrivateDefault];
    for i := 0 to |filters|
      invariant merged == MergedFilters(filters[..i])
    {
      assert filters[..i + 1][..i] == filters[..i];
      merged := merged[filters[i].field := FilterValue(filters[i].columnType, filters[i].value)];
    }
    assert filters[..|filters|] == filters;
    MergedFiltersAt(filters, "private");
  }

  /** The list request asks for private courses exactly when the merged `private` filter is "checked". */
  function PrivateRequested(merged: map<string, FilterValue>): bool
    requires "private" in merged
  {
    StrictEq(merged["private"].value, Str("checked"))
  }

  /** With no `private` filter the request leaves private courses out; with one, it follows its value. */
  lemma PrivateRequestedMeaning(filters: seq<ColumnFilter>)
    ensures "private" in MergedFilters(filters)
    ensures PrivateRequested(MergedFilters(filters)) <==>
      LastFilterOn(filters, "private").Some? && LastFilterOn(filters, "private").value.value == Str("checked")
  {
    MergedFiltersAt(filters, "private");
  }

  /** The values the table's filter row supplies: text for the title, `Date`s for the dates. */
  predicate FiltersWellTyped(merged: map<string, FilterValue>)
  {
    && ("title" in merged ==> merged["title"].value.Str?)
    && ("start" in merged ==> merged["start"].value.DateObj?)
    && ("end" in merged ==> merged["end"].value.DateObj?)
  }

  predicate TitleMatches(c: Course, merged: map<string, FilterValue>)
    requires FiltersWellTyped(merged)
  {
    "title" in merged ==> Contains(Lower(c.title), Lower(merged["title"].value.s))
  }

  predicate StartMatches(c: Course, merged: map<string, FilterValue>, clock: Clock)
    requires FiltersWellTyped(merged)
  {
    "start" in merged ==> clock.day(c.start) == clock.day(merged["start"].value.stamp)
  }

  predicate EndMatches(c: Course, merged: map<string, FilterValue>, clock: Clock)
    requires FiltersWellTyped(merged)
  {
    "end" in merged ==> clock.day(c.end) == clock.day(merged["end"].value.stamp)
  }

  /** The title filter, then the start-day filter, then the end-day filter. */
  function FilteredCourses(courses: seq<Course>, merged: map<string, FilterValue>, clock: Clock): seq<Course>
    requires FiltersWellTyped(merged)
  {
    var byTitle := Filter(courses, c => TitleMatches(c, merged));
    var byStart := Filter(byTitle, c => StartMatches(c, merged, clock));
    Filter(byStart, c => EndMatches(c, merged, clock))
  }

  /** A course stays exactly when its title contains the title filter (case aside) and its start
      and end fall on the filters' days. */
  lemma FilteredCoursesMembership(courses: seq<Course>, merged: map<string, FilterValue>, clock: Clock, c: Course)
    requires FiltersWellTyped(merged)
    ensures c in FilteredCourses(courses, merged, clock) <==>
      c in courses && TitleMatches(c, merged) && StartMatches(c, merged, clock) && EndMatches(c, merged, clock)
  {
    var byTitle := Filter(courses, c => TitleMatches(c, merged));
    var byStart := Filter(byTitle, c => StartMatches(c, merged, clock));
    FilterMembership(courses, c => TitleMatches(c, merged), c);
    FilterMembership(byTitle, c => StartMatches(c, merged, clock), c);
    FilterMembership(byStart, c => EndMatches(c, merged, clock), c);
  }

  /** The filters keep the listed order: filtering a concatenation filters each part in turn. */
  lemma FilteredCoursesKeepsOrder(a: seq<Course>, b: seq<Course>, merged: map<string, FilterValue>, clock: Clock)
    requires FiltersWellTyped(merged)
    ensures FilteredCourses(a + b, merged, clock) == FilteredCourses(a, merged, clock) + FilteredCourses(b, merged, clock)
  {
    var t := c => TitleMatches(c, merged);
    var s := c => StartMatches(c, merged, clock);
    var e := c => EndMatches(c, merged, clock);
    FilterAppend(a, b, t);
    FilterAppend(Filter(a, t), Filter(b, t), s);
    FilterAppend(Filter(Filter(a, t), s), Filter(Filter(b, t), s), e);
  }

  /** Without title, start or end filters every listed course stays. */
  lemma NoFiltersKeepAll(courses: seq<Course>, merged: map<string, FilterValue>, clock: Clock)
    requires "title" !in merged && "start" !in merged && "end" !in merged
    ensures FilteredCourses(courses, merged, clock) == courses
  {
    FilterAllPass(courses, c => TitleMatches(c, merged));
    FilterAllPass(courses, c => StartMatches(c, merged, clock));
    FilterAllPass(courses, c => EndMatches(c, merged, clock));
  }

  /** The course table's loader: merge the column filters, list the courses (private ones only
      when the `private` filter is checked; none when the call fails), filter them, and resolve
      the first and only page. */
  method LoadCourseTable(filters: seq<ColumnFilter>, reply: Reply<seq<Course>>, clock: Clock)
    returns (request: Request, result: TablePage<Course>)
    requires FiltersWellTyped(MergedFilters(filters))
    ensures request == ListAllCourses(PrivateRequested(MergedFilters(filters)))
    ensures result.data == FilteredCourses(ListOrEmpty(reply), MergedFilters(filters), clock)
    ensures result.page == 0 && result.totalCount == |result.data|
  {
    var merged := MergeFilters(filters);
    request := ListAllCourses(PrivateRequested(merged));
    var courses := ListOrEmpty(reply);
    var coursesFiltered := FilteredCourses(courses, merged, clock);
    result := TablePage(coursesFiltered, 0, |coursesFiltered|);
  }
}
