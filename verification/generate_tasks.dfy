/**
 * The ad-hoc background task that turns free-text instructions into a
 * two-level task tree: build a prompt, ask the text generator, check the
 * decoded reply's shape, then create root tasks and their subtasks, linking
 * each subtask to its parent in the dependency table.
 *
 * Every failure (silent skip, provider error, bad reply) happens before the
 * first insert, so the transaction either commits every row or none.
 */
module GenerateTasks {
  import opened Php
  import opened TaskStore

  /** The custom data the job was queued with, after the (int) casts. */
  datatype CustomData = CustomData(projectid: int, userid: int, instructions: string)

  /** What the AI manager's process_action reports. */
  datatype ProviderResponse = ProviderResponse(success: bool, errormessage: string, generatedcontent: Option<string>)

  /** The moodle_exceptions the job throws. */
  datatype Error =
    | ProviderUnavailable(message: string)    // 'aiproviderunavailable', with the provider's message as $a
    | BadResponse                             // 'aibadresponse'

  datatype Outcome = Skipped | Failed(error: Error) | Committed

  // ---------------------------------------------------------------------
  // Before the transaction: input gate, prompt, provider call, shape gate.
  // ---------------------------------------------------------------------

  /** `!empty($data->instructions) ? trim($data->instructions) : ''` */
  function Instructions(data: CustomData): (r: string)
    ensures r == "" <==> EmptyString(data.instructions) || AllTrimChars(data.instructions)
    ensures !EmptyString(data.instructions) ==> r == Trim(data.instructions)
  {
    if EmptyString(data.instructions) then "" else Trim(data.instructions)
  }

  /** The job returns silently: no custom data, a zero project or user, blank
      instructions, an unknown project, or a project without a course module. */
  predicate InputRejected(data: Option<CustomData>, projects: set<int>, withCourseModule: set<int>) {
    || data.None?
    || data.value.projectid == 0
    || data.value.userid == 0
    || Instructions(data.value) == ""
    || data.value.projectid !in projects
    || data.value.projectid !in withCourseModule
  }

  /** The reply format handed to the localised prompt string. */
  const Schema: string :=
    "{" +
    "\n  \"tasks\": [" +
    "\n    {\"title\": \"Task title\", \"description\": \"Optional description\"," +
    "\n     \"subtasks\": [" +
    "\n       {\"title\": \"Subtask title\", \"description\": \"Optional description\"}" +
    "\n     ]" +
    "\n    }" +
    "\n  ]" +
    "\n}"

  /** build_prompt: the localised template (given the schema), a blank line,
      then the instructions. `localise` stands for get_string. */
  function BuildPrompt(localise: string -> string, instructions: string): (r: string)
    ensures |r| == |localise(Schema)| + 2 + |instructions|
    ensures r[..|localise(Schema)|] == localise(Schema)
    ensures r[|localise(Schema)|..|localise(Schema)| + 2] == "\n\n"
    ensures r[|r| - |instructions|..] == instructions
  {
    localise(Schema) + "\n\n" + instructions
  }

  /** `$data['generatedcontent'] ?? ''` */
  function GeneratedText(response: ProviderResponse): string {
    match response.generatedcontent
    case Some(text) => text
    case None => ""
  }

  /** call_ai, given whether the generate_text action class exists and what
      the provider answered. */
  function CallAi(providerInstalled: bool, response: ProviderResponse): (r: Result<string, Error>)
    ensures r.Ok? <==> providerInstalled && response.success && !AllTrimChars(GeneratedText(response))
    ensures r.Ok? ==> r.value == GeneratedText(response) && Trim(r.value) != ""
    ensures !providerInstalled ==> r == Err(ProviderUnavailable(""))
    ensures providerInstalled && !response.success ==> r == Err(ProviderUnavailable(response.errormessage))
    ensures providerInstalled && response.success && AllTrimChars(GeneratedText(response)) ==> r == Err(BadResponse)
  {
    if !providerInstalled then Err(ProviderUnavailable(""))
    else if !response.success then Err(ProviderUnavailable(response.errormessage))
    else
      var text := GeneratedText(response);
      if Trim(text) == "" then Err(BadResponse) else Ok(text)
  }

  /** The shape gate: `tasks` must be a non-empty array; its values are the
      entries the creation loop visits. */
  function PayloadTasks(payload: Json): (r: Option<seq<Json>>)
    ensures r.Some? <==> IsArray(Get(payload, "tasks")) && !Empty(Get(payload, "tasks"))
    ensures r.Some? ==> r.value == Values(Get(payload, "tasks")) && |r.value| > 0
  {
    var tasks := Get(payload, "tasks");
    if Empty(tasks) || !IsArray(tasks) then None else Some(Values(tasks))
  }

  /** An empty task list is refused like a missing one, not committed as
      zero tasks. */
  lemma EmptyTaskListRejected()
    ensures PayloadTasks(JMap([("tasks", JList([]))])) == None
    ensures PayloadTasks(JMap([("tasks", JMap([]))])) == None
    ensures PayloadTasks(JMap([("other", JList([JNull]))])) == None
    ensures PayloadTasks(JNull) == None
  {
  }

  /** Everything execute decides before opening the transaction. */
  datatype Gate = Skip | Fail(error: Error) | Proceed(projectid: int, userid: int, entries: seq<Json>)

  /** The decision, with json_decode as `decode` and the provider's answer to a
      prompt as `respond`. */
  function Prepare(data: Option<CustomData>, projects: set<int>, withCourseModule: set<int>,
                   localise: string -> string, providerInstalled: bool,
                   respond: string -> ProviderResponse, decode: string -> Json): (g: Gate)
    ensures g.Skip? <==> InputRejected(data, projects, withCourseModule)
    ensures g.Proceed? ==> data.Some? && g.projectid == data.value.projectid && g.userid == data.value.userid
    ensures g.Proceed? ==> g.projectid != 0 && g.userid != 0 && g.projectid in projects && |g.entries| > 0
    ensures g.Proceed? ==> CallAi(providerInstalled, respond(BuildPrompt(localise, Instructions(data.value)))).Ok?
    ensures g == Fail(BadResponse) || g.Proceed? ==> providerInstalled
    ensures !InputRejected(data, projects, withCourseModule) ==>
      var c := CallAi(providerInstalled, respond(BuildPrompt(localise, Instructions(data.value))));
      && (c.Err? ==> g == Fail(c.error))
      && (c.Ok? ==> (g == Fail(BadResponse) <==>
                       Empty(Get(decode(c.value), "tasks")) || !IsArray(Get(decode(c.value), "tasks"))))
      && (g.Proceed? ==> c.Ok? && g.entries == Values(Get(decode(c.value), "tasks")))
      && (c.Ok? && IsArray(Get(decode(c.value), "tasks")) && !Empty(Get(decode(c.value), "tasks")) ==>
            g == Proceed(data.value.projectid, data.value.userid, Values(Get(decode(c.value), "tasks"))))
  {
    if InputRejected(data, projects, withCourseModule) then Skip
    else
      var prompt := BuildPrompt(localise, Instructions(data.value));
      match CallAi(providerInstalled, respond(prompt))
      case Err(e) => Fail(e)
      case Ok(text) =>
        match PayloadTasks(decode(text))
        case None => Fail(BadResponse)
        case Some(entries) => Proceed(data.value.projectid, data.value.userid, entries)
  }

  // ---------------------------------------------------------------------
  // create_task_from_payload
  // ---------------------------------------------------------------------

  /** `!empty($taskdata['title']) ? trim((string)$taskdata['title']) : ''` */
  function TitleOf(taskdata: Json): (r: string)
    ensures r != [] ==> !IsTrimChar(r[0]) && !IsTrimChar(r[|r| - 1])
    ensures r == "" <==> Empty(Get(taskdata, "title")) || AllTrimChars(ToPhpString(Get(taskdata, "title")))
    ensures !Empty(Get(taskdata, "title")) ==> r == Trim(ToPhpString(Get(taskdata, "title")))
  {
    var v := Get(taskdata, "title");
    if Empty(v) then "" else Trim(ToPhpString(v))
  }

  /** A title of "0" counts as missing; one with spaces round it does not. */
  lemma ZeroTitleIsEmpty()
    ensures TitleOf(JMap([("title", JStr("0"))])) == ""
    ensures TitleOf(JMap([("title", JStr(" 0 "))])) == "0"
    ensures TitleOf(JMap([("title", JInt(0))])) == ""
  {
    assert Get(JMap([("title", JStr("0"))]), "title") == JStr("0");
    assert Get(JMap([("title", JInt(0))]), "title") == JInt(0);
    var padded := JMap([("title", JStr(" 0 "))]);
    assert Get(padded, "title") == JStr(" 0 ");
    assert !Empty(JStr(" 0 "));
    PaddedZeroTrims();
  }

  lemma PaddedZeroTrims()
    ensures Trim(" 0 ") == "0"
  {
    assert TrimLeft(" 0 ") == "0 " by { assert " 0 "[1..] == "0 "; }
    assert TrimRight("0 ") == "0" by { assert "0 "[..1] == "0"; }
  }

  /** `!empty($taskdata['description']) ? (string)$taskdata['description'] : ''` */
  function DescriptionOf(taskdata: Json): string {
    var v := Get(taskdata, "description");
    if Empty(v) then "" else ToPhpString(v)
  }

  /** The row create_task_from_payload builds; the id is set by the insert. */
  function NewRecord(projectid: int, userid: int, fatherid: int, ordering: int,
                     title: string, description: string, now: int): Task {
    Task(
      id := 0, projectid := projectid, groupid := 0, fatherid := fatherid, ordering := ordering,
      owner := userid, assignee := userid, userid := userid, lastuserid := userid,
      created := now, modified := now,
      title := title, description := description, descriptionformat := FORMAT_HTML,
      worktype := "", status := "",
      costrate := 0, planned := 0, done := 0, used := 0, quoted := 0, spent := 0, risk := 0,
      milestoneid := 0,
      taskstartenable := 0, taskstart := 0, taskendenable := 0, taskend := 0)
  }

  /** What every generated row has in common: owned by, assigned to and last
      touched by the requesting user, ungrouped, open, with no schedule and
      zeroed tracking figures, created and modified at the same instant. */
  predicate GeneratedRecord(t: Task, projectid: int, userid: int, now: int) {
    && t.projectid == projectid && t.groupid == 0
    && t.owner == userid && t.assignee == userid && t.userid == userid && t.lastuserid == userid
    && t.title != "" && t.status == "" && t.worktype == "" && t.descriptionformat == FORMAT_HTML
    && t.done == 0 && t.costrate == 0 && t.planned == 0 && t.used == 0
    && t.quoted == 0 && t.spent == 0 && t.risk == 0 && t.milestoneid == 0
    && t.taskstartenable == 0 && t.taskstart == 0 && t.taskendenable == 0 && t.taskend == 0
    && t.created == now && t.modified == now
  }

  /** The dependency table after the check-then-insert of the edge from
      the father (slave) to the new child (master); a root links nothing. */
  function Link(deps: seq<Dependency>, projectid: int, fatherid: int, id: int): seq<Dependency> {
    if fatherid != 0 && !DependencyExists(deps, projectid, fatherid, id)
    then deps + [Dependency(projectid, 0, fatherid, id)]
    else deps
  }

  /** create_task_from_payload on the tables: the new tables and the id it
      returns (0, with nothing inserted, when the title is empty). */
  function CreateTask(s: Tables, projectid: int, userid: int, taskdata: Json, fatherid: int, now: int): (r: (Tables, int))
    requires WellFormed(s)
    ensures WellFormed(r.0)
    ensures r.1 == 0 <==> TitleOf(taskdata) == ""
    ensures r.1 == 0 ==> r.0 == s
  {
    var title := TitleOf(taskdata);
    if title == "" then (s, 0)
    else
      var id := s.nextId;
      var ordering := MaxOrdering(s.tasks, projectid, 0, fatherid) + 1;
      var record := NewRecord(projectid, userid, fatherid, ordering, title, DescriptionOf(taskdata), now);
      var s1 := Inserted(s, record);
      InsertKeepsWellFormed(s, record, Link(s.deps, projectid, fatherid, id));
      (Tables(s1.tasks, Link(s.deps, projectid, fatherid, id), s1.nextId), id)
  }

  /** A created task is appended under the next id, with the trimmed title,
      the description, the fixed defaults of a generated record, and an
      ordering one above the largest of its bucket, so above every sibling. */
  lemma CreateTaskRow(s: Tables, projectid: int, userid: int, taskdata: Json, fatherid: int, now: int)
    requires WellFormed(s)
    ensures var r := CreateTask(s, projectid, userid, taskdata, fatherid, now);
      r.1 != 0 ==>
      && r.1 == s.nextId && r.0.nextId == s.nextId + 1
      && |r.0.tasks| == |s.tasks| + 1 && r.0.tasks[..|s.tasks|] == s.tasks
      && var t := r.0.tasks[|s.tasks|];
         && t.id == r.1 && t.fatherid == fatherid
         && t.title == TitleOf(taskdata) && t.description == DescriptionOf(taskdata)
         && GeneratedRecord(t, projectid, userid, now)
         && t.ordering == MaxOrdering(s.tasks, projectid, 0, fatherid) + 1
         && (forall i :: 0 <= i < |s.tasks| && InBucket(s.tasks[i], projectid, 0, fatherid) ==> s.tasks[i].ordering < t.ordering)
  {
    var r := CreateTask(s, projectid, userid, taskdata, fatherid, now);
    if r.1 != 0 {
      assert r.0.tasks[..|s.tasks|] == s.tasks;
    }
  }

  /** A root adds no edge. A created child is linked to its father once: the
      edge is added unless that triple is already there, so edges stay
      unique. */
  lemma CreateTaskLinks(s: Tables, projectid: int, userid: int, taskdata: Json, fatherid: int, now: int)
    requires WellFormed(s)
    ensures var r := CreateTask(s, projectid, userid, taskdata, fatherid, now);
      && (fatherid == 0 || r.1 == 0 ==> r.0.deps == s.deps)
      && (fatherid != 0 && r.1 != 0 ==> DependencyExists(r.0.deps, projectid, fatherid, r.1))
      && (fatherid != 0 && r.1 != 0 ==>
            r.0.deps == s.deps || r.0.deps == s.deps + [Dependency(projectid, 0, fatherid, r.1)])
      && (DependenciesUnique(s.deps) ==> DependenciesUnique(r.0.deps))
  {
    var r := CreateTask(s, projectid, userid, taskdata, fatherid, now);
    if r.1 != 0 && r.0.deps != s.deps {
      var d := Dependency(projectid, 0, fatherid, r.1);
      InsertIfAbsentKeepsUnique(s.deps, d);
      assert r.0.deps[|s.deps|] == d;
    }
  }

  /** The record create_task_from_payload builds for a non-blank title,
      before the insert gives it an id. */
  function RecordFor(s: Tables, projectid: int, userid: int, taskdata: Json, fatherid: int, now: int): Task {
    NewRecord(projectid, userid, fatherid, MaxOrdering(s.tasks, projectid, 0, fatherid) + 1,
              TitleOf(taskdata), DescriptionOf(taskdata), now)
  }

  /** A non-blank title: the record is inserted and then linked. */
  lemma CreateTaskInserts(s: Tables, projectid: int, userid: int, taskdata: Json, fatherid: int, now: int)
    requires WellFormed(s) && TitleOf(taskdata) != ""
    ensures var s1 := Inserted(s, RecordFor(s, projectid, userid, taskdata, fatherid, now));
      CreateTask(s, projectid, userid, taskdata, fatherid, now)
        == (Tables(s1.tasks, Link(s.deps, projectid, fatherid, s.nextId), s1.nextId), s.nextId)
  {
  }

  /** create_task_from_payload, run against the store. */
  method CreateTaskFromPayload(store: Store, projectid: int, userid: int, taskdata: Json, fatherid: int, now: int)
    returns (id: int)
    requires store.Valid() && IsArray(taskdata)
    modifies store
    ensures store.Valid()
    ensures (store.State(), id) == CreateTask(old(store.State()), projectid, userid, taskdata, fatherid, now)
  {
    ghost var s0 := store.State();
    var title := TitleOf(taskdata);
    if title == "" {
      return 0;
    }
    var description := DescriptionOf(taskdata);
    var groupid := 0;
    var ordering := MaxOrdering(store.tasks, projectid, groupid, fatherid) + 1;
    var record := NewRecord(projectid, userid, fatherid, ordering, title, description, now);
    assert record == RecordFor(s0, projectid, userid, taskdata, fatherid, now);
    CreateTaskInserts(s0, projectid, userid, taskdata, fatherid, now);
    id := store.InsertTask(record);
    ghost var deps := store.deps;
    if fatherid != 0 {
      if !store.DependencyRecordExists(projectid, fatherid, id) {
        store.InsertDependency(Dependency(projectid, groupid, fatherid, id));
      }
    }
    assert store.deps == Link(deps, projectid, fatherid, id);
    assert store.State() == Tables(Inserted(s0, record).tasks, Link(s0.deps, projectid, fatherid, id), Inserted(s0, record).nextId);
  }

  // ---------------------------------------------------------------------
  // The creation loops of execute, on the tables.
  // ---------------------------------------------------------------------

  /** The inner foreach: each array entry becomes a child of parentid. */
  function MaterialiseSubtasks(s: Tables, subtasks: seq<Json>, projectid: int, userid: int, parentid: int, now: int): (r: Tables)
    requires WellFormed(s)
    ensures WellFormed(r)
  {
    if subtasks == [] then s
    else
      var before := MaterialiseSubtasks(s, subtasks[..|subtasks| - 1], projectid, userid, parentid, now);
      var entry := subtasks[|subtasks| - 1];
      if IsArray(entry) then CreateTask(before, projectid, userid, entry, parentid, now).0 else before
  }

  /** One pass of the outer foreach: create the root, then its subtasks when
      the root was created and carries a non-empty `subtasks` array. */
  function MaterialiseRoot(s: Tables, entry: Json, projectid: int, userid: int, now: int): (r: Tables)
    requires WellFormed(s)
    ensures WellFormed(r)
  {
    if !IsArray(entry) then s
    else
      var (s1, parentid) := CreateTask(s, projectid, userid, entry, 0, now);
      var subtasks := Get(entry, "subtasks");
      if parentid == 0 || Empty(subtasks) || !IsArray(subtasks) then s1
      else MaterialiseSubtasks(s1, Values(subtasks), projectid, userid, parentid, now)
  }

  /** The outer foreach over the payload's task entries. */
  function Materialise(s: Tables, entries: seq<Json>, projectid: int, userid: int, now: int): (r: Tables)
    requires WellFormed(s)
    ensures WellFormed(r)
  {
    if entries == [] then s
    else MaterialiseRoot(Materialise(s, entries[..|entries| - 1], projectid, userid, now), entries[|entries| - 1], projectid, userid, now)
  }

  /** The inner foreach of execute: each array entry becomes a child of
      parentid. */
  method CreateSubtasks(store: Store, children: seq<Json>, projectid: int, userid: int, parentid: int, now: int)
    requires store.Valid()
    modifies store
    ensures store.Valid()
    ensures store.State() == MaterialiseSubtasks(old(store.State()), children, projectid, userid, parentid, now)
  {
    ghost var s0 := store.State();
    var j := 0;
    while j < |children|
      invariant 0 <= j <= |children|
      invariant store.Valid()
      invariant store.State() == MaterialiseSubtasks(s0, children[..j], projectid, userid, parentid, now)
    {
      assert children[..j + 1][..j] == children[..j];
      if IsArray(children[j]) {
        var _ := CreateTaskFromPayload(store, projectid, userid, children[j], parentid, now);
      }
      j := j + 1;
    }
    assert children[..j] == children;
  }

  /** One pass of the outer foreach: a root task, then its subtasks. */
  method CreateRoot(store: Store, taskdata: Json, projectid: int, userid: int, now: int)
    requires store.Valid()
    modifies store
    ensures store.Valid()
    ensures store.State() == MaterialiseRoot(old(store.State()), taskdata, projectid, userid, now)
  {
    if !IsArray(taskdata) {
      return;
    }
    var parentid := CreateTaskFromPayload(store, projectid, userid, taskdata, 0, now);
    var subtasks := Get(taskdata, "subtasks");
    if parentid == 0 || Empty(subtasks) || !IsArray(subtasks) {
      return;
    }
    CreateSubtasks(store, Values(subtasks), projectid, userid, parentid, now);
  }

  /** The body of the transaction in execute: the outer foreach over the
      payload's task entries. */
  method CreateTree(store: Store, entries: seq<Json>, projectid: int, userid: int, now: int)
    requires store.Valid()
    modifies store
    ensures store.Valid()
    ensures store.State() == Materialise(old(store.State()), entries, projectid, userid, now)
  {
    ghost var s0 := store.State();
    var i := 0;
    while i < |entries|
      invariant 0 <= i <= |entries|
      invariant store.Valid()
      invariant store.State() == Materialise(s0, entries[..i], projectid, userid, now)
    {
      assert entries[..i + 1][..i] == entries[..i];
      CreateRoot(store, entries[i], projectid, userid, now);
      i := i + 1;
    }
    assert entries[..i] == entries;
  }

  /** execute. The store changes only when the gate lets the job through,
      and then exactly as Materialise says. */
  method Execute(store: Store, data: Option<CustomData>, projects: set<int>, withCourseModule: set<int>,
                 localise: string -> string, providerInstalled: bool,
                 respond: string -> ProviderResponse, decode: string -> Json, now: int)
    returns (outcome: Outcome)
    requires store.Valid()
    modifies store
    ensures store.Valid()
    ensures var g := Prepare(data, projects, withCourseModule, localise, providerInstalled, respond, decode);
      && (g.Skip? ==> outcome == Skipped)
      && (g.Fail? ==> outcome == Failed(g.error))
      && (g.Proceed? ==> outcome == Committed
                         && store.State() == Materialise(old(store.State()), g.entries, g.projectid, g.userid, now))
    ensures !outcome.Committed? ==> store.State() == old(store.State())
  {
    if data.None? {
      return Skipped;
    }
    var projectid := data.value.projectid;
    var userid := data.value.userid;
    var instructions := Instructions(data.value);
    if projectid == 0 || userid == 0 || instructions == "" {
      return Skipped;
    }
    if projectid !in projects || projectid !in withCourseModule {
      return Skipped;
    }

    var prompt := BuildPrompt(localise, instructions);
    var response := CallAi(providerInstalled, respond(prompt));
    if response.Err? {
      return Failed(response.error);
    }
    var payload := PayloadTasks(decode(response.value));
    if payload.None? {
      return Failed(BadResponse);
    }
    var entries := payload.value;

    CreateTree(store, entries, projectid, userid, now);
    return Committed;
  }

  // ---------------------------------------------------------------------
  // What one run adds to the tables.
  // ---------------------------------------------------------------------

  /** Ids of the rows from position `from` on. */
  function NewIds(tasks: seq<Task>, from: nat): set<int> {
    set i | from <= i < |tasks| :: tasks[i].id
  }

  /** Ids of the root rows (fatherid 0) from position `from` on. */
  function NewRootIds(tasks: seq<Task>, from: nat): set<int> {
    set i | from <= i < |tasks| && tasks[i].fatherid == 0 :: tasks[i].id
  }

  /** Every row from position `from` on ranks strictly after each earlier
      row of its bucket. */
  predicate RanksAfter(tasks: seq<Task>, from: nat) {
    forall i, j :: 0 <= i < j < |tasks| && from <= j && SameBucket(tasks[i], tasks[j]) ==> tasks[i].ordering < tasks[j].ordering
  }

  /** s' only appends to s's tables. */
  predicate Extends(s: Tables, s': Tables) {
    && |s.tasks| <= |s'.tasks| && s'.tasks[..|s.tasks|] == s.tasks
    && |s.deps| <= |s'.deps| && s'.deps[..|s.deps|] == s.deps
    && s.nextId <= s'.nextId
  }

  /** An edge a run adds: in the job's project, slave a root of the run,
      master a row of the run whose father that root is. */
  predicate EdgeOfRun(d: Dependency, tasks: seq<Task>, from: nat, projectid: int) {
    && d.projectid == projectid && d.groupid == 0
    && d.slave in NewRootIds(tasks, from)
    && d.master in NewIds(tasks, from)
    && forall i :: from <= i < |tasks| && tasks[i].id == d.master ==> tasks[i].fatherid == d.slave
  }

  /** What a run of the job for (projectid, userid) at time now adds on top
      of s, as seen in s'. */
  predicate GeneratedFrom(s: Tables, s': Tables, projectid: int, userid: int, now: int) {
    && Extends(s, s')
    && (forall i :: |s.tasks| <= i < |s'.tasks| ==>
          GeneratedRecord(s'.tasks[i], projectid, userid, now) && s.nextId <= s'.tasks[i].id)
    && (forall i :: |s.tasks| <= i < |s'.tasks| ==>
          s'.tasks[i].fatherid == 0 || s'.tasks[i].fatherid in NewRootIds(s'.tasks, |s.tasks|))
    && (forall k :: |s.deps| <= k < |s'.deps| ==> EdgeOfRun(s'.deps[k], s'.tasks, |s.tasks|, projectid))
    && RanksAfter(s'.tasks, |s.tasks|)
    && (DependenciesUnique(s.deps) ==> DependenciesUnique(s'.deps))
  }

  lemma ExtendsTransitive(a: Tables, b: Tables, c: Tables)
    requires Extends(a, b) && Extends(b, c)
    ensures Extends(a, c)
  {
    assert c.tasks[..|a.tasks|] == c.tasks[..|b.tasks|][..|a.tasks|];
    assert c.deps[..|a.deps|] == c.deps[..|b.deps|][..|a.deps|];
  }

  lemma NewIdsGrow(a: seq<Task>, b: seq<Task>, from: nat)
    requires from <= |a| <= |b| && b[..|a|] == a
    ensures NewIds(a, from) <= NewIds(b, from)
    ensures NewRootIds(a, from) <= NewRootIds(b, from)
  {
    forall x | x in NewIds(a, from) ensures x in NewIds(b, from) {
      var i :| from <= i < |a| && a[i].id == x;
      assert b[i] == a[i];
    }
    forall x | x in NewRootIds(a, from) ensures x in NewRootIds(b, from) {
      var i :| from <= i < |a| && a[i].fatherid == 0 && a[i].id == x;
      assert b[i] == a[i];
    }
  }

  /** An edge of the run stays one when a row with a fresh id is appended. */
  lemma EdgeOfRunAppend(d: Dependency, tasks: seq<Task>, t: Task, from: nat, projectid: int, bound: int)
    requires from <= |tasks|
    requires EdgeOfRun(d, tasks, from, projectid)
    requires forall i :: 0 <= i < |tasks| ==> tasks[i].id < bound
    requires bound <= t.id
    ensures EdgeOfRun(d, tasks + [t], from, projectid)
  {
    var r := tasks + [t];
    NewIdsGrow(tasks, r, from);
    var j :| from <= j < |tasks| && tasks[j].id == d.master;
    forall i | from <= i < |r| && r[i].id == d.master ensures r[i].fatherid == d.slave {
      if i < |tasks| {
        assert r[i] == tasks[i];
      }
    }
  }

  /** The rows of a run, after one more generated row is appended. */
  lemma RowsStep(s0: Tables, s: Tables, r: Tables, t: Task, projectid: int, userid: int, now: int)
    requires GeneratedFrom(s0, s, projectid, userid, now)
    requires r.tasks == s.tasks + [t]
    requires GeneratedRecord(t, projectid, userid, now) && s.nextId <= t.id
    requires t.fatherid == 0 || t.fatherid in NewRootIds(s.tasks, |s0.tasks|)
    ensures forall i :: |s0.tasks| <= i < |r.tasks| ==>
              GeneratedRecord(r.tasks[i], projectid, userid, now) && s0.nextId <= r.tasks[i].id
    ensures forall i :: |s0.tasks| <= i < |r.tasks| ==>
              r.tasks[i].fatherid == 0 || r.tasks[i].fatherid in NewRootIds(r.tasks, |s0.tasks|)
  {
    var n0 := |s0.tasks|;
    NewIdsGrow(s.tasks, r.tasks, n0);
    if t.fatherid == 0 {
      assert r.tasks[|s.tasks|] == t;
      assert t.id in NewRootIds(r.tasks, n0);
    }
    forall i | n0 <= i < |r.tasks|
      ensures GeneratedRecord(r.tasks[i], projectid, userid, now) && s0.nextId <= r.tasks[i].id
      ensures r.tasks[i].fatherid == 0 || r.tasks[i].fatherid in NewRootIds(r.tasks, n0)
    {
      if i < |s.tasks| {
        assert r.tasks[i] == s.tasks[i];
      }
    }
  }

  /** The edges of a run, after a row with a fresh id is appended and at most
      one edge to it from its father. */
  lemma EdgesStep(s0: Tables, s: Tables, r: Tables, t: Task, projectid: int, userid: int, now: int)
    requires WellFormed(s) && GeneratedFrom(s0, s, projectid, userid, now)
    requires r.tasks == s.tasks + [t] && t.id == s.nextId
    requires r.deps == s.deps || (r.deps == s.deps + [Dependency(projectid, 0, t.fatherid, t.id)]
                                  && t.fatherid in NewRootIds(s.tasks, |s0.tasks|))
    ensures forall k :: |s0.deps| <= k < |r.deps| ==> EdgeOfRun(r.deps[k], r.tasks, |s0.tasks|, projectid)
  {
    var n0 := |s0.tasks|;
    NewIdsGrow(s.tasks, r.tasks, n0);
    forall k | |s0.deps| <= k < |r.deps| ensures EdgeOfRun(r.deps[k], r.tasks, n0, projectid) {
      if k < |s.deps| {
        assert r.deps[k] == s.deps[k];
        EdgeOfRunAppend(s.deps[k], s.tasks, t, n0, projectid, s.nextId);
      } else {
        assert r.tasks[|s.tasks|] == t;
        assert t.id in NewIds(r.tasks, n0);
        forall i | n0 <= i < |r.tasks| && r.tasks[i].id == t.id ensures r.tasks[i].fatherid == t.fatherid {
          assert i == |s.tasks| by {
            assert forall k :: 0 <= k < |s.tasks| ==> r.tasks[k].id < t.id;
          }
        }
      }
    }
  }

  /** Ranks of a run, after a row ranked above its whole bucket is appended. */
  lemma RanksStep(tasks: seq<Task>, t: Task, from: nat)
    requires from <= |tasks| && RanksAfter(tasks, from)
    requires forall i :: 0 <= i < |tasks| && InBucket(tasks[i], t.projectid, t.groupid, t.fatherid) ==> tasks[i].ordering < t.ordering
    ensures RanksAfter(tasks + [t], from)
  {
    var r := tasks + [t];
    forall i, j | 0 <= i < j < |r| && from <= j && SameBucket(r[i], r[j])
      ensures r[i].ordering < r[j].ordering
    {
      assert r[i] == tasks[i];
      if j < |tasks| {
        assert r[j] == tasks[j];
      }
    }
  }

  /** Appending one generated row under the counter's id, ranked above its
      siblings and linked at most once to a root of the run, keeps the run's
      facts. */
  lemma AppendStep(s0: Tables, s: Tables, r: Tables, t: Task, projectid: int, userid: int, now: int)
    requires WellFormed(s) && GeneratedFrom(s0, s, projectid, userid, now)
    requires r.tasks == s.tasks + [t] && t.id == s.nextId && r.nextId == s.nextId + 1
    requires GeneratedRecord(t, projectid, userid, now)
    requires t.fatherid == 0 || t.fatherid in NewRootIds(s.tasks, |s0.tasks|)
    requires r.deps == s.deps || (t.fatherid != 0 && r.deps == s.deps + [Dependency(projectid, 0, t.fatherid, t.id)])
    requires forall i :: 0 <= i < |s.tasks| && InBucket(s.tasks[i], t.projectid, t.groupid, t.fatherid) ==> s.tasks[i].ordering < t.ordering
    requires DependenciesUnique(s.deps) ==> DependenciesUnique(r.deps)
    ensures Extends(s, r) && GeneratedFrom(s0, r, projectid, userid, now)
  {
    assert r.tasks[..|s.tasks|] == s.tasks;
    assert r.deps[..|s.deps|] == s.deps;
    ExtendsTransitive(s0, s, r);
    RowsStep(s0, s, r, t, projectid, userid, now);
    EdgesStep(s0, s, r, t, projectid, userid, now);
    RanksStep(s.tasks, t, |s0.tasks|);
  }

  /** One create_task_from_payload call inside a run keeps the run's facts,
      provided a child's father is a root of this run. */
  lemma CreateStep(s0: Tables, s: Tables, projectid: int, userid: int, e: Json, fatherid: int, now: int)
    requires WellFormed(s) && GeneratedFrom(s0, s, projectid, userid, now)
    requires fatherid == 0 || fatherid in NewRootIds(s.tasks, |s0.tasks|)
    ensures Extends(s, CreateTask(s, projectid, userid, e, fatherid, now).0)
    ensures GeneratedFrom(s0, CreateTask(s, projectid, userid, e, fatherid, now).0, projectid, userid, now)
  {
    var (r, id) := CreateTask(s, projectid, userid, e, fatherid, now);
    CreateTaskRow(s, projectid, userid, e, fatherid, now);
    CreateTaskLinks(s, projectid, userid, e, fatherid, now);
    if id != 0 {
      var n := |s.tasks|;
      var t := r.tasks[n];
      assert r.tasks == s.tasks + [t] by { assert r.tasks == r.tasks[..n] + [t]; }
      AppendStep(s0, s, r, t, projectid, userid, now);
    }
  }

  lemma {:induction false} SubtasksGenerated(s0: Tables, s: Tables, children: seq<Json>, projectid: int, userid: int, parentid: int, now: int)
    requires WellFormed(s) && GeneratedFrom(s0, s, projectid, userid, now)
    requires parentid in NewRootIds(s.tasks, |s0.tasks|)
    ensures Extends(s, MaterialiseSubtasks(s, children, projectid, userid, parentid, now))
    ensures GeneratedFrom(s0, MaterialiseSubtasks(s, children, projectid, userid, parentid, now), projectid, userid, now)
  {
    if children != [] {
      var init := children[..|children| - 1];
      var before := MaterialiseSubtasks(s, init, projectid, userid, parentid, now);
      SubtasksGenerated(s0, s, init, projectid, userid, parentid, now);
      if IsArray(children[|children| - 1]) {
        NewIdsGrow(s.tasks, before.tasks, |s0.tasks|);
        CreateStep(s0, before, projectid, userid, children[|children| - 1], parentid, now);
        ExtendsTransitive(s, before, MaterialiseSubtasks(s, children, projectid, userid, parentid, now));
      }
    }
  }

  lemma RootGenerated(s0: Tables, s: Tables, entry: Json, projectid: int, userid: int, now: int)
    requires WellFormed(s) && GeneratedFrom(s0, s, projectid, userid, now)
    ensures GeneratedFrom(s0, MaterialiseRoot(s, entry, projectid, userid, now), projectid, userid, now)
  {
    if IsArray(entry) {
      var (s1, parentid) := CreateTask(s, projectid, userid, entry, 0, now);
      CreateStep(s0, s, projectid, userid, entry, 0, now);
      CreateTaskRow(s, projectid, userid, entry, 0, now);
      var subtasks := Get(entry, "subtasks");
      if parentid != 0 && !Empty(subtasks) && IsArray(subtasks) {
        assert s1.tasks[|s.tasks|].id == parentid;
        assert parentid in NewRootIds(s1.tasks, |s0.tasks|);
        SubtasksGenerated(s0, s1, Values(subtasks), projectid, userid, parentid, now);
      }
    }
  }

  /** A committed run only appends: every row it adds is a generated record
      with a fresh id, a root or the child of a root of the same run; every
      edge it adds links such a child (master) to its root (slave); each new
      row ranks after its earlier siblings; and edges stay unique. */
  lemma {:induction false} MaterialiseGenerated(s: Tables, entries: seq<Json>, projectid: int, userid: int, now: int)
    requires WellFormed(s)
    ensures GeneratedFrom(s, Materialise(s, entries, projectid, userid, now), projectid, userid, now)
  {
    if entries == [] {
      assert s.tasks[..|s.tasks|] == s.tasks && s.deps[..|s.deps|] == s.deps;
    } else {
      var before := Materialise(s, entries[..|entries| - 1], projectid, userid, now);
      MaterialiseGenerated(s, entries[..|entries| - 1], projectid, userid, now);
      RootGenerated(s, before, entries[|entries| - 1], projectid, userid, now);
    }
  }

  lemma TrimmedAlready(t: string)
    requires t != [] && !IsTrimChar(t[0]) && !IsTrimChar(t[|t| - 1])
    ensures Trim(t) == t
  {
    assert TrimLeft(t) == t;
  }

  /** A task entry with a plain string title. */
  function Titled(title: string, rest: seq<(string, Json)>): Json {
    JMap([("title", JStr(title))] + rest)
  }

  lemma TitledTitle(title: string, rest: seq<(string, Json)>)
    requires title != [] && title != "0" && !IsTrimChar(title[0]) && !IsTrimChar(title[|title| - 1])
    ensures TitleOf(Titled(title, rest)) == title
  {
    assert Get(Titled(title, rest), "title") == JStr(title);
    TrimmedAlready(title);
  }

  /** The entry { "title": "A", "subtasks": [ {"title": "A1"}, {"title": ""} ] }. */
  function ExampleEntry(): Json {
    Titled("A", [("subtasks", JList([Titled("A1", []), Titled("", [])]))])
  }

  lemma ExampleEntryShape()
    ensures TitleOf(ExampleEntry()) == "A"
    ensures Get(ExampleEntry(), "subtasks") == JList([Titled("A1", []), Titled("", [])])
    ensures TitleOf(Titled("A1", [])) == "A1"
    ensures TitleOf(Titled("", [])) == ""
  {
    var a := ExampleEntry();
    TitledTitle("A", [("subtasks", JList([Titled("A1", []), Titled("", [])]))]);
    TitledTitle("A1", []);
    assert Get(Titled("", []), "title") == JStr("");
    assert a.fields[0].0 != "subtasks" by { assert a.fields[0].0[0] != "subtasks"[0]; }
    assert a.fields[1..] == [("subtasks", JList([Titled("A1", []), Titled("", [])]))];
  }

  /** On empty tables, the root gets id 1 and the child "A1" id 2 under it,
      with one edge from the root (slave) to the child (master). */
  lemma ExampleSteps(projectid: int, userid: int, now: int)
    ensures
      var (s1, pid) := CreateTask(Tables([], [], 1), projectid, userid, ExampleEntry(), 0, now);
      var s2 := CreateTask(s1, projectid, userid, Titled("A1", []), 1, now).0;
      && pid == 1 && s1.deps == []
      && |s2.tasks| == 2
      && s2.tasks[0].id == 1 && s2.tasks[0].title == "A" && s2.tasks[0].fatherid == 0
      && s2.tasks[1].id == 2 && s2.tasks[1].title == "A1" && s2.tasks[1].fatherid == 1
      && s2.deps == [Dependency(projectid, 0, 1, 2)]
  {
    ExampleEntryShape();
  }

  /** The reply's task list is the one entry. */
  lemma ExamplePayload()
    ensures PayloadTasks(JMap([("tasks", JList([ExampleEntry()]))])) == Some([ExampleEntry()])
  {
  }

  /** The blank subtask adds nothing. */
  lemma ExampleBlankSubtask(s: Tables, projectid: int, userid: int, now: int)
    requires WellFormed(s)
    ensures MaterialiseSubtasks(s, [Titled("A1", []), Titled("", [])], projectid, userid, 1, now)
         == MaterialiseSubtasks(s, [Titled("A1", [])], projectid, userid, 1, now)
  {
    ExampleEntryShape();
    var xs := [Titled("A1", []), Titled("", [])];
    assert xs[..1] == [Titled("A1", [])];
    assert CreateTask(MaterialiseSubtasks(s, [Titled("A1", [])], projectid, userid, 1, now), projectid, userid, Titled("", []), 1, now).1 == 0;
  }

  /** A created root with a non-empty subtasks array: its children follow. */
  lemma RootThenSubtasks(s: Tables, entry: Json, projectid: int, userid: int, now: int)
    requires WellFormed(s) && IsArray(entry)
    requires CreateTask(s, projectid, userid, entry, 0, now).1 != 0
    requires !Empty(Get(entry, "subtasks")) && IsArray(Get(entry, "subtasks"))
    ensures var (s1, parentid) := CreateTask(s, projectid, userid, entry, 0, now);
      MaterialiseRoot(s, entry, projectid, userid, now)
        == MaterialiseSubtasks(s1, Values(Get(entry, "subtasks")), projectid, userid, parentid, now)
  {
  }

  /** The outer loop's pass over the entry: create "A", then "A1" under it. */
  lemma ExampleRoot(projectid: int, userid: int, now: int)
    ensures
      var s1 := CreateTask(Tables([], [], 1), projectid, userid, ExampleEntry(), 0, now).0;
      MaterialiseRoot(Tables([], [], 1), ExampleEntry(), projectid, userid, now)
        == CreateTask(s1, projectid, userid, Titled("A1", []), 1, now).0
  {
    var a, a1, blank := ExampleEntry(), Titled("A1", []), Titled("", []);
    var s0 := Tables([], [], 1);
    ExampleEntryShape();
    CreateTaskRow(s0, projectid, userid, a, 0, now);
    var r := CreateTask(s0, projectid, userid, a, 0, now);
    assert r.1 == 1;
    assert Values(Get(a, "subtasks")) == [a1, blank];
    RootThenSubtasks(s0, a, projectid, userid, now);
    ExampleBlankSubtask(r.0, projectid, userid, now);
    assert MaterialiseSubtasks(r.0, [a1], projectid, userid, 1, now) == CreateTask(r.0, projectid, userid, a1, 1, now).0 by {
      assert [a1][..0] == [];
    }
  }

  /** A reply with one task "A" whose subtasks are "A1" and a blank one, run
      on empty tables: two rows ("A" a root, "A1" its child), and one edge
      with the root as slave and the child as master. */
  lemma ExampleRun(projectid: int, userid: int, now: int)
    ensures
      var r := Materialise(Tables([], [], 1), [ExampleEntry()], projectid, userid, now);
      && |r.tasks| == 2
      && r.tasks[0].id == 1 && r.tasks[0].title == "A" && r.tasks[0].fatherid == 0
      && r.tasks[1].id == 2 && r.tasks[1].title == "A1" && r.tasks[1].fatherid == 1
      && r.deps == [Dependency(projectid, 0, 1, 2)]
  {
    var a := ExampleEntry();
    var s0 := Tables([], [], 1);
    ExampleSteps(projectid, userid, now);
    ExampleRoot(projectid, userid, now);
    assert Materialise(s0, [a], projectid, userid, now) == MaterialiseRoot(s0, a, projectid, userid, now) by {
      assert [a][..0] == [];
    }
  }
}
