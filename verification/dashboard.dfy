/**
 * The course dashboards: the "closed" rule, the memoised status-label
 * lookup, the percentage clamp of the progress bars, the three task queries
 * as filters over the task table, and the folds that build the self view's
 * and the manager view's figures and histograms.
 *
 * Everything the page only renders (tables, charts, links, escaping of what
 * it prints) stays outside; the clock, the calendar and the user's name
 * formatting come in as values or functions.
 */
module Dashboard {
  import opened Php
  import opened OrderedMap
  import opened TaskStore

  // ---------------------------------------------------------------------
  // techproject_dashboard_task_is_closed
  // ---------------------------------------------------------------------

  /** ASCII lower-casing of one character. */
  function LowerChar(c: char): char {
    if 'A' <= c <= 'Z' then (c as int + 32) as char else c
  }

  /** core_text::strtolower, on ASCII letters. */
  function Lower(s: string): (r: string)
    ensures |r| == |s|
  {
    seq(|s|, k requires 0 <= k < |s| => LowerChar(s[k]))
  }

  /** The status codes the dashboard reads as "closed". */
  const ClosedCodes: set<string> := {"complete", "completed", "closed", "done", "finished", "resolved"}

  /** A task is closed when it is fully done, or when its non-empty status
      lower-cases to one of the closed codes. */
  predicate IsClosed(done: int, status: string) {
    if done >= 100 then true
    else if EmptyString(status) then false
    else Lower(status) in ClosedCodes
  }

  /** The early exit for an empty status changes nothing: neither "" nor "0"
      is a closed code, so the rule is a plain disjunction. */
  lemma IsClosedExactly(done: int, status: string)
    ensures IsClosed(done, status) <==> done >= 100 || Lower(status) in ClosedCodes
  {
    if status == "0" {
      assert Lower(status)[0] == '0';
    }
  }

  /** Full completion wins over any status; below it, the status decides,
      whatever its letter case. */
  lemma ClosedExamples()
    ensures IsClosed(100, "")
    ensures IsClosed(100, "open")
    ensures !IsClosed(99, "")
    ensures !IsClosed(99, "0")
    ensures IsClosed(40, "Closed")
    ensures IsClosed(0, "DONE")
    ensures !IsClosed(99, "in progress")
  {
    assert Lower("Closed") == "closed";
    assert Lower("DONE") == "done";
    IsClosedExactly(99, "in progress");
    assert Lower("in progress")[0] == 'i';
  }

  // ---------------------------------------------------------------------
  // techproject_dashboard_get_status_label
  // ---------------------------------------------------------------------

  /** A task-status qualifier of a project: its code and its label. */
  datatype StatusOption = StatusOption(code: string, text: string)  // text: the label column

  /** Per project, the labels already loaded, by status code. */
  type LabelCache = map<int, map<string, string>>

  /** The labels the fill loop stores for a project's options: each code
      maps to its formatted label, a later option overwriting an earlier one
      with the same code. */
  function OptionLabels(opts: seq<StatusOption>, format: string -> string): map<string, string> {
    if opts == [] then map[]
    else OptionLabels(opts[..|opts| - 1], format)[opts[|opts| - 1].code := format(opts[|opts| - 1].text)]
  }

  /** A code has a label exactly when some option carries it, and the label
      is that of the last such option. */
  lemma {:induction false} OptionLabelsLastWins(opts: seq<StatusOption>, format: string -> string, code: string)
    ensures code in OptionLabels(opts, format) <==> exists i :: 0 <= i < |opts| && opts[i].code == code
    ensures code in OptionLabels(opts, format) ==>
      exists i :: 0 <= i < |opts| && opts[i].code == code
        && OptionLabels(opts, format)[code] == format(opts[i].text)
        && forall j :: i < j < |opts| ==> opts[j].code != code
  {
    if opts != [] {
      var init, last := opts[..|opts| - 1], opts[|opts| - 1];
      OptionLabelsLastWins(init, format, code);
      if last.code != code && code in OptionLabels(opts, format) {
        var i :| 0 <= i < |init| && init[i].code == code
          && OptionLabels(init, format)[code] == format(init[i].text)
          && forall j :: i < j < |init| ==> init[j].code != code;
        assert opts[i] == init[i];
        assert forall j :: i < j < |opts| ==> opts[j].code != code by {
          assert forall j :: i < j < |init| ==> opts[j] == init[j];
        }
      }
      assert forall i :: 0 <= i < |init| ==> opts[i] == init[i];
    }
  }

  /** Every cached project holds exactly what a fresh fill would load. */
  predicate CacheConsistent(cache: LabelCache, options: int -> seq<StatusOption>, format: string -> string) {
    forall p :: p in cache ==> cache[p] == OptionLabels(options(p), format)
  }

  /** The label the lookup means: the project's label for the code, or the
      escaped code itself when the project has no such qualifier. */
  function ResolveLabel(projectid: int, code: string, options: int -> seq<StatusOption>,
                        format: string -> string, escape: string -> string): string {
    var labels := OptionLabels(options(projectid), format);
    if code in labels then labels[code] else escape(code)
  }

  /**
   * techproject_dashboard_get_status_label, with the by-reference cache
   * passed in and handed back. `options` stands for techproject_get_options,
   * `format` for format_string and `escape` for s().
   */
  method StatusLabel(projectid: int, code: string, cache: LabelCache,
                     options: int -> seq<StatusOption>, format: string -> string, escape: string -> string)
    returns (statusLabel: string, newCache: LabelCache)
    ensures projectid in newCache
    ensures forall p :: p != projectid ==> (p in newCache <==> p in cache)
    ensures forall p :: p in cache ==> p in newCache && newCache[p] == cache[p]
    ensures projectid !in cache ==> newCache[projectid] == OptionLabels(options(projectid), format)
    ensures code in newCache[projectid] ==> statusLabel == newCache[projectid][code]
    ensures code !in newCache[projectid] ==> statusLabel == escape(code)
    ensures CacheConsistent(cache, options, format) ==>
      CacheConsistent(newCache, options, format) && statusLabel == ResolveLabel(projectid, code, options, format, escape)
  {
    newCache := cache;
    if projectid !in newCache {
      newCache := newCache[projectid := map[]];
      var opts := options(projectid);
      var i := 0;
      while i < |opts|
        invariant 0 <= i <= |opts|
        invariant newCache == cache[projectid := OptionLabels(opts[..i], format)]
      {
        assert opts[..i + 1][..i] == opts[..i];
        newCache := newCache[projectid := newCache[projectid][opts[i].code := format(opts[i].text)]];
        i := i + 1;
      }
      assert opts[..i] == opts;
    }
    if code in newCache[projectid] {
      statusLabel := newCache[projectid][code];
    } else {
      statusLabel := escape(code);
    }
  }

  /** The status histogram step both views share: look the row's label up
      (filling the cache) and count it. */
  method CountStatus(statuscounts: Entries<nat>, cache: LabelCache, projectid: int, status: string,
                     options: int -> seq<StatusOption>, format: string -> string, escape: string -> string)
    returns (newCounts: Entries<nat>, newCache: LabelCache)
    ensures CacheConsistent(cache, options, format) ==>
      && CacheConsistent(newCache, options, format)
      && newCounts == Bump(statuscounts, ResolveLabel(projectid, status, options, format, escape))
  {
    var statusLabel;
    statusLabel, newCache := StatusLabel(projectid, status, cache, options, format, escape);
    IncrementIsBump(statuscounts, statusLabel);
    newCounts := Increment(statuscounts, statusLabel);
  }

  // ---------------------------------------------------------------------
  // The clamp of techproject_dashboard_progress
  // ---------------------------------------------------------------------

  /** `max(0, min(100, (float)$done))` */
  function ClampPercent(x: real): (r: real)
    ensures 0.0 <= r <= 100.0
    ensures 0.0 <= x <= 100.0 ==> r == x
    ensures x < 0.0 ==> r == 0.0
    ensures x > 100.0 ==> r == 100.0
  {
    var lowered := if x < 100.0 then x else 100.0;
    if lowered > 0.0 then lowered else 0.0
  }

  /** Clamping keeps the order of its inputs and changes nothing a second
      time. */
  lemma ClampMonotone(x: real, y: real)
    requires x <= y
    ensures ClampPercent(x) <= ClampPercent(y)
    ensures ClampPercent(ClampPercent(x)) == ClampPercent(x)
  {
  }

  // ---------------------------------------------------------------------
  // The task queries: task rows joined with their assignee
  // ---------------------------------------------------------------------

  /** The user columns the queries select. */
  datatype User = User(firstname: string, lastname: string)

  /** A task row joined with its assignee's user row. */
  datatype Row = Row(task: Task, user: User)

  /** The three WHERE clauses over the course's projects: the caller's own
      tasks, the manager view's tasks (all assigned ones, or one worker's
      when a filter is chosen) and the tasks modified this week. */
  datatype Query =
    | Own(userid: int)
    | Managed(assigneeid: int)   // 0: no filter
    | Week(weekstart: int)

  predicate Matches(t: Task, projectIds: set<int>, q: Query) {
    && t.projectid in projectIds
    && match q
       case Own(userid) => t.assignee == userid
       case Managed(assigneeid) => t.assignee > 0 && (assigneeid != 0 ==> t.assignee == assigneeid)
       case Week(weekstart) => t.assignee > 0 && t.modified >= weekstart
  }

  /** The joined rows the query selects, in table order: a task appears when
      it matches and its assignee has a user row. */
  function Select(tasks: seq<Task>, users: map<int, User>, projectIds: set<int>, q: Query): (r: seq<Row>)
    ensures |r| <= |tasks|
    ensures forall k :: 0 <= k < |r| ==>
      && r[k].task in tasks && Matches(r[k].task, projectIds, q)
      && r[k].task.assignee in users && r[k].user == users[r[k].task.assignee]
    ensures forall i :: 0 <= i < |tasks| && Matches(tasks[i], projectIds, q) && tasks[i].assignee in users ==>
      Row(tasks[i], users[tasks[i].assignee]) in r
  {
    if tasks == [] then []
    else
      var init, t := tasks[..|tasks| - 1], tasks[|tasks| - 1];
      var rest := Select(init, users, projectIds, q);
      assert forall i :: 0 <= i < |init| ==> init[i] == tasks[i];
      if Matches(t, projectIds, q) && t.assignee in users then rest + [Row(t, users[t.assignee])] else rest
  }

  /** The rows of one assignee. */
  function OfAssignee(rows: seq<Row>, assignee: int): (r: seq<Row>)
    ensures forall k :: 0 <= k < |r| ==> r[k].task.assignee == assignee
  {
    if rows == [] then []
    else
      var rest := OfAssignee(rows[..|rows| - 1], assignee);
      if rows[|rows| - 1].task.assignee == assignee then rest + [rows[|rows| - 1]] else rest
  }

  /** The manager's assignee filter narrows the unfiltered rows to that
      worker's, keeping their order. */
  lemma {:induction false} FilterNarrows(tasks: seq<Task>, users: map<int, User>, projectIds: set<int>, assigneeid: int)
    requires assigneeid != 0
    ensures Select(tasks, users, projectIds, Managed(assigneeid))
         == OfAssignee(Select(tasks, users, projectIds, Managed(0)), assigneeid)
  {
    if tasks != [] {
      var init := tasks[..|tasks| - 1];
      FilterNarrows(init, users, projectIds, assigneeid);
      var all := Select(init, users, projectIds, Managed(0));
      var t := tasks[|tasks| - 1];
      if Matches(t, projectIds, Managed(0)) && t.assignee in users {
        assert (all + [Row(t, users[t.assignee])])[..|all|] == all;
      }
    }
  }

  /** Task ids strictly increasing along the rows. */
  predicate IdsIncreasing(rows: seq<Row>) {
    forall i, j :: 0 <= i < j < |rows| ==> rows[i].task.id < rows[j].task.id
  }

  /** A selection from a well-formed table lists each task id once, in
      increasing order. */
  lemma {:induction false} SelectIdsIncreasing(tasks: seq<Task>, users: map<int, User>, projectIds: set<int>, q: Query)
    requires forall i, j :: 0 <= i < j < |tasks| ==> tasks[i].id < tasks[j].id
    ensures IdsIncreasing(Select(tasks, users, projectIds, q))
  {
    if tasks != [] {
      var init, t := tasks[..|tasks| - 1], tasks[|tasks| - 1];
      SelectIdsIncreasing(init, users, projectIds, q);
      var rest := Select(init, users, projectIds, q);
      if Matches(t, projectIds, q) && t.assignee in users {
        var r := rest + [Row(t, users[t.assignee])];
        assert Select(tasks, users, projectIds, q) == r;
        forall k | 0 <= k < |rest| ensures rest[k].task.id < t.id {
          var i :| 0 <= i < |init| && init[i] == rest[k].task;
          assert tasks[i] == init[i];
        }
        forall i, j | 0 <= i < j < |r| ensures r[i].task.id < r[j].task.id {
          assert r[i] == rest[i];
        }
      }
    }
  }

  // ---------------------------------------------------------------------
  // get_records_sql: records keyed by their first column
  // ---------------------------------------------------------------------

  /** The records come back as an array keyed by the first selected
      column: a repeated key keeps its first position and the later row. */
  function Fetch(rows: seq<Row>, key: Row -> string): Entries<Row> {
    if rows == [] then []
    else Put(Fetch(rows[..|rows| - 1], key), key(rows[|rows| - 1]), rows[|rows| - 1])
  }

  /** First column t.id (the self and manager queries). */
  function IdKey(row: Row): string {
    IntText(row.task.id)
  }

  /** First column t.assignee (the week query). */
  function AssigneeKey(row: Row): string {
    IntText(row.task.assignee)
  }

  /** With no key repeated, the fetch hands back every row, in order. */
  lemma {:induction false} FetchDistinct(rows: seq<Row>, key: Row -> string)
    requires forall i, j :: 0 <= i < j < |rows| ==> key(rows[i]) != key(rows[j])
    ensures |Fetch(rows, key)| == |rows|
    ensures forall i :: 0 <= i < |rows| ==> Fetch(rows, key)[i] == (key(rows[i]), rows[i])
    ensures ValuesOf(Fetch(rows, key)) == rows
  {
    if rows != [] {
      var init, last := rows[..|rows| - 1], rows[|rows| - 1];
      FetchDistinct(init, key);
      var before := Fetch(init, key);
      forall i | 0 <= i < |before| ensures before[i].0 != key(last) {
        assert before[i].0 == key(rows[i]);
      }
    }
  }

  /** Keyed by task id, a selection from a well-formed table loses no row. */
  lemma FetchByIdKeepsRows(s: Tables, users: map<int, User>, projectIds: set<int>, q: Query)
    requires WellFormed(s)
    ensures ValuesOf(Fetch(Select(s.tasks, users, projectIds, q), IdKey)) == Select(s.tasks, users, projectIds, q)
  {
    var rows := Select(s.tasks, users, projectIds, q);
    SelectIdsIncreasing(s.tasks, users, projectIds, q);
    forall i, j | 0 <= i < j < |rows| ensures IdKey(rows[i]) != IdKey(rows[j]) {
      if IdKey(rows[i]) == IdKey(rows[j]) {
        IntTextInjective(rows[i].task.id, rows[j].task.id);
      }
    }
    FetchDistinct(rows, IdKey);
  }

  // ---------------------------------------------------------------------
  // Self view
  // ---------------------------------------------------------------------

  /** The sum of the rows' completion figures. */
  function SumDone(rows: seq<Row>): int {
    if rows == [] then 0 else SumDone(rows[..|rows| - 1]) + rows[|rows| - 1].task.done
  }

  /** A task past its enabled, non-zero end date and not yet fully done. */
  predicate Overdue(t: Task, now: int) {
    t.taskendenable != 0 && t.taskend != 0 && t.taskend < now && t.done < 100
  }

  function CountOverdue(rows: seq<Row>, now: int): (r: nat)
    ensures r <= |rows|
    ensures r == 0 <==> forall k :: 0 <= k < |rows| ==> !Overdue(rows[k].task, now)
  {
    if rows == [] then 0
    else
      var init := rows[..|rows| - 1];
      assert forall k :: 0 <= k < |init| ==> init[k] == rows[k];
      CountOverdue(init, now) + if Overdue(rows[|rows| - 1].task, now) then 1 else 0
  }

  /** The status label of each row, as the lookup resolves it. */
  function Labels(rows: seq<Row>, options: int -> seq<StatusOption>, format: string -> string, escape: string -> string): (r: seq<string>)
    ensures |r| == |rows|
  {
    seq(|rows|, k requires 0 <= k < |rows| => ResolveLabel(rows[k].task.projectid, rows[k].task.status, options, format, escape))
  }

  lemma LabelsAppend(rows: seq<Row>, row: Row, options: int -> seq<StatusOption>, format: string -> string, escape: string -> string)
    ensures Labels(rows + [row], options, format, escape)
         == Labels(rows, options, format, escape) + [ResolveLabel(row.task.projectid, row.task.status, options, format, escape)]
  {
  }

  /** One more row extends each of the self view's figures by that row. */
  lemma SelfStep(rows: seq<Row>, i: nat, now: int,
                 options: int -> seq<StatusOption>, format: string -> string, escape: string -> string)
    requires i < |rows|
    ensures SumDone(rows[..i + 1]) == SumDone(rows[..i]) + rows[i].task.done
    ensures CountOverdue(rows[..i + 1], now) == CountOverdue(rows[..i], now) + if Overdue(rows[i].task, now) then 1 else 0
    ensures Tally(Labels(rows[..i + 1], options, format, escape))
         == Bump(Tally(Labels(rows[..i], options, format, escape)),
                 ResolveLabel(rows[i].task.projectid, rows[i].task.status, options, format, escape))
  {
    assert rows[..i + 1] == rows[..i] + [rows[i]];
    assert rows[..i + 1][..i] == rows[..i];
    LabelsAppend(rows[..i], rows[i], options, format, escape);
    var ls := Labels(rows[..i + 1], options, format, escape);
    assert ls[..i] == Labels(rows[..i], options, format, escape);
  }

  /** The figures of the self view. */
  datatype SelfSummary = SelfSummary(totaltasks: nat, sumdone: int, overdue: nat, statuscounts: Entries<nat>)

  /** The self-view loop over the caller's task rows, with the status-label
      cache starting empty as on a fresh page. */
  method SelfView(rows: seq<Row>, now: int,
                  options: int -> seq<StatusOption>, format: string -> string, escape: string -> string)
    returns (v: SelfSummary)
    ensures v.totaltasks == |rows| && v.sumdone == SumDone(rows)
    ensures v.overdue == CountOverdue(rows, now) && v.overdue <= v.totaltasks
    ensures v.statuscounts == Tally(Labels(rows, options, format, escape))
    ensures DistinctKeys(v.statuscounts) && Total(v.statuscounts) == v.totaltasks
  {
    var totaltasks := |rows|;
    var sumdone := 0;
    var overdue := 0;
    var statuscounts: Entries<nat> := [];
    var cache: LabelCache := map[];
    var i := 0;
    while i < |rows|
      invariant 0 <= i <= |rows|
      invariant CacheConsistent(cache, options, format)
      invariant sumdone == SumDone(rows[..i])
      invariant overdue == CountOverdue(rows[..i], now)
      invariant statuscounts == Tally(Labels(rows[..i], options, format, escape))
    {
      var t := rows[i].task;
      SelfStep(rows, i, now, options, format, escape);
      sumdone := sumdone + t.done;
      if t.taskendenable != 0 && t.taskend != 0 && t.taskend < now && t.done < 100 {
        overdue := overdue + 1;
      }
      statuscounts, cache := CountStatus(statuscounts, cache, t.projectid, t.status, options, format, escape);
      i := i + 1;
    }
    assert rows[..i] == rows;
    TallyCounts(Labels(rows, options, format, escape));
    v := SelfSummary(totaltasks, sumdone, overdue, statuscounts);
  }

  /** `$totaltasks ? $sumdone / $totaltasks : 0`, before rounding. */
  function AverageDone(sumdone: int, totaltasks: nat): (r: real)
    ensures totaltasks == 0 ==> r == 0.0
    ensures totaltasks > 0 ==> r * totaltasks as real == sumdone as real
  {
    if totaltasks == 0 then 0.0 else sumdone as real / totaltasks as real
  }

  /** Each row's figure within [0, 100] keeps the sum within [0, 100 n]. */
  lemma {:induction false} SumDoneBounds(rows: seq<Row>)
    requires forall k :: 0 <= k < |rows| ==> 0 <= rows[k].task.done <= 100
    ensures 0 <= SumDone(rows) <= 100 * |rows|
  {
    if rows != [] {
      var init := rows[..|rows| - 1];
      assert forall k :: 0 <= k < |init| ==> init[k] == rows[k];
      SumDoneBounds(init);
    }
  }

  /** With every figure a percentage, so is the average. */
  lemma AverageIsPercent(rows: seq<Row>)
    requires forall k :: 0 <= k < |rows| ==> 0 <= rows[k].task.done <= 100
    ensures 0.0 <= AverageDone(SumDone(rows), |rows|) <= 100.0
  {
    SumDoneBounds(rows);
    if |rows| > 0 {
      var a, n := AverageDone(SumDone(rows), |rows|), |rows| as real;
      assert a * n <= 100.0 * n;
      assert a * n >= 0.0;
    }
  }

  // ---------------------------------------------------------------------
  // Manager view
  // ---------------------------------------------------------------------

  /** Per-project metadata the manager view reads: the client (the name of
      the course section holding the project). A project without an entry
      is skipped by the loop. */
  type ProjectMeta = map<int, string>

  /** The rows the manager loop does not skip. */
  function Kept(rows: seq<Row>, meta: ProjectMeta): (r: seq<Row>)
    ensures |r| <= |rows|
    ensures forall k :: 0 <= k < |r| ==> r[k].task.projectid in meta
    ensures (forall k :: 0 <= k < |rows| ==> rows[k].task.projectid in meta) ==> r == rows
  {
    if rows == [] then []
    else
      var init, last := rows[..|rows| - 1], rows[|rows| - 1];
      assert forall k :: 0 <= k < |init| ==> init[k] == rows[k];
      if last.task.projectid in meta then Kept(init, meta) + [last] else Kept(init, meta)
  }

  /** The loop keeps exactly the rows whose project has metadata, each as
      often as it was fetched: none with metadata is lost. */
  lemma {:induction false} KeptExactly(rows: seq<Row>, meta: ProjectMeta)
    ensures forall x :: multiset(Kept(rows, meta))[x] == if x.task.projectid in meta then multiset(rows)[x] else 0
    ensures forall k :: 0 <= k < |rows| && rows[k].task.projectid in meta ==> rows[k] in Kept(rows, meta)
  {
    if rows != [] {
      var init, last := rows[..|rows| - 1], rows[|rows| - 1];
      KeptExactly(init, meta);
      assert rows == init + [last];
      assert multiset(rows) == multiset(init) + multiset{last};
      var rest := Kept(init, meta);
      if last.task.projectid in meta {
        assert Kept(rows, meta) == rest + [last];
        assert multiset(rest + [last]) == multiset(rest) + multiset{last};
      } else {
        assert Kept(rows, meta) == rest;
      }
      forall k | 0 <= k < |rows| && rows[k].task.projectid in meta ensures rows[k] in Kept(rows, meta) {
        assert rows[k] in multiset(rows);
      }
    }
  }

  predicate AllHaveMeta(rows: seq<Row>, meta: ProjectMeta) {
    forall k :: 0 <= k < |rows| ==> rows[k].task.projectid in meta
  }

  /** The client of each row. */
  function Clients(rows: seq<Row>, meta: ProjectMeta): (r: seq<string>)
    requires AllHaveMeta(rows, meta)
    ensures |r| == |rows|
  {
    seq(|rows|, k requires 0 <= k < |rows| && AllHaveMeta(rows, meta) => meta[rows[k].task.projectid])
  }

  /** Per client: tasks seen, their summed completion, those below 100. */
  datatype ClientStat = ClientStat(tasks: nat, done: int, open: nat)

  const NoStats: ClientStat := ClientStat(0, 0, 0)

  function TasksOf(st: ClientStat): int { st.tasks }

  /** The client's entry, created with zero figures on its first row. */
  function WithClient(cs: Entries<ClientStat>, client: string): Entries<ClientStat> {
    if HasKey(cs, client) then cs else Put(cs, client, NoStats)
  }

  /** One more row of a client: tasks+1, its completion added, and open+1
      when below 100. */
  function AddRow(st: ClientStat, done: int): ClientStat {
    ClientStat(st.tasks + 1, st.done + done, if done < 100 then st.open + 1 else st.open)
  }

  /** The manager loop's update of the per-client figures for one row. */
  function ClientStep(cs: Entries<ClientStat>, client: string, done: int): Entries<ClientStat> {
    var cs1 := WithClient(cs, client);
    Put(cs1, client, AddRow(GetOr(cs1, client, NoStats), done))
  }

  /** The per-client figures after the kept rows. */
  function ClientStats(rows: seq<Row>, meta: ProjectMeta): Entries<ClientStat>
    requires AllHaveMeta(rows, meta)
  {
    if rows == [] then []
    else
      var last := rows[|rows| - 1];
      ClientStep(ClientStats(rows[..|rows| - 1], meta), meta[last.task.projectid], last.task.done)
  }

  /** The rows of one client. */
  function OfClient(rows: seq<Row>, meta: ProjectMeta, client: string): (r: seq<Row>)
    requires AllHaveMeta(rows, meta)
    ensures |r| <= |rows|
  {
    if rows == [] then []
    else
      var rest := OfClient(rows[..|rows| - 1], meta, client);
      if meta[rows[|rows| - 1].task.projectid] == client then rest + [rows[|rows| - 1]] else rest
  }

  /** The rows below full completion. */
  function CountOpen(rows: seq<Row>): (r: nat)
    ensures r <= |rows|
  {
    if rows == [] then 0
    else CountOpen(rows[..|rows| - 1]) + if rows[|rows| - 1].task.done < 100 then 1 else 0
  }

  /** Creating the entry changes no reading, and adds nothing to the sum. */
  lemma WithClientFacts(cs: Entries<ClientStat>, client: string)
    ensures HasKey(WithClient(cs, client), client)
    ensures forall k' :: HasKey(WithClient(cs, client), k') <==> HasKey(cs, k') || k' == client
    ensures forall k' :: GetOr(WithClient(cs, client), k', NoStats) == GetOr(cs, k', NoStats)
    ensures SumBy(WithClient(cs, client), TasksOf) == SumBy(cs, TasksOf)
    ensures DistinctKeys(cs) ==> DistinctKeys(WithClient(cs, client))
  {
    if !HasKey(cs, client) {
      SumByPut(cs, client, NoStats, NoStats, TasksOf);
      PutFacts(cs, client, NoStats);
    }
  }

  /** One row changes its own client's figures and no other. */
  lemma ClientStepFacts(cs: Entries<ClientStat>, client: string, done: int, k: string)
    ensures DistinctKeys(cs) ==> DistinctKeys(ClientStep(cs, client, done))
    ensures HasKey(ClientStep(cs, client, done), k) <==> HasKey(cs, k) || k == client
    ensures k == client ==> GetOr(ClientStep(cs, client, done), k, NoStats) == AddRow(GetOr(cs, k, NoStats), done)
    ensures k != client ==> GetOr(ClientStep(cs, client, done), k, NoStats) == GetOr(cs, k, NoStats)
    ensures SumBy(ClientStep(cs, client, done), TasksOf) == SumBy(cs, TasksOf) + 1
  {
    var cs1 := WithClient(cs, client);
    WithClientFacts(cs, client);
    var st := GetOr(cs1, client, NoStats);
    GetOrIgnoresDefault(cs1, client, NoStats, st);
    SumByPut(cs1, client, AddRow(st, done), st, TasksOf);
    PutFacts(cs1, client, AddRow(st, done));
  }

  /** A client has an entry exactly when it has a row, once, and the task
      counts add up to the number of rows. */
  lemma {:induction false} ClientStatsShape(rows: seq<Row>, meta: ProjectMeta)
    requires AllHaveMeta(rows, meta)
    ensures DistinctKeys(ClientStats(rows, meta))
    ensures forall k :: HasKey(ClientStats(rows, meta), k) <==> k in Clients(rows, meta)
    ensures SumBy(ClientStats(rows, meta), TasksOf) == |rows|
  {
    if rows != [] {
      var init, last := rows[..|rows| - 1], rows[|rows| - 1];
      assert AllHaveMeta(init, meta) by {
        assert forall j :: 0 <= j < |init| ==> init[j] == rows[j];
      }
      var before := ClientStats(init, meta);
      var client := meta[last.task.projectid];
      ClientStatsShape(init, meta);
      ClientsLast(rows, meta);
      forall k ensures HasKey(ClientStats(rows, meta), k) <==> k in Clients(rows, meta) {
        ClientStepFacts(before, client, last.task.done, k);
      }
      ClientStepFacts(before, client, last.task.done, client);
    }
  }

  /** Splitting the last row off the rows of one client. */
  lemma OfClientLast(rows: seq<Row>, meta: ProjectMeta, k: string)
    requires AllHaveMeta(rows, meta) && rows != []
    ensures AllHaveMeta(rows[..|rows| - 1], meta)
    ensures meta[rows[|rows| - 1].task.projectid] == k ==>
      OfClient(rows, meta, k) == OfClient(rows[..|rows| - 1], meta, k) + [rows[|rows| - 1]]
    ensures meta[rows[|rows| - 1].task.projectid] != k ==>
      OfClient(rows, meta, k) == OfClient(rows[..|rows| - 1], meta, k)
  {
    var init := rows[..|rows| - 1];
    assert forall j :: 0 <= j < |init| ==> init[j] == rows[j];
  }

  lemma ClientsLast(rows: seq<Row>, meta: ProjectMeta)
    requires AllHaveMeta(rows, meta) && rows != []
    ensures AllHaveMeta(rows[..|rows| - 1], meta)
    ensures Clients(rows, meta) == Clients(rows[..|rows| - 1], meta) + [meta[rows[|rows| - 1].task.projectid]]
  {
    var init := rows[..|rows| - 1];
    assert forall j :: 0 <= j < |init| ==> init[j] == rows[j];
  }

  /** A client's rows are as many as its occurrences among the rows' clients. */
  lemma {:induction false} OfClientCount(rows: seq<Row>, meta: ProjectMeta, k: string)
    requires AllHaveMeta(rows, meta)
    ensures |OfClient(rows, meta, k)| == multiset(Clients(rows, meta))[k]
  {
    if rows != [] {
      OfClientLast(rows, meta, k);
      ClientsLast(rows, meta);
      OfClientCount(rows[..|rows| - 1], meta, k);
    }
  }

  lemma FiguresAppend(rows: seq<Row>, row: Row)
    ensures SumDone(rows + [row]) == SumDone(rows) + row.task.done
    ensures CountOpen(rows + [row]) == CountOpen(rows) + if row.task.done < 100 then 1 else 0
  {
    assert (rows + [row])[..|rows|] == rows;
  }

  /** The client's figures as counted from its rows. */
  function Counted(rows: seq<Row>): ClientStat {
    ClientStat(|rows|, SumDone(rows), CountOpen(rows))
  }

  /** One more row of the client: its figures move from those counted on
      the rows before to those counted with the new row. */
  lemma CountedStep(before: Entries<ClientStat>, k: string, of: seq<Row>, last: Row)
    requires GetOr(before, k, NoStats) == Counted(of)
    ensures GetOr(ClientStep(before, k, last.task.done), k, NoStats) == Counted(of + [last])
  {
    ClientStepFacts(before, k, last.task.done, k);
    FiguresAppend(of, last);
  }

  /**
   * Each client's figures count exactly that client's kept rows: `tasks`
   * their number, `done` their summed completion, `open` those below 100,
   * so never more than `tasks`.
   */
  lemma {:induction false} ClientStatsCounts(rows: seq<Row>, meta: ProjectMeta, k: string)
    requires AllHaveMeta(rows, meta)
    ensures GetOr(ClientStats(rows, meta), k, NoStats) == Counted(OfClient(rows, meta, k))
    ensures GetOr(ClientStats(rows, meta), k, NoStats).open <= GetOr(ClientStats(rows, meta), k, NoStats).tasks
  {
    if rows != [] {
      OfClientLast(rows, meta, k);
      ClientStatsCounts(rows[..|rows| - 1], meta, k);
      var init, last := rows[..|rows| - 1], rows[|rows| - 1];
      var client := meta[last.task.projectid];
      assert ClientStats(rows, meta) == ClientStep(ClientStats(init, meta), client, last.task.done);
      if client == k {
        CountedStep(ClientStats(init, meta), k, OfClient(init, meta, k), last);
      } else {
        ClientStepFacts(ClientStats(init, meta), client, last.task.done, k);
      }
    }
  }

  /** A closed row with a non-zero modification time and a weekday number
      of at most 5: the rows the workday histogram counts. */
  predicate ClosedOnWorkday(t: Task, weekday: int -> int) {
    IsClosed(t.done, t.status) && t.modified != 0 && weekday(t.modified) <= 5
  }

  /** The day key of every row the workday histogram counts, in order.
      `weekday` stands for date('N') and `daykey` for date('Y-m-d'). */
  function DayKeys(rows: seq<Row>, weekday: int -> int, daykey: int -> string): (r: seq<string>)
    ensures |r| <= |rows|
    ensures forall d :: d in r ==>
      exists k :: 0 <= k < |rows| && ClosedOnWorkday(rows[k].task, weekday) && daykey(rows[k].task.modified) == d
    ensures forall k :: 0 <= k < |rows| && ClosedOnWorkday(rows[k].task, weekday) ==> daykey(rows[k].task.modified) in r
  {
    if rows == [] then []
    else
      var init, last := rows[..|rows| - 1], rows[|rows| - 1];
      assert forall k :: 0 <= k < |init| ==> init[k] == rows[k];
      if ClosedOnWorkday(last.task, weekday) then DayKeys(init, weekday, daykey) + [daykey(last.task.modified)]
      else DayKeys(init, weekday, daykey)
  }

  /** The manager view's figures. */
  datatype ManagerSummary = ManagerSummary(
    totaltasks: nat,
    sumdone: int,
    statuscounts: Entries<nat>,
    clientstats: Entries<ClientStat>,
    clienttaskcounts: Entries<nat>,
    closedbyworkday: Entries<nat>)

  /** Where the i-th row goes: skipped without metadata, appended to the
      kept rows otherwise. */
  lemma KeptStep(rows: seq<Row>, i: nat, meta: ProjectMeta)
    requires i < |rows|
    ensures rows[i].task.projectid !in meta ==> Kept(rows[..i + 1], meta) == Kept(rows[..i], meta)
    ensures rows[i].task.projectid in meta ==> Kept(rows[..i + 1], meta) == Kept(rows[..i], meta) + [rows[i]]
  {
    assert rows[..i + 1][..i] == rows[..i];
  }

  /** A kept row extends the status labels, the clients and the day keys by
      its own. */
  lemma KeptAppend(kept: seq<Row>, row: Row, meta: ProjectMeta,
                   options: int -> seq<StatusOption>, format: string -> string, escape: string -> string,
                   weekday: int -> int, daykey: int -> string)
    requires AllHaveMeta(kept, meta) && row.task.projectid in meta
    ensures AllHaveMeta(kept + [row], meta)
    ensures SumDone(kept + [row]) == SumDone(kept) + row.task.done
    ensures Tally(Labels(kept + [row], options, format, escape))
         == Bump(Tally(Labels(kept, options, format, escape)), ResolveLabel(row.task.projectid, row.task.status, options, format, escape))
    ensures Tally(Clients(kept + [row], meta)) == Bump(Tally(Clients(kept, meta)), meta[row.task.projectid])
    ensures ClientStats(kept + [row], meta) == ClientStep(ClientStats(kept, meta), meta[row.task.projectid], row.task.done)
    ensures DayKeys(kept + [row], weekday, daykey)
         == if ClosedOnWorkday(row.task, weekday) then DayKeys(kept, weekday, daykey) + [daykey(row.task.modified)]
            else DayKeys(kept, weekday, daykey)
  {
    var all := kept + [row];
    assert all[..|kept|] == kept;
    assert AllHaveMeta(all, meta);
    LabelsAppend(kept, row, options, format, escape);
    assert Labels(all, options, format, escape)[..|kept|] == Labels(kept, options, format, escape);
    assert Clients(all, meta) == Clients(kept, meta) + [meta[row.task.projectid]];
    assert Clients(all, meta)[..|kept|] == Clients(kept, meta);
  }

  /** The per-client part of the manager loop for one kept row: the
      client's figures and its task count, both created at zero on the
      client's first row. With the two arrays holding the same clients, the
      count moves as a counter does. */
  method CountClientRow(clientstats: Entries<ClientStat>, clienttaskcounts: Entries<nat>, client: string, done: int)
    returns (newStats: Entries<ClientStat>, newCounts: Entries<nat>)
    ensures newStats == ClientStep(clientstats, client, done)
    ensures (HasKey(clientstats, client) <==> HasKey(clienttaskcounts, client)) ==> newCounts == Bump(clienttaskcounts, client)
  {
    newStats, newCounts := clientstats, clienttaskcounts;
    if !HasKey(newStats, client) {
      newStats := Put(newStats, client, NoStats);
      newCounts := Put(newCounts, client, 0);
    }
    ghost var initialised := newCounts;
    var st := GetOr(newStats, client, NoStats);
    st := st.(tasks := st.tasks + 1, done := st.done + done);
    if done < 100 {
      st := st.(open := st.open + 1);
    }
    newStats := Put(newStats, client, st);
    newCounts := Put(newCounts, client, GetOr(newCounts, client, 0) + 1);
    if HasKey(clientstats, client) <==> HasKey(clienttaskcounts, client) {
      if HasKey(clientstats, client) {
        assert initialised == clienttaskcounts;
        assert newCounts == Bump(clienttaskcounts, client);
      } else {
        assert GetOr(clienttaskcounts, client, 0) == 0;
        assert initialised == Put(clienttaskcounts, client, 0);
        IncrementIsBump(clienttaskcounts, client);
      }
    }
  }

  /**
   * The manager-view loop over the selected rows, with the status-label
   * cache starting empty. Rows whose project has no metadata would be
   * counted in `totaltasks` but skipped by everything else; on the rows the
   * query selects there are none (AllSelectedKept). `weekday` and `daykey`
   * stand for date('N') and date('Y-m-d').
   */
  method ManagerView(rows: seq<Row>, meta: ProjectMeta,
                     options: int -> seq<StatusOption>, format: string -> string, escape: string -> string,
                     weekday: int -> int, daykey: int -> string)
    returns (v: ManagerSummary)
    ensures v.totaltasks == |rows|
    ensures v.sumdone == SumDone(Kept(rows, meta))
    ensures v.statuscounts == Tally(Labels(Kept(rows, meta), options, format, escape))
    ensures v.clientstats == ClientStats(Kept(rows, meta), meta)
    ensures v.clienttaskcounts == Tally(Clients(Kept(rows, meta), meta))
    ensures v.closedbyworkday == Tally(DayKeys(Kept(rows, meta), weekday, daykey))
  {
    var totaltasks := |rows|;
    var sumdone := 0;
    var statuscounts: Entries<nat> := [];
    var clientstats: Entries<ClientStat> := [];
    var clienttaskcounts: Entries<nat> := [];
    var closedbyworkday: Entries<nat> := [];
    var cache: LabelCache := map[];
    ghost var kept: seq<Row> := [];
    var i := 0;
    assert rows[..0] == [];
    while i < |rows|
      invariant 0 <= i <= |rows|
      invariant kept == Kept(rows[..i], meta)
      invariant AllHaveMeta(kept, meta)
      invariant CacheConsistent(cache, options, format)
      invariant sumdone == SumDone(kept)
      invariant statuscounts == Tally(Labels(kept, options, format, escape))
      invariant clientstats == ClientStats(kept, meta)
      invariant clienttaskcounts == Tally(Clients(kept, meta))
      invariant closedbyworkday == Tally(DayKeys(kept, weekday, daykey))
    {
      var t := rows[i].task;
      KeptStep(rows, i, meta);
      if t.projectid !in meta {
        i := i + 1;
        continue;
      }
      KeptAppend(kept, rows[i], meta, options, format, escape, weekday, daykey);
      var client := meta[t.projectid];
      sumdone := sumdone + t.done;

      statuscounts, cache := CountStatus(statuscounts, cache, t.projectid, t.status, options, format, escape);

      assert HasKey(clientstats, client) <==> HasKey(clienttaskcounts, client) by {
        ClientStatsShape(kept, meta);
        TallyCounts(Clients(kept, meta));
      }
      clientstats, clienttaskcounts := CountClientRow(clientstats, clienttaskcounts, client, t.done);

      if IsClosed(t.done, t.status) && t.modified != 0 {
        var weekdaynumber := weekday(t.modified);
        if weekdaynumber <= 5 {
          var key := daykey(t.modified);
          IncrementIsBump(closedbyworkday, key);
          closedbyworkday := Increment(closedbyworkday, key);
        }
      }
      kept := kept + [rows[i]];
      i := i + 1;
    }
    assert rows[..i] == rows;
    v := ManagerSummary(totaltasks, sumdone, statuscounts, clientstats, clienttaskcounts, closedbyworkday);
  }

  /** The manager view's histograms agree with one another: the status and
      client charts each count every kept row once, and each client's bar in
      the client chart is its task count in the rollup. */
  lemma ManagerTotals(rows: seq<Row>, meta: ProjectMeta,
                      options: int -> seq<StatusOption>, format: string -> string, escape: string -> string)
    ensures Total(Tally(Labels(Kept(rows, meta), options, format, escape))) == |Kept(rows, meta)|
    ensures Total(Tally(Clients(Kept(rows, meta), meta))) == |Kept(rows, meta)|
    ensures SumBy(ClientStats(Kept(rows, meta), meta), TasksOf) == |Kept(rows, meta)|
    ensures forall k :: GetOr(Tally(Clients(Kept(rows, meta), meta)), k, 0) == GetOr(ClientStats(Kept(rows, meta), meta), k, NoStats).tasks
    ensures forall k :: 0 <= k < |rows| && rows[k].task.projectid in meta ==>
              GetOr(Tally(Clients(Kept(rows, meta), meta)), meta[rows[k].task.projectid], 0) >= 1
  {
    var kept := Kept(rows, meta);
    KeptExactly(rows, meta);
    forall k | 0 <= k < |rows| && rows[k].task.projectid in meta
      ensures meta[rows[k].task.projectid] in Clients(kept, meta)
    {
      var j :| 0 <= j < |kept| && kept[j] == rows[k];
      assert Clients(kept, meta)[j] == meta[rows[k].task.projectid];
    }
    TallyCounts(Labels(kept, options, format, escape));
    TallyCounts(Clients(kept, meta));
    ClientStatsShape(kept, meta);
    forall k ensures GetOr(Tally(Clients(kept, meta)), k, 0) == GetOr(ClientStats(kept, meta), k, NoStats).tasks {
      OfClientCount(kept, meta, k);
      ClientStatsCounts(kept, meta, k);
    }
  }

  /** The page fills the project ids the query filters on and the metadata
      from the same list of projects, so every selected row has metadata:
      the loop skips nothing and its total is the kept count. */
  lemma AllSelectedKept(tasks: seq<Task>, users: map<int, User>, projectIds: set<int>, q: Query, meta: ProjectMeta)
    requires forall p :: p in projectIds ==> p in meta
    ensures Kept(Select(tasks, users, projectIds, q), meta) == Select(tasks, users, projectIds, q)
    ensures |Kept(Select(tasks, users, projectIds, q), meta)| == |Select(tasks, users, projectIds, q)|
  {
  }

  /** The manager view as the page runs it: the rows get_records_sql returns
      for the manager query are all kept, so the total equals the number of
      rows every other figure folds over. */
  lemma ManagerRowsAllKept(s: Tables, users: map<int, User>, projectIds: set<int>, assigneeid: int, meta: ProjectMeta)
    requires WellFormed(s)
    requires forall p :: p in projectIds ==> p in meta
    ensures var rows := ValuesOf(Fetch(Select(s.tasks, users, projectIds, Managed(assigneeid)), IdKey));
      Kept(rows, meta) == rows && |Kept(rows, meta)| == |rows|
  {
    FetchByIdKeepsRows(s, users, projectIds, Managed(assigneeid));
    AllSelectedKept(s.tasks, users, projectIds, Managed(assigneeid), meta);
  }

  // ---------------------------------------------------------------------
  // Closed this week, per worker
  // ---------------------------------------------------------------------

  /** Whether a row's task counts as closed. */
  predicate RowClosed(row: Row) {
    IsClosed(row.task.done, row.task.status)
  }

  /** The number of closed rows. */
  function CountClosed(rows: seq<Row>): (r: nat)
    ensures r <= |rows|
    ensures r == 0 <==> forall k :: 0 <= k < |rows| ==> !RowClosed(rows[k])
  {
    if rows == [] then 0
    else
      var init := rows[..|rows| - 1];
      assert forall k :: 0 <= k < |init| ==> init[k] == rows[k];
      CountClosed(init) + if RowClosed(rows[|rows| - 1]) then 1 else 0
  }

  /** The worker name of every closed row, in order; `fullname` stands for
      Moodle's fullname() of the joined user columns. */
  function ClosedNames(rows: seq<Row>, fullname: User -> string): (r: seq<string>)
    ensures |r| == CountClosed(rows)
    ensures forall n :: n in r ==> exists k :: 0 <= k < |rows| && RowClosed(rows[k]) && fullname(rows[k].user) == n
    ensures forall k :: 0 <= k < |rows| && RowClosed(rows[k]) ==> fullname(rows[k].user) in r
  {
    if rows == [] then []
    else
      var init, last := rows[..|rows| - 1], rows[|rows| - 1];
      assert forall k :: 0 <= k < |init| ==> init[k] == rows[k];
      if RowClosed(last) then ClosedNames(init, fullname) + [fullname(last.user)]
      else ClosedNames(init, fullname)
  }

  /** The loop over the week rows: a counter of closed tasks per worker name. */
  method ClosedByWorkerWeek(rows: seq<Row>, fullname: User -> string) returns (counts: Entries<nat>)
    ensures counts == Tally(ClosedNames(rows, fullname))
  {
    counts := [];
    var i := 0;
    while i < |rows|
      invariant 0 <= i <= |rows|
      invariant counts == Tally(ClosedNames(rows[..i], fullname))
    {
      assert rows[..i + 1][..i] == rows[..i];
      var row := rows[i];
      if !IsClosed(row.task.done, row.task.status) {
        i := i + 1;
        continue;
      }
      var workername := fullname(row.user);
      IncrementIsBump(counts, workername);
      counts := Increment(counts, workername);
      i := i + 1;
    }
    assert rows[..i] == rows;
  }

  /** Each worker's count is the number of closed rows bearing that name,
      the names are the closed rows' and none repeats, and the counts add up
      to the closed rows. */
  lemma WeekCounts(rows: seq<Row>, fullname: User -> string)
    ensures DistinctKeys(Tally(ClosedNames(rows, fullname)))
    ensures Total(Tally(ClosedNames(rows, fullname))) == CountClosed(rows)
    ensures forall n :: GetOr(Tally(ClosedNames(rows, fullname)), n, 0) == multiset(ClosedNames(rows, fullname))[n]
    ensures forall n :: HasKey(Tally(ClosedNames(rows, fullname)), n) <==>
      exists k :: 0 <= k < |rows| && RowClosed(rows[k]) && fullname(rows[k].user) == n
  {
    TallyCounts(ClosedNames(rows, fullname));
  }

  /** What a fetch hands back: each entry is a row under its own key, no key
      twice, and every row's key present. */
  lemma {:induction false} FetchShape(rows: seq<Row>, key: Row -> string)
    ensures |Fetch(rows, key)| <= |rows|
    ensures DistinctKeys(Fetch(rows, key))
    ensures forall j :: 0 <= j < |Fetch(rows, key)| ==> Fetch(rows, key)[j].0 == key(Fetch(rows, key)[j].1)
    ensures forall j :: 0 <= j < |Fetch(rows, key)| ==> Fetch(rows, key)[j].1 in rows
    ensures forall i :: 0 <= i < |rows| ==> HasKey(Fetch(rows, key), key(rows[i]))
  {
    if rows != [] {
      var init, last := rows[..|rows| - 1], rows[|rows| - 1];
      FetchShape(init, key);
      var before := Fetch(init, key);
      var after := Put(before, key(last), last);
      assert Fetch(rows, key) == after;
      PutFacts(before, key(last), last);
      assert DistinctKeys(after);
      forall j | 0 <= j < |after| ensures after[j].0 == key(after[j].1) && after[j].1 in rows {
        if j < |before| && before[j].0 != key(last) {
          assert after[j] == before[j];
          assert before[j].1 in init;
        } else if HasKey(before, key(last)) {
          assert after[j] == (key(last), last);
        }
      }
      forall i | 0 <= i < |rows| ensures HasKey(after, key(rows[i])) {
        if i < |init| {
          assert rows[i] == init[i];
        }
      }
    }
  }

  /** The week rows as the dashboard fetches them: keyed by t.assignee, the
      first selected column. */
  function WeekRowsAsFetched(rows: seq<Row>): seq<Row> {
    ValuesOf(Fetch(rows, AssigneeKey))
  }

  /** As fetched, the week rows hold at most one row per assignee, whatever
      the selection held. */
  lemma WeekRowsOnePerAssignee(rows: seq<Row>)
    ensures |WeekRowsAsFetched(rows)| <= |rows|
    ensures forall i, j :: 0 <= i < j < |WeekRowsAsFetched(rows)| ==>
      WeekRowsAsFetched(rows)[i].task.assignee != WeekRowsAsFetched(rows)[j].task.assignee
  {
    FetchShape(rows, AssigneeKey);
    var f := Fetch(rows, AssigneeKey);
    forall i, j | 0 <= i < j < |f| ensures f[i].1.task.assignee != f[j].1.task.assignee {
      assert f[i].0 != f[j].0;
    }
  }

  /** Two closed tasks of worker 7, ids 1 and 2, as the week query hands
      them to the fetch. */
  function TwoClosedOfOneWorker(): seq<Row> {
    var t1 := Task(1, 1, 0, 0, 1, 7, 7, 7, 7, 0, 0, "A", "", FORMAT_HTML, "", "done",
                   0, 0, 100, 0, 0, 0, 0, 0, 0, 0, 0, 0);
    var u := User("Ada", "Lovelace");
    [Row(t1, u), Row(t1.(id := 2, ordering := 2), u)]
  }

  /** As written, the worker's second closed task is lost: the chart shows 1
      where two tasks were closed. */
  lemma WeekFetchLosesRow(fullname: User -> string)
    ensures CountClosed(TwoClosedOfOneWorker()) == 2
    ensures Total(Tally(ClosedNames(WeekRowsAsFetched(TwoClosedOfOneWorker()), fullname))) == 1
  {
    var rows := TwoClosedOfOneWorker();
    assert RowClosed(rows[0]) && RowClosed(rows[1]);
    assert AssigneeKey(rows[0]) == AssigneeKey(rows[1]);
    var k := AssigneeKey(rows[0]);
    assert rows[..1] == [rows[0]] && [rows[0]][..0] == [];
    assert Fetch([rows[0]], AssigneeKey) == [(k, rows[0])];
    assert Find([(k, rows[0])], k) == Some(0);
    assert Fetch(rows, AssigneeKey) == [(k, rows[1])];
    assert WeekRowsAsFetched(rows) == [rows[1]];
    assert ClosedNames([rows[1]], fullname) == [fullname(rows[1].user)];
    WeekCounts([rows[1]], fullname);
  }

  /** The week rows keyed by t.id instead: nothing is lost. */
  function WeekRows(rows: seq<Row>): seq<Row> {
    ValuesOf(Fetch(rows, IdKey))
  }

  /** Keyed by task id, every closed task of the week is counted once under
      its worker's name. */
  lemma WeekCountsEveryClosedTask(s: Tables, users: map<int, User>, projectIds: set<int>, weekstart: int,
                                  fullname: User -> string)
    requires WellFormed(s)
    ensures WeekRows(Select(s.tasks, users, projectIds, Week(weekstart))) == Select(s.tasks, users, projectIds, Week(weekstart))
    ensures Total(Tally(ClosedNames(WeekRows(Select(s.tasks, users, projectIds, Week(weekstart))), fullname)))
         == CountClosed(Select(s.tasks, users, projectIds, Week(weekstart)))
  {
    FetchByIdKeepsRows(s, users, projectIds, Week(weekstart));
    WeekCounts(Select(s.tasks, users, projectIds, Week(weekstart)), fullname);
  }
}
