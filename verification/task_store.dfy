/**
 * The two tables the task generator writes: techproject_task and
 * techproject_task_dependency, held in memory. Ids come from an
 * auto-increment counter, as the database assigns them on insert.
 */
module TaskStore {

  /** Moodle's code for HTML-formatted text. */
  const FORMAT_HTML: int := 1

  /** One row of techproject_task (the columns the core reads or writes). */
  datatype Task = Task(
    id: int,
    projectid: int,
    groupid: int,
    fatherid: int,
    ordering: int,
    owner: int,
    assignee: int,
    userid: int,
    lastuserid: int,
    created: int,
    modified: int,
    title: string,      // the abstract column
    description: string,
    descriptionformat: int,
    worktype: string,
    status: string,
    costrate: int,
    planned: int,
    done: int,
    used: int,
    quoted: int,
    spent: int,
    risk: int,
    milestoneid: int,
    taskstartenable: int,
    taskstart: int,
    taskendenable: int,
    taskend: int)

  /** One row of techproject_task_dependency. */
  datatype Dependency = Dependency(projectid: int, groupid: int, slave: int, master: int)

  /** Both tables and the next id the database will hand out. */
  datatype Tables = Tables(tasks: seq<Task>, deps: seq<Dependency>, nextId: int)

  /** Ids are positive, strictly increasing in insertion order, and below the
      counter: what an auto-increment key guarantees. */
  predicate WellFormed(s: Tables) {
    && s.nextId >= 1
    && (forall i :: 0 <= i < |s.tasks| ==> 1 <= s.tasks[i].id < s.nextId)
    && (forall i, j :: 0 <= i < j < |s.tasks| ==> s.tasks[i].id < s.tasks[j].id)
  }

  /** The sibling bucket ordering is ranked within. */
  predicate InBucket(t: Task, projectid: int, groupid: int, fatherid: int) {
    t.projectid == projectid && t.groupid == groupid && t.fatherid == fatherid
  }

  predicate SameBucket(a: Task, b: Task) {
    InBucket(a, b.projectid, b.groupid, b.fatherid)
  }

  /** The largest ordering in a bucket, 0 when the bucket is empty. */
  function MaxOrdering(tasks: seq<Task>, projectid: int, groupid: int, fatherid: int): (r: int)
    ensures forall i :: 0 <= i < |tasks| && InBucket(tasks[i], projectid, groupid, fatherid) ==> tasks[i].ordering <= r
    ensures (forall i :: 0 <= i < |tasks| ==> !InBucket(tasks[i], projectid, groupid, fatherid)) ==> r == 0
    ensures (exists i :: 0 <= i < |tasks| && InBucket(tasks[i], projectid, groupid, fatherid))
              ==> exists i :: 0 <= i < |tasks| && InBucket(tasks[i], projectid, groupid, fatherid) && tasks[i].ordering == r
  {
    if tasks == [] then 0
    else
      var init, last := tasks[..|tasks| - 1], tasks[|tasks| - 1];
      var m := MaxOrdering(init, projectid, groupid, fatherid);
      assert forall i :: 0 <= i < |init| ==> init[i] == tasks[i];
      if !InBucket(last, projectid, groupid, fatherid) then m
      else if (exists i :: 0 <= i < |init| && InBucket(init[i], projectid, groupid, fatherid)) && last.ordering <= m then m
      else last.ordering
  }

  predicate SameEdge(a: Dependency, b: Dependency) {
    a.projectid == b.projectid && a.slave == b.slave && a.master == b.master
  }

  /** At most one edge per (projectid, slave, master). */
  predicate DependenciesUnique(deps: seq<Dependency>) {
    forall i, j :: 0 <= i < j < |deps| ==> !SameEdge(deps[i], deps[j])
  }

  predicate DependencyExists(deps: seq<Dependency>, projectid: int, slave: int, master: int) {
    exists i :: 0 <= i < |deps| && deps[i].projectid == projectid && deps[i].slave == slave && deps[i].master == master
  }

  /** Check-then-insert: an edge is added only when no equal one exists, so
      the table keeps at most one edge per triple. */
  lemma InsertIfAbsentKeepsUnique(deps: seq<Dependency>, d: Dependency)
    requires !DependencyExists(deps, d.projectid, d.slave, d.master)
    ensures DependenciesUnique(deps) ==> DependenciesUnique(deps + [d])
  {
    var r := deps + [d];
    forall i, j | DependenciesUnique(deps) && 0 <= i < j < |r| ensures !SameEdge(r[i], r[j]) {
      if j == |deps| {
        assert r[i] == deps[i];
      }
    }
  }

  /** The tables after `record` is inserted: stored under the counter's
      id, the counter moved on, the dependency table untouched. */
  function Inserted(s: Tables, record: Task): Tables {
    Tables(s.tasks + [record.(id := s.nextId)], s.deps, s.nextId + 1)
  }

  /** Inserting under the counter's id, and bumping the counter, keeps the
      ids well formed whatever happens to the dependency table. */
  lemma InsertKeepsWellFormed(s: Tables, record: Task, deps: seq<Dependency>)
    requires WellFormed(s)
    ensures WellFormed(Tables(Inserted(s, record).tasks, deps, Inserted(s, record).nextId))
  {
  }

  class Store {
    var tasks: seq<Task>
    var deps: seq<Dependency>
    var nextId: int

    function State(): Tables
      reads this
    {
      Tables(tasks, deps, nextId)
    }

    ghost predicate Valid()
      reads this
    {
      WellFormed(State())
    }

    constructor (initial: Tables)
      requires WellFormed(initial)
      ensures Valid() && State() == initial
    {
      tasks, deps, nextId := initial.tasks, initial.deps, initial.nextId;
    }

    /** $DB->record_exists('techproject_task_dependency', ...) */
    predicate DependencyRecordExists(projectid: int, slave: int, master: int)
      reads this
    {
      DependencyExists(deps, projectid, slave, master)
    }

    /** $DB->insert_record('techproject_task', $record): the row is stored
        under the next id, which is returned. */
    method InsertTask(record: Task) returns (id: int)
      requires Valid()
      modifies this
      ensures Valid()
      ensures id == old(nextId) && id >= 1
      ensures tasks == old(tasks) + [record.(id := id)]
      ensures deps == old(deps) && nextId == old(nextId) + 1
      ensures State() == Inserted(old(State()), record)
    {
      id := nextId;
      tasks := tasks + [record.(id := id)];
      nextId := nextId + 1;
    }

    /** $DB->insert_record('techproject_task_dependency', $dependency) */
    method InsertDependency(d: Dependency)
      modifies this
      ensures deps == old(deps) + [d]
      ensures tasks == old(tasks) && nextId == old(nextId)
    {
      deps := deps + [d];
    }
  }
}
