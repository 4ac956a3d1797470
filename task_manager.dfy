/** The task store: an ordered list of tasks kept in insertion order, the lookups,
    filters and counts over it, the mutations that change it and save it, and the
    properties those operations keep. */
module Store {
  import opened Tasks

  // ---------------------------------------------------------------------------
  // Lookup by identity

  /** The position of the first task whose identity is `id`. */
  function Find(s: seq<Task>, id: int): (r: Option<nat>)
    ensures r.None? <==> forall j :: 0 <= j < |s| ==> s[j].id != id
    ensures r.Some? ==> r.value < |s| && s[r.value].id == id
    ensures r.Some? ==> forall j :: 0 <= j < r.value ==> s[j].id != id
  {
    if s == [] then None
    else if s[0].id == id then Some(0)
    else
      match Find(s[1..], id)
      case None => None
      case Some(k) => Some(k + 1)
  }

  /** The first task whose identity is `id`, or nothing when no task has it. */
  function Lookup(s: seq<Task>, id: int): (r: Option<Task>)
    ensures r.None? <==> forall j :: 0 <= j < |s| ==> s[j].id != id
    ensures r.Some? ==> r.value.id == id
    ensures r.Some? ==> exists j :: 0 <= j < |s| && s[j] == r.value && forall k :: 0 <= k < j ==> s[k].id != id
  {
    match Find(s, id)
    case None => None
    case Some(i) => Some(s[i])
  }

  /** No two tasks share an identity. The store does not enforce this; callers of add
      supply fresh identities. */
  predicate UniqueIds(s: seq<Task>) {
    forall i, j :: 0 <= i < j < |s| ==> s[i].id != s[j].id
  }

  // ---------------------------------------------------------------------------
  // Order-preserving filters and counts

  /** `r` is `s` with some elements left out, the rest in their original order. */
  predicate IsSubseq(r: seq<Task>, s: seq<Task>) {
    r == [] ||
    (s != [] && ((r[0] == s[0] && IsSubseq(r[1..], s[1..])) || IsSubseq(r, s[1..])))
  }

  /** The conditions the queries and the statistics select tasks by. */
  datatype Criterion =
    | Open                  // not completed
    | Done                  // completed
    | PriorityIs(p: string) // exactly this priority, case included
    | Mentions(q: string)   // title or description contains q, ignoring ASCII case
    | Both(a: Criterion, b: Criterion)

  /** ASCII lower-casing of one character. */
  function Lower(c: char): char {
    if 'A' <= c <= 'Z' then (c as int + 32) as char else c
  }

  function LowerStr(s: string): string {
    seq(|s|, i requires 0 <= i < |s| => Lower(s[i]))
  }

  /** `needle` occurs in `hay` starting at position `i`. */
  predicate OccursAt(hay: string, needle: string, i: int) {
    0 <= i <= |hay| - |needle| && hay[i..i + |needle|] == needle
  }

  /** Substring test, Python's `needle in hay`. */
  predicate Contains(hay: string, needle: string) {
    exists i | 0 <= i <= |hay| - |needle| :: OccursAt(hay, needle, i)
  }

  predicate Holds(c: Criterion, t: Task) {
    match c
    case Open => !t.completed
    case Done => t.completed
    case PriorityIs(p) => t.priority == p
    case Mentions(q) =>
      Contains(LowerStr(t.title), LowerStr(q)) || Contains(LowerStr(t.description), LowerStr(q))
    case Both(a, b) => Holds(a, t) && Holds(b, t)
  }

  /** The list comprehension `[t for t in s if c(t)]`: exactly the tasks meeting `c`,
      in their original order. */
  function Filter(s: seq<Task>, c: Criterion): (r: seq<Task>)
    ensures IsSubseq(r, s)
    ensures forall t :: t in r <==> t in s && Holds(c, t)
    ensures |r| == Count(s, c)
  {
    if s == [] then []
    else if Holds(c, s[0]) then [s[0]] + Filter(s[1..], c)
    else Filter(s[1..], c)
  }

  /** `sum(1 for t in s if c(t))`: at most the length, and zero exactly when no task
      meets `c`. */
  function Count(s: seq<Task>, c: Criterion): (n: nat)
    ensures n <= |s|
    ensures n == 0 <==> forall j :: 0 <= j < |s| ==> !Holds(c, s[j])
  {
    if s == [] then 0 else (if Holds(c, s[0]) then 1 else 0) + Count(s[1..], c)
  }

  // ---------------------------------------------------------------------------
  // The mutations on the list, as functions of the old list

  /** `delete_task`: the first task with identity `id` is removed, if there is one. */
  function Removed(s: seq<Task>, id: int): (r: seq<Task>)
    ensures Find(s, id).None? ==> r == s
    ensures Find(s, id).Some? ==> |r| == |s| - 1 && s[Find(s, id).value] !in r[..Find(s, id).value]
    ensures Find(s, id).Some? ==>
      r[..Find(s, id).value] == s[..Find(s, id).value] && r[Find(s, id).value..] == s[Find(s, id).value + 1..]
    ensures forall t :: t in r ==> t in s
  {
    match Find(s, id)
    case None => s
    case Some(i) => s[..i] + s[i + 1..]
  }

  /** `complete_task` (done = true) and `uncomplete_task` (done = false). */
  function Marked(s: seq<Task>, id: int, done: bool): (r: seq<Task>)
    ensures |r| == |s|
    ensures forall j :: 0 <= j < |s| ==> r[j].id == s[j].id
    ensures forall j :: 0 <= j < |s| ==> r[j] == s[j] || (Find(s, id) == Some(j) && r[j] == s[j].(completed := done))
    ensures Find(s, id).Some? ==> r[Find(s, id).value].completed == done
  {
    match Find(s, id)
    case None => s
    case Some(i) => s[i := s[i].(completed := done)]
  }

  /** `setattr(task, k, v)` guarded by `hasattr(task, k)`: a name that is not one of the
      seven attributes changes nothing. */
  function SetAttr(t: Task, k: string, v: Value): (r: Task)
    requires Fits(k, v)
    ensures k !in FieldNames ==> r == t
    ensures k in FieldNames ==> r.id == (if k == "id" then v.i else t.id)
    ensures k in FieldNames ==> r.completed == (if k == "completed" then v.b else t.completed)
  {
    if k == "id" then t.(id := v.i)
    else if k == "title" then t.(title := v.s)
    else if k == "description" then t.(description := v.s)
    else if k == "priority" then t.(priority := v.s)
    else if k == "due_date" then t.(dueDate := v.s)
    else if k == "completed" then t.(completed := v.b)
    else if k == "created_at" then t.(createdAt := v.s)
    else t
  }

  /** Setting an attribute overwrites its entry in the task's field map and no other. */
  lemma SetAttrAsDict(t: Task, k: string, v: Value)
    requires Fits(k, v) && k in FieldNames
    ensures ToDict(SetAttr(t, k, v)) == ToDict(t)[k := v]
  {
    var l, r := ToDict(SetAttr(t, k, v)), ToDict(t)[k := v];
    forall j | j in FieldNames ensures l[j] == r[j] {
      if j == k {
        if k == "id" { assert l[j] == Int(v.i); }
        else if k == "completed" { assert l[j] == Bool(v.b); }
        else { assert v.Str? && l[j] == Str(v.s); }
      }
    }
  }

  /** The entries of `changes` that name an attribute of a task. */
  function Attributes(changes: Record): (m: Record)
    ensures m.Keys == changes.Keys * FieldNames
  {
    map k | k in changes && k in FieldNames :: changes[k]
  }

  /** All of `changes` applied to one task, each attribute independently. */
  function Apply(t: Task, changes: Record): (r: Task)
    requires WellTyped(changes)
    ensures changes.Keys !! FieldNames ==> r == t
    ensures "id" !in changes ==> r.id == t.id
    ensures "created_at" !in changes ==> r.createdAt == t.createdAt
  {
    Task(
      if "id" in changes then changes["id"].i else t.id,
      StrOr(changes, "title", t.title),
      StrOr(changes, "description", t.description),
      StrOr(changes, "priority", t.priority),
      StrOr(changes, "due_date", t.dueDate),
      if "completed" in changes then changes["completed"].b else t.completed,
      StrOr(changes, "created_at", t.createdAt))
  }

  /** Applying `changes` to a task overwrites, in its field map, exactly the attributes
      `changes` names, and leaves every other attribute as it was. */
  lemma ApplyAsDict(t: Task, changes: Record)
    requires WellTyped(changes)
    ensures ToDict(Apply(t, changes)) == ToDict(t) + Attributes(changes)
  {
    var l, r := ToDict(Apply(t, changes)), ToDict(t) + Attributes(changes);
    assert l.Keys == r.Keys;
    forall k | k in l ensures l[k] == r[k] {
      AttributeAgrees(t, changes, k);
    }
  }

  /** One attribute of `ApplyAsDict`: its entry after the update is the change, if any. */
  lemma AttributeAgrees(t: Task, changes: Record, k: string)
    requires WellTyped(changes) && k in FieldNames
    ensures ToDict(Apply(t, changes))[k] == (if k in changes then changes[k] else ToDict(t)[k])
  {
    if k in changes {
      assert Fits(k, changes[k]);
    }
  }

  /** Setting one more attribute, as one turn of `update_task`'s loop does. */
  lemma ApplyStep(t: Task, done: Record, k: string, v: Value)
    requires WellTyped(done) && Fits(k, v) && k !in done
    ensures WellTyped(done[k := v])
    ensures Apply(t, done[k := v]) == SetAttr(Apply(t, done), k, v)
  {
  }

  /** `update_task`: `changes` applied to the first task with identity `id`. */
  function Updated(s: seq<Task>, id: int, changes: Record): (r: seq<Task>)
    requires WellTyped(changes)
    ensures |r| == |s|
    ensures forall j :: 0 <= j < |s| ==> r[j] == s[j] || (Find(s, id) == Some(j) && r[j] == Apply(s[j], changes))
    ensures Find(s, id).Some? ==> r[Find(s, id).value] == Apply(s[Find(s, id).value], changes)
    ensures Find(s, id).None? ==> r == s
  {
    match Find(s, id)
    case None => s
    case Some(i) => s[i := Apply(s[i], changes)]
  }

  // ---------------------------------------------------------------------------
  // The store

  /** `get_statistics`: the three buckets count open tasks only. */
  datatype Statistics = Statistics(
    total: nat, completed: nat, pending: nat, high: nat, medium: nat, low: nat)

  class TaskManager {
    /** The tasks, in insertion order. */
    var tasks: seq<Task>
    /** What the backing file holds. */
    var file: Stored

    /** `TaskManager(filename)`: the list is whatever `load_tasks` reads from the file.
        `freshIds` and `stamps` stand for the identities and clock readings that reading
        a record without `id` or `created_at` would take. */
    constructor (file: Stored, freshIds: seq<int>, stamps: seq<string>)
      requires |freshIds| == RecordCount(file) && |stamps| == RecordCount(file)
      ensures this.file == file
      ensures tasks == Load(file, freshIds, stamps)
    {
      this.file := file;
      tasks := Load(file, freshIds, stamps);
    }

    /** `load_tasks`: reassigns the list from the file; the file is left as it is. */
    method LoadTasks(freshIds: seq<int>, stamps: seq<string>)
      requires |freshIds| == RecordCount(file) && |stamps| == RecordCount(file)
      modifies this`tasks
      ensures tasks == Load(file, freshIds, stamps)
    {
      tasks := Load(file, freshIds, stamps);
    }

    /** `save_tasks`: the file is overwritten with the whole list. */
    method SaveTasks()
      modifies this`file
      ensures file == Parsed(Serialise(tasks))
    {
      file := Parsed(Serialise(tasks));
    }

    /** The loop of `get_task`: the first position holding identity `id`. */
    method Position(id: int) returns (k: Option<nat>)
      ensures k == Find(tasks, id)
    {
      var i := 0;
      while i < |tasks|
        invariant 0 <= i <= |tasks|
        invariant forall j :: 0 <= j < i ==> tasks[j].id != id
      {
        if tasks[i].id == id {
          return Some(i);
        }
        i := i + 1;
      }
      return None;
    }

    /** `get_task`: the first task with identity `id`, or nothing. */
    method GetTask(id: int) returns (r: Option<Task>)
      ensures r == Lookup(tasks, id)
    {
      var k := Position(id);
      if k.Some? {
        return Some(tasks[k.value]);
      }
      return None;
    }

    /** `add_task`: one new open task at the end; the rest is untouched. */
    method AddTask(freshId: int, now: string, title: string, description: string := "",
                   priority: string := "Medium", dueDate: string := "") returns (t: Task)
      requires forall j :: 0 <= j < |tasks| ==> tasks[j].id != freshId
      modifies this
      ensures t == Task(freshId, title, description, priority, dueDate, false, now)
      ensures tasks == old(tasks) + [t]
      ensures file == Parsed(Serialise(tasks))
    {
      t := NewTask(freshId, now, title, description, priority, dueDate);
      tasks := tasks + [t];
      SaveTasks();
    }

    /** `update_task`: reports whether a task has identity `id`; if so applies every
        entry of `changes` that names an attribute to the first such task and saves. */
    method UpdateTask(id: int, changes: Record) returns (ok: bool)
      requires WellTyped(changes)
      modifies this
      ensures ok <==> Find(old(tasks), id).Some?
      ensures tasks == Updated(old(tasks), id, changes)
      ensures file == if ok then Parsed(Serialise(tasks)) else old(file)
    {
      var k := Position(id);
      if k.None? {
        return false;
      }
      var i := k.value;
      var original := tasks[i];
      var t := original;
      var todo := changes.Keys;
      ghost var done: Record := map[];
      while todo != {}
        invariant todo <= changes.Keys
        invariant done.Keys == changes.Keys - todo
        invariant forall k :: k in done ==> done[k] == changes[k]
        invariant WellTyped(done) && t == Apply(original, done)
        invariant tasks == old(tasks)
        decreases todo
      {
        var key :| key in todo;
        ApplyStep(original, done, key, changes[key]);
        t := SetAttr(t, key, changes[key]);
        done := done[key := changes[key]];
        todo := todo - {key};
      }
      assert done == changes;
      tasks := tasks[i := t];
      SaveTasks();
      return true;
    }

    /** `delete_task`: reports whether a task has identity `id`; if so removes the first
        such task and saves. */
    method DeleteTask(id: int) returns (ok: bool)
      modifies this
      ensures ok <==> Find(old(tasks), id).Some?
      ensures tasks == Removed(old(tasks), id)
      ensures file == if ok then Parsed(Serialise(tasks)) else old(file)
    {
      var k := Position(id);
      if k.None? {
        return false;
      }
      tasks := tasks[..k.value] + tasks[k.value + 1..];
      SaveTasks();
      return true;
    }

    /** `complete_task`: sets the flag of the first task with identity `id`. */
    method CompleteTask(id: int) returns (ok: bool)
      modifies this
      ensures ok <==> Find(old(tasks), id).Some?
      ensures tasks == Marked(old(tasks), id, true)
      ensures file == if ok then Parsed(Serialise(tasks)) else old(file)
    {
      var k := Position(id);
      if k.None? {
        return false;
      }
      tasks := tasks[k.value := tasks[k.value].(completed := true)];
      SaveTasks();
      return true;
    }

    /** `uncomplete_task`: clears the flag of the first task with identity `id`. */
    method UncompleteTask(id: int) returns (ok: bool)
      modifies this
      ensures ok <==> Find(old(tasks), id).Some?
      ensures tasks == Marked(old(tasks), id, false)
      ensures file == if ok then Parsed(Serialise(tasks)) else old(file)
    {
      var k := Position(id);
      if k.None? {
        return false;
      }
      tasks := tasks[k.value := tasks[k.value].(completed := false)];
      SaveTasks();
      return true;
    }

    /** `get_all_tasks`: the whole list, or only the open tasks. */
    function GetAllTasks(includeCompleted: bool := true): (r: seq<Task>)
      reads this
      ensures includeCompleted ==> r == tasks
      ensures IsSubseq(r, tasks)
      ensures forall t :: t in r <==> t in tasks && (includeCompleted || !t.completed)
      ensures !includeCompleted ==> |r| == Count(tasks, Open)
    {
      SubseqRefl(tasks);
      if includeCompleted then tasks else Filter(tasks, Open)
    }

    /** `get_tasks_by_priority`: the tasks whose priority is exactly `priority`. */
    function GetTasksByPriority(priority: string): (r: seq<Task>)
      reads this
      ensures IsSubseq(r, tasks)
      ensures forall t :: t in r <==> t in tasks && t.priority == priority
      ensures |r| == Count(tasks, PriorityIs(priority))
    {
      Filter(tasks, PriorityIs(priority))
    }

    /** `search_tasks`: the tasks whose title or description contains `query`,
        ignoring case. */
    function SearchTasks(query: string): (r: seq<Task>)
      reads this
      ensures IsSubseq(r, tasks)
      ensures forall t :: t in r <==>
        (t in tasks && (Contains(LowerStr(t.title), LowerStr(query)) || Contains(LowerStr(t.description), LowerStr(query))))
      ensures |r| == Count(tasks, Mentions(query))
    {
      Filter(tasks, Mentions(query))
    }

    /** `get_statistics`. */
    function GetStatistics(): (r: Statistics)
      reads this
      ensures r.total == |tasks| && r.completed + r.pending == r.total
      ensures r.pending == |GetAllTasks(false)|
      ensures r.high == |Filter(GetAllTasks(false), PriorityIs("High"))|
      ensures r.medium == |Filter(GetAllTasks(false), PriorityIs("Medium"))|
      ensures r.low == |Filter(GetAllTasks(false), PriorityIs("Low"))|
      ensures r.high + r.medium + r.low <= r.pending
    {
      CountIsFilterLength(tasks, Open);
      CountSplit(tasks);
      BucketsWithinOpen(tasks);
      BucketIsFilterOfOpen(tasks, "High");
      BucketIsFilterOfOpen(tasks, "Medium");
      BucketIsFilterOfOpen(tasks, "Low");
      var total := |tasks|;
      var completed := Count(tasks, Done);
      Statistics(total, completed, total - completed,
                 Count(tasks, Both(PriorityIs("High"), Open)),
                 Count(tasks, Both(PriorityIs("Medium"), Open)),
                 Count(tasks, Both(PriorityIs("Low"), Open)))
    }
  }

  /** Every list is a subsequence of itself. */
  lemma {:induction false} SubseqRefl(s: seq<Task>)
    ensures IsSubseq(s, s)
  {
    if s != [] {
      SubseqRefl(s[1..]);
    }
  }

  // ---------------------------------------------------------------------------
  // Counting lemmas behind the statistics

  /** Counting the tasks that meet `c` is the length of the filter by `c`. */
  lemma {:induction false} CountIsFilterLength(s: seq<Task>, c: Criterion)
    ensures Count(s, c) == |Filter(s, c)|
  {
    if s != [] {
      CountIsFilterLength(s[1..], c);
    }
  }

  /** Every task is either completed or open. */
  lemma {:induction false} CountSplit(s: seq<Task>)
    ensures Count(s, Done) + Count(s, Open) == |s|
  {
    if s != [] {
      CountSplit(s[1..]);
    }
  }

  /** The three buckets count disjoint kinds of open tasks. */
  lemma {:induction false} BucketsWithinOpen(s: seq<Task>)
    ensures Count(s, Both(PriorityIs("High"), Open)) + Count(s, Both(PriorityIs("Medium"), Open))
          + Count(s, Both(PriorityIs("Low"), Open)) <= Count(s, Open)
  {
    if s != [] {
      BucketsWithinOpen(s[1..]);
      assert Count(s, Open) == (if Holds(Open, s[0]) then 1 else 0) + Count(s[1..], Open);
      assert Count(s, Both(PriorityIs("High"), Open)) == (if Holds(Both(PriorityIs("High"), Open), s[0]) then 1 else 0) + Count(s[1..], Both(PriorityIs("High"), Open));
      assert Count(s, Both(PriorityIs("Medium"), Open)) == (if Holds(Both(PriorityIs("Medium"), Open), s[0]) then 1 else 0) + Count(s[1..], Both(PriorityIs("Medium"), Open));
      assert Count(s, Both(PriorityIs("Low"), Open)) == (if Holds(Both(PriorityIs("Low"), Open), s[0]) then 1 else 0) + Count(s[1..], Both(PriorityIs("Low"), Open));
    }
  }

  /** A bucket is the priority filter applied to the open tasks. */
  lemma {:induction false} BucketIsFilterOfOpen(s: seq<Task>, p: string)
    ensures Count(s, Both(PriorityIs(p), Open)) == |Filter(Filter(s, Open), PriorityIs(p))|
  {
    if s != [] {
      BucketIsFilterOfOpen(s[1..], p);
      if !s[0].completed {
        assert Filter(s, Open) == [s[0]] + Filter(s[1..], Open);
        assert ([s[0]] + Filter(s[1..], Open))[1..] == Filter(s[1..], Open);
      }
    }
  }

  // ---------------------------------------------------------------------------
  // Filters

  /** A filter that every task passes keeps the whole list. */
  lemma {:induction false} FilterKeepsAll(s: seq<Task>, c: Criterion)
    requires forall t :: t in s ==> Holds(c, t)
    ensures Filter(s, c) == s
  {
    if s != [] {
      assert s[0] in s;
      FilterKeepsAll(s[1..], c);
      assert [s[0]] + s[1..] == s;
    }
  }

  /** Two criteria that agree on every task of the list filter it alike. */
  lemma {:induction false} FilterAgrees(s: seq<Task>, c: Criterion, d: Criterion)
    requires forall t :: t in s ==> Holds(c, t) == Holds(d, t)
    ensures Filter(s, c) == Filter(s, d)
  {
    if s != [] {
      assert s[0] in s;
      FilterAgrees(s[1..], c, d);
    }
  }

  /** Lower-casing twice is lower-casing once. */
  lemma LowerStrIdempotent(q: string)
    ensures LowerStr(LowerStr(q)) == LowerStr(q)
  {
  }

  /** The empty query occurs in every title, so searching for it returns every task. */
  lemma SearchEmptyMatchesAll(s: seq<Task>)
    ensures Filter(s, Mentions("")) == s
  {
    forall t | t in s ensures Holds(Mentions(""), t) {
      assert OccursAt(LowerStr(t.title), LowerStr(""), 0);
    }
    FilterKeepsAll(s, Mentions(""));
  }

  /** Search ignores the case of the query. */
  lemma SearchIgnoresQueryCase(s: seq<Task>, q: string)
    ensures Filter(s, Mentions(q)) == Filter(s, Mentions(LowerStr(q)))
  {
    LowerStrIdempotent(q);
    FilterAgrees(s, Mentions(q), Mentions(LowerStr(q)));
  }

  // ---------------------------------------------------------------------------
  // Lookup after each mutation

  /** Lists whose tasks have the same identities, position by position, are searched alike. */
  lemma {:induction false} FindSameIds(s: seq<Task>, s': seq<Task>, id: int)
    requires |s| == |s'| && forall j :: 0 <= j < |s| ==> s[j].id == s'[j].id
    ensures Find(s, id) == Find(s', id)
  {
    if s != [] {
      FindSameIds(s[1..], s'[1..], id);
    }
  }

  /** After `add_task` with a fresh identity, `get_task` of that identity finds exactly
      the task that was added, and identities stay unique. */
  lemma AddThenGet(s: seq<Task>, t: Task)
    requires forall j :: 0 <= j < |s| ==> s[j].id != t.id
    ensures Lookup(s + [t], t.id) == Some(t)
    ensures UniqueIds(s) ==> UniqueIds(s + [t])
  {
    assert (s + [t])[|s|] == t;
  }

  /** `delete_task` of an identity that occurs removes one task, keeps the others in
      their order, and leaves identities unique when they were. */
  lemma RemovedShape(s: seq<Task>, id: int)
    requires Find(s, id).Some?
    ensures |Removed(s, id)| == |s| - 1
    ensures IsSubseq(Removed(s, id), s)
    ensures UniqueIds(s) ==> UniqueIds(Removed(s, id))
  {
    var i := Find(s, id).value;
    SubseqWithout(s, i);
    if UniqueIds(s) {
      RemovedKeepsUnique(s, i);
    }
  }

  /** Leaving out one position keeps identities unique. */
  lemma RemovedKeepsUnique(s: seq<Task>, i: nat)
    requires i < |s| && UniqueIds(s)
    ensures UniqueIds(s[..i] + s[i + 1..])
  {
    var r := s[..i] + s[i + 1..];
    assert forall j :: 0 <= j < |r| ==> r[j] == s[if j < i then j else j + 1];
  }

  /** Leaving out position `i` gives a subsequence. */
  lemma {:induction false} SubseqWithout(s: seq<Task>, i: nat)
    requires i < |s|
    ensures IsSubseq(s[..i] + s[i + 1..], s)
  {
    if i == 0 {
      assert s[..0] + s[1..] == s[1..];
      SubseqRefl(s[1..]);
    } else {
      SubseqWithout(s[1..], i - 1);
      var r := s[..i] + s[i + 1..];
      assert r[0] == s[0];
      assert r[1..] == s[1..][..i - 1] + s[1..][i..];
    }
  }

  /** After `delete_task`, `get_task` of the deleted identity finds nothing, provided
      identities were unique. */
  lemma DeleteThenGet(s: seq<Task>, id: int)
    requires UniqueIds(s)
    ensures Lookup(Removed(s, id), id) == None
  {
    if Find(s, id).Some? {
      var i := Find(s, id).value;
      var r := Removed(s, id);
      forall j | 0 <= j < |r| ensures r[j].id != id {
        if j < i {
          assert r[j] == s[j];
        } else {
          assert r[j] == s[j + 1];
        }
      }
    }
  }

  /** Marking keeps every identity where it was. */
  lemma MarkedKeepsIds(s: seq<Task>, id: int, done: bool, x: int)
    ensures |Marked(s, id, done)| == |s|
    ensures Find(Marked(s, id, done), x) == Find(s, x)
  {
    FindSameIds(s, Marked(s, id, done), x);
  }

  /** `complete_task` (or `uncomplete_task`) twice is the same as once. */
  lemma MarkedIdempotent(s: seq<Task>, id: int, done: bool)
    ensures Marked(Marked(s, id, done), id, done) == Marked(s, id, done)
  {
    MarkedKeepsIds(s, id, done, id);
  }

  /** `uncomplete_task` undoes `complete_task` on a task that was open. */
  lemma UncompleteUndoesComplete(s: seq<Task>, id: int)
    requires Find(s, id).Some? && !s[Find(s, id).value].completed
    ensures Marked(Marked(s, id, true), id, false) == s
  {
    MarkedKeepsIds(s, id, true, id);
  }

  /** After `complete_task`, the task stays in the full list but is no longer among the
      open tasks, provided identities are unique. */
  lemma CompletedLeavesOpen(s: seq<Task>, id: int)
    requires UniqueIds(s) && Find(s, id).Some?
    ensures forall t :: t in Filter(Marked(s, id, true), Open) ==> t.id != id
    ensures exists t :: t in Marked(s, id, true) && t.id == id && t.completed
  {
    var i := Find(s, id).value;
    var m := Marked(s, id, true);
    assert m[i] in m;
    forall t | t in m && !t.completed ensures t.id != id {
      var j :| 0 <= j < |m| && m[j] == t;
      assert j != i;
    }
  }

  /** Replacing one element changes a count by what the old and new element contribute. */
  lemma {:induction false} CountReplace(s: seq<Task>, i: nat, x: Task, c: Criterion)
    requires i < |s|
    ensures Count(s[i := x], c) + (if Holds(c, s[i]) then 1 else 0)
         == Count(s, c) + (if Holds(c, x) then 1 else 0)
  {
    if i == 0 {
      assert s[i := x][1..] == s[1..];
    } else {
      CountReplace(s[1..], i - 1, x, c);
      assert s[i := x][1..] == s[1..][i - 1 := x];
    }
  }

  /** Completing an open task moves it from the open count to the completed count. */
  lemma CompleteMovesCount(s: seq<Task>, id: int)
    requires Find(s, id).Some? && !s[Find(s, id).value].completed
    ensures Count(Marked(s, id, true), Done) == Count(s, Done) + 1
    ensures Count(Marked(s, id, true), Open) == Count(s, Open) - 1
  {
    var i := Find(s, id).value;
    CountReplace(s, i, s[i].(completed := true), Done);
    CountReplace(s, i, s[i].(completed := true), Open);
  }

  /** `update_task` ignores every key that is not an attribute of a task. */
  lemma UpdateIgnoresUnknownKeys(s: seq<Task>, id: int, changes: Record)
    requires WellTyped(changes)
    ensures WellTyped(Attributes(changes))
    ensures Updated(s, id, changes) == Updated(s, id, Attributes(changes))
  {
  }

  /** Without an `id` key, `update_task` keeps identities, so `get_task` then finds the
      updated task, and a second identical update changes nothing more. */
  lemma UpdateThenGet(s: seq<Task>, id: int, changes: Record)
    requires WellTyped(changes) && "id" !in changes
    ensures Lookup(Updated(s, id, changes), id) ==
      (match Lookup(s, id) case None => None case Some(t) => Some(Apply(t, changes)))
    ensures Updated(Updated(s, id, changes), id, changes) == Updated(s, id, changes)
    ensures UniqueIds(s) ==> UniqueIds(Updated(s, id, changes))
  {
    FindSameIds(s, Updated(s, id, changes), id);
  }

  // ---------------------------------------------------------------------------
  // A client that relies on the contracts above only

  /** The counts of the list the client below builds: an open High task, a completed
      Medium task and an open Low task. */
  lemma ScenarioCounts(high: Task, medium: Task, low: Task)
    requires high.priority == "High" && !high.completed
    requires medium.priority == "Medium" && medium.completed
    requires low.priority == "Low" && !low.completed
    ensures Count([high, medium, low], Done) == 1
    ensures Count([high, medium, low], Both(PriorityIs("High"), Open)) == 1
    ensures Count([high, medium, low], Both(PriorityIs("Medium"), Open)) == 0
    ensures Count([high, medium, low], Both(PriorityIs("Low"), Open)) == 1
  {
    assert [high, medium, low][1..] == [medium, low] && [medium, low][1..] == [low] && [low][1..] == [];
    forall c: Criterion
      ensures Count([high, medium, low], c) ==
        (if Holds(c, high) then 1 else 0) + (if Holds(c, medium) then 1 else 0) + (if Holds(c, low) then 1 else 0)
    {
      assert Count([low], c) == (if Holds(c, low) then 1 else 0) + Count([], c);
      assert Count([medium, low], c) == (if Holds(c, medium) then 1 else 0) + Count([low], c);
    }
    forall p: string, t: Task ensures Holds(Both(PriorityIs(p), Open), t) == (t.priority == p && !t.completed) {
    }
  }

  /** A needle whose first character starts no window of `hay` does not occur in it. */
  lemma NotContained(hay: string, needle: string)
    requires |needle| > 0 && forall i :: 0 <= i <= |hay| - |needle| ==> hay[i] != needle[0]
    ensures !Contains(hay, needle)
  {
    forall i | 0 <= i <= |hay| - |needle| ensures !OccursAt(hay, needle, i) {
      assert hay[i..i + |needle|][0] == hay[i];
    }
  }

  /** The search of the client below: "MILK" is in "Buy milk" and not in "Write report",
      "Walk dog" or an empty description. */
  lemma ScenarioSearch(milk: Task, report: Task, dog: Task)
    requires milk.title == "Buy milk" && report.title == "Write report" && dog.title == "Walk dog"
    requires milk.description == "" && report.description == "" && dog.description == ""
    ensures Filter([milk, report, dog], Mentions("MILK")) == [milk]
  {
    var q := LowerStr("MILK");
    assert q == "milk";
    assert OccursAt(LowerStr(milk.title), q, 4);
    NotContained(LowerStr(report.title), q);
    NotContained(LowerStr(dog.title), q);
    NotContained(LowerStr(""), q);
    assert Holds(Mentions("MILK"), milk);
    assert !Holds(Mentions("MILK"), report) && !Holds(Mentions("MILK"), dog);
    assert [milk, report, dog][1..] == [report, dog] && [report, dog][1..] == [dog] && [dog][1..] == [];
    assert Filter([dog], Mentions("MILK")) == [];
    assert Filter([report, dog], Mentions("MILK")) == [];
  }

  /** A store holding an open High task, a completed Medium task and an open Low task
      reports three tasks, one completed, two pending, and buckets of 1, 0 and 1. */
  lemma ScenarioStatistics(m: TaskManager, high: Task, medium: Task, low: Task)
    requires m.tasks == [high, medium, low]
    requires high.priority == "High" && !high.completed
    requires medium.priority == "Medium" && medium.completed
    requires low.priority == "Low" && !low.completed
    ensures m.GetStatistics() == Statistics(3, 1, 2, 1, 0, 1)
  {
    ScenarioCounts(high, medium, low);
  }

  /** Completing the second of three tasks whose first has another identity marks that one only. */
  lemma MarkSecond(a: Task, b: Task, c: Task)
    requires a.id != b.id
    ensures Marked([a, b, c], b.id, true) == [a, b.(completed := true), c]
  {
    assert Find([b, c], b.id) == Some(0);
    assert Find([a, b, c], b.id) == Some(1);
  }

  /** Three tasks are added to a store with no file and the Medium one is completed:
      the statistics count it as completed and leave it out of the Medium bucket. */
  method ClientStatistics(now: string)
  {
    var m := new TaskManager(Missing, [], []);
    var milk := m.AddTask(1, now, "Buy milk", priority := "High");
    var report := m.AddTask(2, now, "Write report");
    var dog := m.AddTask(3, now, "Walk dog", priority := "Low");
    assert m.tasks == [milk, report, dog];
    MarkSecond(milk, report, dog);
    var ok := m.CompleteTask(2);
    var done := report.(completed := true);
    assert ok && m.tasks == [milk, done, dog];
    ScenarioStatistics(m, milk, done, dog);
    var st := m.GetStatistics();
    assert st == Statistics(3, 1, 2, 1, 0, 1);
  }

  /** The same three tasks: a search for "MILK" finds only the first. */
  method ClientSearch(now: string)
  {
    var m := new TaskManager(Missing, [], []);
    var milk := m.AddTask(1, now, "Buy milk", priority := "High");
    var report := m.AddTask(2, now, "Write report");
    var dog := m.AddTask(3, now, "Walk dog", priority := "Low");
    assert m.tasks == [milk, report, dog];
    ScenarioSearch(milk, report, dog);
    var found := m.SearchTasks("MILK");
    assert found == [milk];
  }
}
