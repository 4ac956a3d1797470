/** The task record of the to-do store, its field-map form (what `to_dict` builds and
    `from_dict` reads) and the persisted file, which holds a sequence of field maps. */
module Tasks {

  datatype Option<T> = None | Some(value: T)

  /** A scalar of the persisted format: the values a field map can hold. */
  datatype Value = Int(i: int) | Str(s: string) | Bool(b: bool) | Null

  /** One task in its persisted form: field name to value. */
  type Record = map<string, Value>

  datatype Task = Task(
    id: int,
    title: string,
    description: string,
    priority: string,    // "Low", "Medium" or "High" by convention; never checked
    dueDate: string,
    completed: bool,
    createdAt: string)

  /** The names of the seven data attributes of a task, as `to_dict` spells them. */
  const FieldNames: set<string> :=
    {"id", "title", "description", "priority", "due_date", "completed", "created_at"}

  /** Whether `v` has the kind the task attribute named `k` holds;
      names that are not attributes accept anything. */
  predicate Fits(k: string, v: Value) {
    if k == "id" then v.Int?
    else if k == "completed" then v.Bool?
    else if k in FieldNames then v.Str?
    else true
  }

  /** Every attribute named in `d` is given a value of the attribute's kind. */
  predicate WellTyped(d: Record) {
    forall k :: k in d ==> Fits(k, d[k])
  }

  /** The constructor `Task(title, description, priority, due_date)`: a new task is
      not completed. The identity and the creation time come from the caller. */
  function NewTask(id: int, now: string, title: string, description: string := "",
                   priority: string := "Medium", dueDate: string := ""): (t: Task)
    ensures !t.completed && t.id == id && t.createdAt == now
  {
    Task(id, title, description, priority, dueDate, false, now)
  }

  /** `to_dict`: exactly the seven attributes, each under its own name. */
  function ToDict(t: Task): (d: Record)
    ensures d.Keys == FieldNames
    ensures WellTyped(d)
  {
    map["id" := Int(t.id), "title" := Str(t.title), "description" := Str(t.description),
        "priority" := Str(t.priority), "due_date" := Str(t.dueDate),
        "completed" := Bool(t.completed), "created_at" := Str(t.createdAt)]
  }

  /** The string under `k`, or `default` when there is none. */
  function StrOr(d: Record, k: string, default: string): string {
    if k in d && d[k].Str? then d[k].s else default
  }

  /** `from_dict`: fails exactly when there is no title (the `KeyError` of `data['title']`);
      every other missing attribute gets its default, and a missing or null id gets
      `freshId` (the identity `Task(...)` allocates). */
  function FromDict(d: Record, freshId: int, now: string): (r: Option<Task>)
    ensures r.None? <==> "title" !in d
    ensures r.Some? ==> forall k :: k in d && k in FieldNames && Fits(k, d[k]) ==> ToDict(r.value)[k] == d[k]
    ensures r.Some? && ("id" !in d || d["id"] == Null) ==> r.value.id == freshId
    ensures r.Some? && "description" !in d ==> r.value.description == ""
    ensures r.Some? && "priority" !in d ==> r.value.priority == "Medium"
    ensures r.Some? && "due_date" !in d ==> r.value.dueDate == ""
    ensures r.Some? && "completed" !in d ==> !r.value.completed
    ensures r.Some? && "created_at" !in d ==> r.value.createdAt == now
  {
    if "title" !in d then None
    else
      var t := NewTask(
        if "id" in d && d["id"].Int? then d["id"].i else freshId,
        now,
        StrOr(d, "title", ""),
        StrOr(d, "description", ""),
        StrOr(d, "priority", "Medium"),
        StrOr(d, "due_date", ""));
      Some(t.(completed := if "completed" in d && d["completed"].Bool? then d["completed"].b else false,
              createdAt := StrOr(d, "created_at", now)))
  }

  /** The constructor's defaults are the ones `from_dict` fills in: a record holding only
      a title loads to the task the constructor builds from that title alone. */
  lemma ConstructorDefaults(title: string, freshId: int, now: string)
    ensures FromDict(map["title" := Str(title)], freshId, now) == Some(NewTask(freshId, now, title))
  {
  }

  /** `from_dict(to_dict(t))` gives back `t`, whatever identity and clock it is offered. */
  lemma DictRoundTrip(t: Task, freshId: int, now: string)
    ensures FromDict(ToDict(t), freshId, now) == Some(t)
  {
  }

  /** What the backing file holds: nothing, text that does not parse, or a parsed
      sequence of field maps. */
  datatype Stored = Missing | Corrupt | Parsed(records: seq<Record>)

  /** How many records a load reads, so how many identities and timestamps it may need. */
  function RecordCount(file: Stored): nat {
    if file.Parsed? then |file.records| else 0
  }

  /** `save_tasks` without the file system: the field map of each task, in order. */
  function Serialise(ts: seq<Task>): (rs: seq<Record>)
    ensures |rs| == |ts|
    ensures forall i :: 0 <= i < |ts| ==> rs[i] == ToDict(ts[i])
    ensures forall i :: 0 <= i < |ts| ==> rs[i].Keys == FieldNames && WellTyped(rs[i])
  {
    seq(|ts|, i requires 0 <= i < |ts| => ToDict(ts[i]))
  }

  /** The list comprehension of `load_tasks`: the whole load fails as soon as one record
      has no title; otherwise record i becomes task i. */
  function FromDicts(rs: seq<Record>, freshIds: seq<int>, stamps: seq<string>): (r: Option<seq<Task>>)
    requires |freshIds| == |rs| && |stamps| == |rs|
    ensures r.None? <==> exists i :: 0 <= i < |rs| && "title" !in rs[i]
    ensures r.Some? ==> |r.value| == |rs|
    ensures r.Some? ==> forall i :: 0 <= i < |rs| ==> FromDict(rs[i], freshIds[i], stamps[i]) == Some(r.value[i])
  {
    if rs == [] then Some([])
    else
      match (FromDict(rs[0], freshIds[0], stamps[0]), FromDicts(rs[1..], freshIds[1..], stamps[1..]))
      case (Some(t), Some(ts)) =>
        assert forall i :: 1 <= i < |rs| ==> rs[i] == rs[1..][i - 1];
        Some([t] + ts)
      case _ =>
        assert forall i :: 1 <= i < |rs| ==> rs[i] == rs[1..][i - 1];
        None
  }

  /** `load_tasks`: a missing file and a file that does not parse both give the empty
      list, and so does a record without a title; otherwise every record is read. */
  function Load(file: Stored, freshIds: seq<int>, stamps: seq<string>): (ts: seq<Task>)
    requires |freshIds| == RecordCount(file) && |stamps| == RecordCount(file)
    ensures !file.Parsed? ==> ts == []
    ensures file.Parsed? && (exists i :: 0 <= i < |file.records| && "title" !in file.records[i]) ==> ts == []
    ensures file.Parsed? && (forall i :: 0 <= i < |file.records| ==> "title" in file.records[i]) ==>
      |ts| == |file.records| &&
      forall i :: 0 <= i < |ts| ==> FromDict(file.records[i], freshIds[i], stamps[i]) == Some(ts[i])
  {
    match file
    case Parsed(rs) =>
      (match FromDicts(rs, freshIds, stamps)
       case Some(ts) => ts
       case None => [])
    case _ => []
  }

  /** Saving and then loading gives back the same tasks, field for field. */
  lemma {:induction false} SaveLoadRoundTrip(ts: seq<Task>, freshIds: seq<int>, stamps: seq<string>)
    requires |freshIds| == |ts| && |stamps| == |ts|
    ensures Load(Parsed(Serialise(ts)), freshIds, stamps) == ts
  {
    var rs := Serialise(ts);
    forall i | 0 <= i < |rs| ensures "title" in rs[i] && FromDict(rs[i], freshIds[i], stamps[i]) == Some(ts[i]) {
      DictRoundTrip(ts[i], freshIds[i], stamps[i]);
    }
    var loaded := Load(Parsed(rs), freshIds, stamps);
    assert |loaded| == |ts|;
    forall i | 0 <= i < |ts| ensures loaded[i] == ts[i] {
      assert FromDict(rs[i], freshIds[i], stamps[i]) == Some(loaded[i]);
    }
  }
}
