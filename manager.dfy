/** The TaskManager of src/TaskManager.js: one ordered sequence of task
    objects, the mutations over it (addTask, updateTask, deleteTask,
    toggleTaskCompletion, importTasks) and the queries that read it. Each
    successful mutation ends by saving the collection; the saved snapshot is
    the ghost field `saved`. */
module Manager {
  import opened Js
  import opened Tasks
  import opened Queries
  import Validator

  const NotFound := "Task not found"
  const AddFailed := "Failed to add task: "

  /** The states of the task objects a sequence of references points to. */
  function StatesOf(ts: seq<Task>): (r: seq<TaskState>)
    reads ts
    ensures |r| == |ts| && forall i :: 0 <= i < |ts| ==> r[i] == ts[i].State()
    decreases |ts|
  {
    if ts == [] then [] else [ts[0].State()] + StatesOf(ts[1..])
  }

  /** No object occurs twice. */
  predicate Distinct(ts: seq<Task>) {
    forall i, j :: 0 <= i < j < |ts| ==> ts[i] != ts[j]
  }

  /** Appending valid objects that are distinct and new keeps a sequence free
      of repeats and made of valid objects. */
  lemma AppendKeepsValid(a: seq<Task>, b: seq<Task>)
    requires Distinct(a) && Distinct(b) && forall t :: t in b ==> t.Valid() && t !in a
    requires forall t :: t in a ==> t.Valid()
    ensures Distinct(a + b) && forall t :: t in a + b ==> t.Valid()
  {
    forall i, j | 0 <= i < j < |a + b|
      ensures (a + b)[i] != (a + b)[j]
    {
      if i >= |a| {
        assert (a + b)[i] == b[i - |a|] && (a + b)[j] == b[j - |a|];
      } else if j >= |a| {
        assert (a + b)[i] in a && (a + b)[j] == b[j - |a|];
      }
    }
  }

  /** The states of two sequences of references, one after the other. */
  lemma StatesOfAppend(a: seq<Task>, b: seq<Task>)
    ensures StatesOf(a + b) == StatesOf(a) + StatesOf(b)
    ensures StatesOf([]) == [] && (|b| == 1 ==> StatesOf(b) == [b[0].State()])
  {
    assert |StatesOf(a + b)| == |StatesOf(a) + StatesOf(b)|;
    forall i | 0 <= i < |a + b|
      ensures StatesOf(a + b)[i] == (StatesOf(a) + StatesOf(b))[i]
    {
      if i >= |a| {
        assert (a + b)[i] == b[i - |a|];
      }
    }
  }

  /** Array.prototype.filter over task objects: the references, in stored
      order, whose state satisfies keep. */
  function Pick(ts: seq<Task>, keep: TaskState -> bool): (r: seq<Task>)
    reads ts
    ensures StatesOf(r) == Filter(StatesOf(ts), keep)
    ensures forall i :: 0 <= i < |r| ==> r[i] in ts
    decreases |ts|
  {
    if ts == [] then []
    else
      var head := if keep(ts[0].State()) then [ts[0]] else [];
      var rest := Pick(ts[1..], keep);
      PickStep(ts, head, rest, keep);
      PickMembers(ts, head, rest);
      head + rest
  }

  /** One step of Pick: the first reference, if kept, then what the rest keeps. */
  lemma PickStep(ts: seq<Task>, head: seq<Task>, rest: seq<Task>, keep: TaskState -> bool)
    requires ts != [] && head == (if keep(ts[0].State()) then [ts[0]] else [])
    requires StatesOf(rest) == Filter(StatesOf(ts[1..]), keep)
    ensures StatesOf(head + rest) == Filter(StatesOf(ts), keep)
  {
    StatesOfAppend(head, rest);
    var ss := StatesOf(ts);
    assert ss[0] == ts[0].State() && ss[1..] == StatesOf(ts[1..]);
  }

  /** What Pick keeps, first reference or the rest, comes from ts. */
  lemma PickMembers(ts: seq<Task>, head: seq<Task>, rest: seq<Task>)
    requires ts != [] && (head == [] || head == [ts[0]])
    requires forall i :: 0 <= i < |rest| ==> rest[i] in ts[1..]
    ensures forall i :: 0 <= i < |head + rest| ==> (head + rest)[i] in ts
  {
    forall i | 0 <= i < |head + rest|
      ensures (head + rest)[i] in ts
    {
      if i >= |head| {
        assert (head + rest)[i] == rest[i - |head|];
      }
    }
  }

  /** Array.prototype.findIndex by id: the first position holding the id, if any. */
  function IndexOfId(ss: seq<TaskState>, id: string): (r: Option<nat>)
    ensures r.None? <==> forall i :: 0 <= i < |ss| ==> ss[i].id != id
    ensures r.Some? ==> r.value < |ss| && ss[r.value].id == id
    ensures r.Some? ==> forall i :: 0 <= i < r.value ==> ss[i].id != id
    decreases |ss|
  {
    if ss == [] then None
    else if ss[0].id == id then Some(0)
    else
      match IndexOfId(ss[1..], id)
      case None => None
      case Some(k) => Some(k + 1)
  }

  /** The search by id depends only on the ids at each position. */
  lemma {:induction false} IndexOfIdOnlyReadsIds(ss: seq<TaskState>, tt: seq<TaskState>, id: string)
    requires |ss| == |tt| && forall i :: 0 <= i < |ss| ==> ss[i].id == tt[i].id
    ensures IndexOfId(ss, id) == IndexOfId(tt, id)
    decreases |ss|
  {
    if ss != [] {
      IndexOfIdOnlyReadsIds(ss[1..], tt[1..], id);
    }
  }

  // ---------------------------------------------------------------------------
  // addTask

  /** The task addTask appends, or the error it throws: validation of the
      data with the defaulted priority, then the construction OfType names. */
  function AddedTask(id: string, now: int, title: Arg, description: Arg, priority: Arg, dueDate: Arg,
                     category: Option<string>, taskType: string, parse: DateParser): (r: Result<TaskState>)
    ensures var errors := Validator.TaskDataErrors(Validator.TaskInput(title, DefaultPriority(priority), dueDate), parse);
            errors != [] ==> r == Failure(AddFailed + Join(errors, ", "))
  {
    var errors := Validator.TaskDataErrors(Validator.TaskInput(title, DefaultPriority(priority), dueDate), parse);
    if errors != [] then Failure(AddFailed + Join(errors, ", "))
    else
      match OfType(id, now, title, description, DefaultPriority(priority), dueDate, category, taskType, parse)
      case Failure(e) => Failure(AddFailed + e)
      case Success(s) => Success(s)
  }

  /** What addTask gives once the data passes validation. After validation
      only a null or "" priority can still fail. A new task is valid, has a
      trimmed title, the given id and clock, and is not completed. The
      priority stored is the one given, "Medium" when it is left out, and the
      description and due date are the constructor's. */
  lemma AddedTaskOutcome(id: string, now: int, title: Arg, description: Arg, priority: Arg, dueDate: Arg,
                         category: Option<string>, taskType: string, parse: DateParser)
    requires Validator.TaskDataErrors(Validator.TaskInput(title, DefaultPriority(priority), dueDate), parse) == []
    ensures var r := AddedTask(id, now, title, description, priority, dueDate, category, taskType, parse);
            (r.Failure? ==> r.error == AddFailed + PriorityInvalid && priority in {Null, Str("")})
            && (r.Success? ==> ValidState(r.value) && r.value.title == Trim(title.s))
            && (r.Success? ==> r.value.id == id && r.value.createdAt == At(now) && !r.value.completed)
            && (r.Success? ==> Str(PriorityName(r.value.priority)) == DefaultPriority(priority))
            && (r.Success? ==> r.value.description == (if Truthy(description) then description.s else ""))
            && (r.Success? ==> r.value.dueDate == DueDateOf(dueDate, parse))
  {
    var p := DefaultPriority(priority);
    var built := OfType(id, now, title, description, p, dueDate, category, taskType, parse);
    AddedIsOfType(id, now, title, description, priority, dueDate, category, taskType, parse);
    var r := AddedTask(id, now, title, description, priority, dueDate, category, taskType, parse);
    if built.Failure? {
      var input := Validator.TaskInput(title, p, dueDate);
      Validator.ValidatedTitleIsAccepted(input, parse);
      Validator.ValidatedPriority(input, parse);
      assert built.error == PriorityInvalid;
      assert r == Failure(AddFailed + PriorityInvalid);
    } else {
      assert DefaultPriority(p) == p;
      assert r == built;
    }
  }

  /** "work" and "personal", in any case, pick a variant and ignore the
      category argument; any other type gives a base Task with the category. */
  lemma AddedTaskKind(id: string, now: int, title: Arg, description: Arg, priority: Arg, dueDate: Arg,
                      category: Option<string>, taskType: string, parse: DateParser)
    requires Validator.TaskDataErrors(Validator.TaskInput(title, DefaultPriority(priority), dueDate), parse) == []
    ensures var r := AddedTask(id, now, title, description, priority, dueDate, category, taskType, parse);
            && (r.Success? && Lower(taskType) == "work" ==> r.value.category == "Work" && r.value.kind == Work(Str("General")))
            && (r.Success? && Lower(taskType) == "personal" ==> r.value.category == "Personal" && r.value.kind == Personal(Null))
            && (r.Success? && Lower(taskType) !in {"work", "personal"} ==>
                  r.value.kind == Plain && r.value.category == (if category.Some? then category.value else "General"))
  {
    AddedIsOfType(id, now, title, description, priority, dueDate, category, taskType, parse);
  }

  /** Once validation passes, addTask's result is the switch's task, or its error with the prefix. */
  lemma AddedIsOfType(id: string, now: int, title: Arg, description: Arg, priority: Arg, dueDate: Arg,
                      category: Option<string>, taskType: string, parse: DateParser)
    requires Validator.TaskDataErrors(Validator.TaskInput(title, DefaultPriority(priority), dueDate), parse) == []
    ensures var built := OfType(id, now, title, description, DefaultPriority(priority), dueDate, category, taskType, parse);
            AddedTask(id, now, title, description, priority, dueDate, category, taskType, parse)
            == if built.Failure? then Failure(AddFailed + built.error) else built
  {
  }

  /** The switch of addTask on the lower-cased type: the variant it names,
      without project or location, or else a base Task with the category. */
  function OfType(id: string, now: int, title: Arg, description: Arg, priority: Arg, dueDate: Arg,
                  category: Option<string>, taskType: string, parse: DateParser): (r: Result<TaskState>)
    ensures r.Success? <==> ValidateTitle(title).Success? && ValidatePriority(DefaultPriority(priority)).Success?
    ensures r.Success? ==> ValidState(r.value) && r.value.title == Trim(title.s)
    ensures r.Success? ==> r.value.id == id && r.value.createdAt == At(now) && !r.value.completed
    ensures r.Success? ==> Str(PriorityName(r.value.priority)) == DefaultPriority(priority)
    ensures r.Success? ==> r.value.description == (if Truthy(description) then description.s else "")
    ensures r.Success? ==> r.value.dueDate == DueDateOf(dueDate, parse)
    ensures r.Failure? ==> r.error == if ValidateTitle(title).Failure? then TitleEmpty else PriorityInvalid
    ensures r.Success? && Lower(taskType) == "work" ==> r.value.category == "Work" && r.value.kind == Work(Str("General"))
    ensures r.Success? && Lower(taskType) == "personal" ==> r.value.category == "Personal" && r.value.kind == Personal(Null)
    ensures r.Success? && Lower(taskType) !in {"work", "personal"} ==>
              r.value.kind == Plain && r.value.category == (if category.Some? then category.value else "General")
  {
    var kind := Lower(taskType);
    if kind == "work" then NewWorkTask(id, At(now), title, description, priority, dueDate, Undefined, parse)
    else if kind == "personal" then NewPersonalTask(id, At(now), title, description, priority, dueDate, Undefined, parse)
    else NewTask(id, At(now), title, description, priority, dueDate, category, Plain, parse)
  }

  // ---------------------------------------------------------------------------
  // updateTask

  /** One key of an update object with its value; only the five fields that
      have setters are modelled. */
  datatype Update = Update(field: Field, value: Arg)

  /** The keys of an object are distinct. */
  predicate DistinctFields(updates: seq<Update>) {
    forall i, j :: 0 <= i < j < |updates| ==> updates[i].field != updates[j].field
  }

  /** `updates[f]`: the value under key f, undefined when the key is absent. */
  function ValueOf(updates: seq<Update>, f: Field): (v: Arg)
    ensures v != Undefined ==> exists k :: 0 <= k < |updates| && updates[k] == Update(f, v)
    decreases |updates|
  {
    if updates == [] then Undefined
    else if updates[0].field == f then updates[0].value
    else
      var v := ValueOf(updates[1..], f);
      assert v != Undefined ==> exists k :: 0 <= k < |updates| && updates[k] == Update(f, v) by {
        if v != Undefined {
          var k :| 0 <= k < |updates[1..]| && updates[1..][k] == Update(f, v);
          assert updates[k + 1] == Update(f, v);
        }
      }
      v
  }

  /** The update object as validateTaskData reads it. */
  function UpdateInput(updates: seq<Update>): Validator.TaskInput {
    Validator.TaskInput(ValueOf(updates, TitleField), ValueOf(updates, PriorityField), ValueOf(updates, DueDateField))
  }

  /** The state of the task after the forEach loop, and the error a setter threw, if one did. */
  datatype Applied = Applied(state: TaskState, error: Option<string>)

  /** One step of the forEach loop: an undefined value is skipped, any other
      is assigned through the field's setter. */
  function ApplyUpdate(s: TaskState, u: Update, parse: DateParser): Result<TaskState> {
    if u.value == Undefined then Success(s) else Assign(s, u.field, u.value, parse)
  }

  /** The forEach loop of updateTask: the keys in order, stopping at the first
      setter that throws, with the assignments made before it kept. The id,
      completed flag, createdAt and variant are never touched, and a valid
      task stays valid. */
  function ApplyUpdates(s: TaskState, updates: seq<Update>, parse: DateParser): (r: Applied)
    ensures r.state.id == s.id && r.state.completed == s.completed
    ensures r.state.createdAt == s.createdAt && r.state.kind == s.kind
    ensures ValidState(s) ==> ValidState(r.state)
    ensures r.error.Some? ==> r.error.value in {TitleEmpty, PriorityInvalid}
    decreases |updates|
  {
    if updates == [] then Applied(s, None)
    else
      match ApplyUpdate(s, updates[0], parse)
      case Failure(e) => Applied(s, Some(e))
      case Success(t) => ApplyUpdates(t, updates[1..], parse)
  }

  /** updateTask as written, for a task found in the collection: validate
      the update object, then run the forEach loop. A setter that throws
      leaves the assignments before it in place. */
  function UpdateAsWritten(s: TaskState, updates: seq<Update>, parse: DateParser): (r: Applied)
    ensures r.error.None? ==> r == ApplyUpdates(s, updates, parse)
    ensures Validator.TaskDataErrors(UpdateInput(updates), parse) == [] ==> r == ApplyUpdates(s, updates, parse)
    ensures var errors := Validator.TaskDataErrors(UpdateInput(updates), parse);
            errors != [] ==> r.state == s && r.error == Some(Join(errors, ", "))
  {
    var errors := Validator.TaskDataErrors(UpdateInput(updates), parse);
    if errors != [] then Applied(s, Some(Join(errors, ", ")))
    else ApplyUpdates(s, updates, parse)
  }

  /** validateTaskData reads the update object as if it were a whole task, so
      an update without a title key is refused with "Title is required" and
      changes nothing. */
  lemma UpdateNeedsTitle(s: TaskState, updates: seq<Update>, parse: DateParser)
    requires ValueOf(updates, TitleField) == Undefined
    ensures Validator.TitleRequired in Validator.TaskDataErrors(UpdateInput(updates), parse)
    ensures UpdateAsWritten(s, updates, parse).state == s && UpdateAsWritten(s, updates, parse).error.Some?
  {
  }

  /** An update that passes validation can still make the priority setter
      throw, after the title has already been replaced: validateTaskData lets
      a null priority through, and the setter refuses it. */
  lemma PartialUpdate(s: TaskState, parse: DateParser)
    requires ValidState(s) && s.title != "New"
    ensures var updates := [Update(TitleField, Str("New")), Update(PriorityField, Null)];
            UpdateAsWritten(s, updates, parse) == Applied(s.(title := "New"), Some(PriorityInvalid))
  {
    NewTitleValidates(parse);
    NullPriorityThrows(s, parse);
  }

  /** validateTaskData accepts { title: "New", priority: null }. */
  lemma NewTitleValidates(parse: DateParser)
    ensures Validator.TaskDataErrors(UpdateInput([Update(TitleField, Str("New")), Update(PriorityField, Null)]), parse) == []
  {
    var updates := [Update(TitleField, Str("New")), Update(PriorityField, Null)];
    assert UpdateInput(updates) == Validator.TaskInput(Str("New"), Null, Undefined) by {
      assert updates[1..] == [Update(PriorityField, Null)];
      assert updates[1..][1..] == [];
    }
    assert !Validator.TitleMissing(Str("New")) by {
      TrimmedIsFixed("New");
    }
    Validator.NoErrors(Validator.TaskInput(Str("New"), Null, Undefined), parse);
  }

  /** The forEach loop over { title: "New", priority: null } sets the title,
      then the priority setter throws. */
  lemma NullPriorityThrows(s: TaskState, parse: DateParser)
    ensures ApplyUpdates(s, [Update(TitleField, Str("New")), Update(PriorityField, Null)], parse)
            == Applied(s.(title := "New"), Some(PriorityInvalid))
  {
    var titled := s.(title := "New");
    SetNewTitle(s, parse);
    assert ApplyUpdate(titled, Update(PriorityField, Null), parse) == Failure(PriorityInvalid);
    SecondKeyThrows(s, titled, Update(TitleField, Str("New")), Update(PriorityField, Null), parse);
  }

  /** Over two keys, when the first setter succeeds and the second throws,
      the loop ends with the first assignment made and the second error. */
  lemma SecondKeyThrows(s: TaskState, t: TaskState, u: Update, w: Update, parse: DateParser)
    requires ApplyUpdate(s, u, parse) == Success(t) && ApplyUpdate(t, w, parse).Failure?
    ensures ApplyUpdates(s, [u, w], parse) == Applied(t, Some(ApplyUpdate(t, w, parse).error))
  {
    assert [u, w][0] == u && [u, w][1..] == [w] && [w][0] == w;
  }

  /** The title setter accepts "New" as it is. */
  lemma SetNewTitle(s: TaskState, parse: DateParser)
    ensures Assign(s, TitleField, Str("New"), parse) == Success(s.(title := "New"))
  {
    assert Trim("New") == "New" by {
      TrimmedIsFixed("New");
    }
  }

  /** One key of an update object that has passed validation: a title key is
      a title the setter accepts, a priority key a truthy name or a falsy value. */
  predicate Passes(u: Update, parse: DateParser) {
    match u.field
    case TitleField => !Validator.TitleMissing(u.value)
    case PriorityField => !Validator.PriorityRejected(u.value)
    case DueDateField => !Validator.DueDateRejected(u.value, parse)
    case _ => true
  }

  /** Validation of a whole update object vouches for each of its keys. */
  lemma {:induction false} ValidatedKeysPass(updates: seq<Update>, parse: DateParser)
    requires DistinctFields(updates)
    requires Validator.TaskDataErrors(UpdateInput(updates), parse) == []
    ensures forall k :: 0 <= k < |updates| ==> Passes(updates[k], parse)
  {
    forall k | 0 <= k < |updates|
      ensures Passes(updates[k], parse)
    {
      ValueOfDistinct(updates, k);
    }
  }

  /** With distinct keys, the value under a key is the value of its one entry. */
  lemma {:induction false} ValueOfDistinct(updates: seq<Update>, k: nat)
    requires DistinctFields(updates) && k < |updates|
    ensures ValueOf(updates, updates[k].field) == updates[k].value
    decreases k
  {
    if k > 0 {
      assert DistinctFields(updates[1..]) by {
        forall i, j | 0 <= i < j < |updates[1..]|
          ensures updates[1..][i].field != updates[1..][j].field
        {
          assert updates[1..][i] == updates[i + 1] && updates[1..][j] == updates[j + 1];
        }
      }
      assert updates[0].field != updates[k].field;
      assert updates[1..][k - 1] == updates[k];
      ValueOfDistinct(updates[1..], k - 1);
    }
  }

  /** The keys after the first of an object with distinct keys are distinct,
      and none of them is the first key. */
  lemma DistinctTail(updates: seq<Update>)
    requires DistinctFields(updates) && updates != []
    ensures DistinctFields(updates[1..])
    ensures ValueOf(updates[1..], updates[0].field) == Undefined
  {
    var tail := updates[1..];
    assert forall i :: 0 <= i < |tail| ==> tail[i] == updates[i + 1];
  }

  /** When no setter throws, the forEach loop over distinct keys leaves a
      field whose value is undefined (or whose key is absent) as it was, and
      gives every other field what its setter makes of the value. */
  lemma {:induction false} ApplyUpdatesAssigns(s: TaskState, updates: seq<Update>, parse: DateParser, f: Field)
    requires DistinctFields(updates)
    requires ApplyUpdates(s, updates, parse).error.None?
    ensures var v := ValueOf(updates, f);
            var r := ApplyUpdates(s, updates, parse).state;
            if v == Undefined then Agrees(r, s, f)
            else Assign(s, f, v, parse).Success? && Agrees(r, Assign(s, f, v, parse).value, f)
    decreases |updates|
  {
    if updates != [] {
      var u := updates[0];
      var t := ApplyUpdate(s, u, parse).value;
      assert ApplyUpdates(s, updates, parse) == ApplyUpdates(t, updates[1..], parse);
      DistinctTail(updates);
      ApplyUpdatesAssigns(t, updates[1..], parse, f);
      if u.field == f {
        assert ValueOf(updates, f) == u.value;
      } else {
        assert ValueOf(updates, f) == ValueOf(updates[1..], f);
      }
    }
  }

  /** The forEach loop over keys that passed validation can fail only on a
      priority key whose value is null or "": the gap between validateTaskData,
      which skips a falsy priority, and the priority setter, which refuses it. */
  lemma {:induction false} OnlyFalsyPriorityFails(s: TaskState, updates: seq<Update>, parse: DateParser)
    requires forall k :: 0 <= k < |updates| ==> Passes(updates[k], parse)
    requires ApplyUpdates(s, updates, parse).error.Some?
    ensures ApplyUpdates(s, updates, parse).error == Some(PriorityInvalid)
    ensures exists k :: 0 <= k < |updates| && updates[k] in {Update(PriorityField, Null), Update(PriorityField, Str(""))}
    decreases |updates|
  {
    var u := updates[0];
    match ApplyUpdate(s, u, parse)
    case Failure(e) =>
      assert Passes(updates[0], parse);
      assert u.field == PriorityField;
    case Success(t) =>
      assert forall k :: 0 <= k < |updates[1..]| ==> updates[1..][k] == updates[k + 1];
      OnlyFalsyPriorityFails(t, updates[1..], parse);
      var k :| 0 <= k < |updates[1..]| && updates[1..][k] in {Update(PriorityField, Null), Update(PriorityField, Str(""))};
      assert updates[k + 1] == updates[1..][k];
  }

  /** updateTask corrected: validate, then apply the setters only when none
      of them would throw, so that an update either happens whole or not at all. */
  function UpdateAtomic(s: TaskState, updates: seq<Update>, parse: DateParser): (r: Applied)
    ensures r.error.Some? ==> r.state == s
    ensures r.error.None? ==> r == UpdateAsWritten(s, updates, parse)
    ensures UpdateAsWritten(s, updates, parse).error == r.error
  {
    var written := UpdateAsWritten(s, updates, parse);
    if written.error.Some? then Applied(s, written.error) else written
  }

  /** An update that succeeds leaves each field without a defined value as
      it was and gives every other field what its setter makes of the value. */
  lemma UpdateAssigns(s: TaskState, updates: seq<Update>, parse: DateParser, f: Field)
    requires DistinctFields(updates)
    requires UpdateAtomic(s, updates, parse).error.None?
    ensures var v := ValueOf(updates, f);
            var r := UpdateAtomic(s, updates, parse).state;
            if v == Undefined then Agrees(r, s, f)
            else Assign(s, f, v, parse).Success? && Agrees(r, Assign(s, f, v, parse).value, f)
  {
    ApplyUpdatesAssigns(s, updates, parse, f);
  }

  // ---------------------------------------------------------------------------
  // toggleTaskCompletion and deleteTask, on the states

  /** toggleTaskCompletion on the states: flip the completed flag of the first task with the id. */
  function Toggled(ss: seq<TaskState>, id: string): (r: Result<seq<TaskState>>)
    ensures r.Failure? <==> IndexOfId(ss, id).None?
    ensures r.Failure? ==> r.error == NotFound
    ensures r.Success? ==> |r.value| == |ss| && forall i :: 0 <= i < |ss| ==> r.value[i].id == ss[i].id
    ensures r.Success? ==> var i := IndexOfId(ss, id).value;
                           && r.value[i] == ss[i].(completed := !ss[i].completed)
                           && forall j :: 0 <= j < |ss| && j != i ==> r.value[j] == ss[j]
  {
    match IndexOfId(ss, id)
    case None => Failure(NotFound)
    case Some(i) => Success(ss[i := ss[i].(completed := !ss[i].completed)])
  }

  /** Toggling the same task twice gives back the collection it started from. */
  lemma ToggleTwice(ss: seq<TaskState>, id: string)
    requires IndexOfId(ss, id).Some?
    ensures Toggled(ss, id).Success? && Toggled(Toggled(ss, id).value, id) == Success(ss)
  {
    var i := IndexOfId(ss, id).value;
    var once := Toggled(ss, id).value;
    IndexOfIdOnlyReadsIds(ss, once, id);
    assert once[i := once[i].(completed := !once[i].completed)] == ss;
  }

  /** A task appended with an id no earlier task has is the one deleteTask then
      finds, and removing it gives back the collection before the append. */
  lemma DeleteAfterAdd(ss: seq<TaskState>, s: TaskState)
    requires forall i :: 0 <= i < |ss| ==> ss[i].id != s.id
    ensures IndexOfId(ss + [s], s.id) == Some(|ss|)
    ensures (ss + [s])[..|ss|] + (ss + [s])[|ss| + 1..] == ss
  {
    var all := ss + [s];
    assert all[|ss|].id == s.id;
    assert forall i :: 0 <= i < |ss| ==> all[i].id == ss[i].id;
    assert IndexOfId(all, s.id).Some?;
    assert all[..|ss|] == ss && all[|ss| + 1..] == [];
  }

  /** The body of addTask's try block up to the push: validate, then build
      the task or the variant the type names; every error is prefixed with
      "Failed to add task: ". */
  method BuildTask(id: string, now: int, title: Arg, description: Arg, priority: Arg, dueDate: Arg,
                   category: Option<string>, taskType: string, parse: DateParser) returns (r: Result<Task>)
    ensures r.Failure? ==> AddedTask(id, now, title, description, priority, dueDate, category, taskType, parse) == Failure(r.error)
    ensures r.Success? ==> AddedTask(id, now, title, description, priority, dueDate, category, taskType, parse) == Success(r.value.State())
                           && fresh(r.value) && r.value.Valid()
  {
    var input := Validator.TaskInput(title, DefaultPriority(priority), dueDate);
    var validation := Validator.ValidateTaskData(input, parse);
    if !validation.isValid {
      return Failure(AddFailed + Join(validation.errors, ", "));
    }
    var created := CreateOfType(id, now, title, description, DefaultPriority(priority), dueDate, category, taskType, parse);
    if created.Failure? {
      return Failure(AddFailed + created.error);
    }
    return created;
  }

  /** The switch statement of addTask: construct the object OfType describes. */
  method CreateOfType(id: string, now: int, title: Arg, description: Arg, priority: Arg, dueDate: Arg,
                      category: Option<string>, taskType: string, parse: DateParser) returns (created: Result<Task>)
    ensures match OfType(id, now, title, description, priority, dueDate, category, taskType, parse)
            case Success(s) => created.Success? && fresh(created.value) && created.value.State() == s && created.value.Valid()
            case Failure(e) => created == Failure(e)
  {
    var kind := Lower(taskType);
    ghost var built := OfType(id, now, title, description, priority, dueDate, category, taskType, parse);
    if kind == "work" {
      assert built == NewWorkTask(id, At(now), title, description, priority, dueDate, Undefined, parse);
      created := Task.CreateWork(id, now, title, description, priority, dueDate, Undefined, parse);
    } else if kind == "personal" {
      assert built == NewPersonalTask(id, At(now), title, description, priority, dueDate, Undefined, parse);
      created := Task.CreatePersonal(id, now, title, description, priority, dueDate, Undefined, parse);
    } else {
      assert built == NewTask(id, At(now), title, description, priority, dueDate, category, Plain, parse);
      created := Task.Create(id, now, title, description, priority, dueDate, category, parse);
    }
  }

  /** The forEach loop of updateTask on one task object, run only once the
      same updates are known to pass every setter. */
  method AssignAll(t: Task, updates: seq<Update>, parse: DateParser)
    requires ApplyUpdates(t.State(), updates, parse).error.None?
    modifies t
    ensures t.State() == ApplyUpdates(old(t.State()), updates, parse).state
  {
    ghost var staged := ApplyUpdates(t.State(), updates, parse);
    var k := 0;
    while k < |updates|
      invariant 0 <= k <= |updates|
      invariant ApplyUpdates(t.State(), updates[k..], parse) == staged
    {
      var u := updates[k];
      assert updates[k..][0] == u && updates[k..][1..] == updates[k + 1..];
      if u.value != Undefined {
        match u.field
        case TitleField =>
          var _ := t.SetTitle(u.value);
        case DescriptionField =>
          t.SetDescription(u.value);
        case PriorityField =>
          var _ := t.SetPriority(u.value);
        case DueDateField =>
          t.SetDueDate(u.value, parse);
        case CategoryField =>
          t.SetCategory(u.value);
      }
      k := k + 1;
    }
  }

  /** The comparator value of each task object for a field, read once. */
  function KeysOf(ts: seq<Task>, f: SortField): (keys: map<Task, SortKey>)
    reads ts
    ensures forall t :: t in ts ==> t in keys && keys[t] == SortKeyOf(t.State(), f)
  {
    map t | t in ts :: SortKeyOf(t.State(), f)
  }

  function KeyOf(keys: map<Task, SortKey>): Task -> SortKey {
    t => if t in keys then keys[t] else NaN
  }

  /** Every task yields a comparator value of the same kind, so the comparator is consistent. */
  ghost predicate UniformKeys(ts: seq<Task>, f: SortField)
    reads ts
  {
    forall i, j :: 0 <= i < |ts| && 0 <= j < |ts| ==> SameKind(SortKeyOf(ts[i].State(), f), SortKeyOf(ts[j].State(), f))
  }

  /** No task goes before one whose comparator value precedes its own. */
  ghost predicate OrderedBy(r: seq<Task>, f: SortField, ascending: bool)
    reads r
  {
    forall i, j :: 0 <= i < j < |r| ==> !Precedes(SortKeyOf(r[j].State(), f), SortKeyOf(r[i].State(), f), ascending)
  }

  /** Sorting by the keys read once orders the tasks by their current comparator values. */
  lemma SortedByKeys(ts: seq<Task>, f: SortField, ascending: bool)
    ensures var r := SortBy(ts, KeyOf(KeysOf(ts, f)), ascending);
            UniformKeys(ts, f) ==> OrderedBy(r, f, ascending)
  {
    var key := KeyOf(KeysOf(ts, f));
    var r := SortBy(ts, key, ascending);
    if UniformKeys(ts, f) {
      forall x, y | x in ts && y in ts
        ensures SameKind(key(x), key(y))
      {
        var i :| 0 <= i < |ts| && ts[i] == x;
        var j :| 0 <= j < |ts| && ts[j] == y;
      }
      SortBySorted(ts, key, ascending);
      forall i | 0 <= i < |r| ensures key(r[i]) == SortKeyOf(r[i].State(), f) {
        assert r[i] in multiset(ts);
      }
    }
  }

  // ---------------------------------------------------------------------------
  // The manager

  class TaskManager {
    var tasks: seq<Task>
    /** The collection as it stood at the last call to saveTasks, that is,
        what that call was asked to write. Whether the write itself took
        place (saveTasks reports failure instead of throwing) is not modelled. */
    ghost var saved: seq<TaskState>

    /** The collection holds distinct objects, each with a valid title. */
    ghost predicate Valid()
      reads this`tasks, tasks
    {
      Distinct(tasks) && forall t :: t in tasks ==> t.Valid()
    }

    function States(): seq<TaskState>
      reads this`tasks, tasks
    {
      StatesOf(tasks)
    }

    constructor()
      ensures Valid() && tasks == [] && saved == []
    {
      tasks := [];
      saved := [];
    }

    /** saveTasks: record the collection as it is now. */
    method Save()
      requires Valid()
      modifies this
      ensures Valid() && tasks == old(tasks) && States() == old(States()) && saved == States()
    {
      saved := States();
    }

    /** `this.tasks = [...this.tasks, ...more]`, then saveTasks. */
    method Append(more: seq<Task>)
      requires Valid()
      requires forall t :: t in more ==> t.Valid() && t !in tasks
      requires Distinct(more)
      modifies this
      ensures Valid()
      ensures tasks == old(tasks) + more && States() == old(States()) + StatesOf(more) && saved == States()
    {
      ghost var expected := States() + StatesOf(more);
      StatesOfAppend(tasks, more);
      AppendKeepsValid(tasks, more);
      tasks := tasks + more;
      assert States() == expected;
      Save();
    }

    /** `this.tasks.push(task)`, then saveTasks. */
    method Push(t: Task)
      requires Valid() && t.Valid() && t !in tasks
      modifies this
      ensures Valid()
      ensures tasks == old(tasks) + [t] && States() == old(States()) + [t.State()] && saved == States()
    {
      StatesOfAppend(tasks, [t]);
      tasks := tasks + [t];
      Save();
    }

    /** Run the updates on the task at position i; every other task keeps its state. */
    method UpdateAt(i: nat, updates: seq<Update>, parse: DateParser)
      requires Valid() && i < |tasks|
      requires ApplyUpdates(States()[i], updates, parse).error.None?
      modifies tasks[i]
      ensures Valid() && tasks == old(tasks)
      ensures States() == old(States())[i := ApplyUpdates(old(States())[i], updates, parse).state]
    {
      var t := tasks[i];
      AssignAll(t, updates, parse);
      assert forall j :: 0 <= j < |tasks| && j != i ==> tasks[j] != t;
    }

    /** `this.tasks.splice(i, 1)`: drop the task at position i, keep the rest in order. */
    method RemoveAt(i: nat)
      requires Valid() && i < |tasks|
      modifies this
      ensures Valid() && saved == old(saved)
      ensures tasks == old(tasks)[..i] + old(tasks)[i + 1..]
    {
      tasks := tasks[..i] + tasks[i + 1..];
      assert forall j :: 0 <= j < |tasks| ==> tasks[j] == old(tasks)[if j < i then j else j + 1];
    }

    /** `task.completed ? task.markIncomplete() : task.markComplete()` on the
        task at position i; every other task keeps its state. */
    method FlipAt(i: nat)
      requires Valid() && i < |tasks|
      modifies tasks[i]
      ensures Valid() && tasks == old(tasks)
      ensures States() == old(States())[i := old(States())[i].(completed := !old(States())[i].completed)]
    {
      var t := tasks[i];
      if t.completed {
        t.MarkIncomplete();
      } else {
        t.MarkComplete();
      }
      assert forall j :: 0 <= j < |tasks| && j != i ==> tasks[j] != t;
    }

    /** addTask, given the id the new task generates and the clock reading. */
    method AddTask(id: string, now: int, title: Arg, description: Arg, priority: Arg, dueDate: Arg,
                   category: Option<string>, taskType: string, parse: DateParser) returns (r: Result<Task>)
      requires Valid()
      modifies this
      ensures Valid()
      ensures r.Failure? ==> AddedTask(id, now, title, description, priority, dueDate, category, taskType, parse) == Failure(r.error)
                             && tasks == old(tasks) && saved == old(saved)
      ensures r.Success? ==> AddedTask(id, now, title, description, priority, dueDate, category, taskType, parse) == Success(r.value.State())
                             && fresh(r.value) && tasks == old(tasks) + [r.value]
                             && States() == old(States()) + [r.value.State()] && saved == States()
    {
      r := BuildTask(id, now, title, description, priority, dueDate, category, taskType, parse);
      if r.Success? {
        ghost var added := r.value.State();
        Push(r.value);
        assert r.value.State() == added;
      }
    }

    /** updateTask, corrected so that a setter that throws leaves the task as it was. */
    method UpdateTask(id: string, updates: seq<Update>, parse: DateParser) returns (r: Result<Task>)
      requires Valid()
      modifies this, tasks
      ensures Valid() && tasks == old(tasks)
      ensures match IndexOfId(old(States()), id)
              case None => r == Failure(NotFound) && States() == old(States()) && saved == old(saved)
              case Some(i) =>
                var u := UpdateAtomic(old(States())[i], updates, parse);
                && States() == old(States())[i := u.state]
                && (u.error.Some? ==> r == Failure(u.error.value) && saved == old(saved))
                && (u.error.None? ==> r == Success(tasks[i]) && saved == States())
    {
      var found := IndexOfId(States(), id);
      if found.None? {
        return Failure(NotFound);
      }
      var i := found.value;
      var t := tasks[i];
      ghost var before := States();
      ghost var u := UpdateAtomic(before[i], updates, parse);
      assert before[i := before[i]] == before;
      var validation := Validator.ValidateTaskData(UpdateInput(updates), parse);
      if !validation.isValid {
        assert u == Applied(before[i], Some(Join(validation.errors, ", ")));
        return Failure(Join(validation.errors, ", "));
      }
      var staged := ApplyUpdates(t.State(), updates, parse);
      if staged.error.Some? {
        assert u == Applied(before[i], staged.error);
        return Failure(staged.error.value);
      }
      assert u == staged;
      UpdateAt(i, updates, parse);
      Save();
      return Success(t);
    }

    /** deleteTask: remove the first task with the id and return it. */
    method DeleteTask(id: string) returns (r: Result<Task>)
      requires Valid()
      modifies this
      ensures Valid()
      ensures match IndexOfId(old(States()), id)
              case None => r == Failure(NotFound) && tasks == old(tasks) && saved == old(saved)
              case Some(i) => r == Success(old(tasks)[i]) && tasks == old(tasks)[..i] + old(tasks)[i + 1..]
                              && |tasks| == |old(tasks)| - 1 && saved == States()
    {
      var found := IndexOfId(States(), id);
      if found.None? {
        return Failure(NotFound);
      }
      var i := found.value;
      var deleted := tasks[i];
      RemoveAt(i);
      Save();
      return Success(deleted);
    }

    /** toggleTaskCompletion: flip the completed flag of the first task with the id. */
    method ToggleTaskCompletion(id: string) returns (r: Result<Task>)
      requires Valid()
      modifies this, tasks
      ensures Valid() && tasks == old(tasks)
      ensures Toggled(old(States()), id).Failure? ==> r == Failure(NotFound) && States() == old(States()) && saved == old(saved)
      ensures Toggled(old(States()), id).Success? ==> States() == Toggled(old(States()), id).value
      ensures Toggled(old(States()), id).Success? ==> r == Success(tasks[IndexOfId(old(States()), id).value]) && saved == States()
    {
      var found := IndexOfId(States(), id);
      if found.None? {
        return Failure(NotFound);
      }
      var i := found.value;
      FlipAt(i);
      Save();
      return Success(tasks[i]);
    }

    /** importTasks, given what the file handler read: nothing (null), or
      task objects of its own making, appended after the existing ones. */
    method ImportTasks(imported: Option<seq<Task>>) returns (count: nat)
      requires Valid()
      requires imported.Some? ==> forall t :: t in imported.value ==> t.Valid() && t !in tasks
      requires imported.Some? ==> Distinct(imported.value)
      modifies this
      ensures Valid()
      ensures imported.None? ==> count == 0 && tasks == old(tasks) && saved == old(saved)
      ensures imported.Some? ==> count == |imported.value| && tasks == old(tasks) + imported.value && saved == States()
    {
      if imported.None? {
        return 0;
      }
      Append(imported.value);
      return |imported.value|;
    }

    /** findTaskById: the first task with the id. */
    function FindTaskById(id: string): (r: Option<Task>)
      reads this`tasks, tasks
      ensures r.None? <==> forall i :: 0 <= i < |tasks| ==> tasks[i].id != id
      ensures r.Some? ==> r.value in tasks && r.value.id == id
      ensures r.Some? ==> exists i :: 0 <= i < |tasks| && tasks[i] == r.value && forall j :: 0 <= j < i ==> tasks[j].id != id
    {
      match IndexOfId(States(), id)
      case None => None
      case Some(i) => Some(tasks[i])
    }

    function SearchTasks(query: string): (r: seq<Task>)
      reads this`tasks, tasks
      ensures StatesOf(r) == Filter(States(), SearchKeep(query))
      ensures forall i :: 0 <= i < |r| ==> r[i] in tasks && MatchesQuery(r[i].State(), query)
    {
      Pick(tasks, SearchKeep(query))
    }

    function FilterByCategory(category: string): (r: seq<Task>)
      reads this`tasks, tasks
      ensures StatesOf(r) == Filter(States(), CategoryKeep(category))
      ensures forall i :: 0 <= i < |r| ==> r[i] in tasks && InCategory(r[i].State(), category)
    {
      Pick(tasks, CategoryKeep(category))
    }

    function FilterByPriority(priority: string): (r: seq<Task>)
      reads this`tasks, tasks
      ensures StatesOf(r) == Filter(States(), PriorityKeep(priority))
      ensures forall i :: 0 <= i < |r| ==> r[i] in tasks && HasPriority(r[i].State(), priority)
    {
      Pick(tasks, PriorityKeep(priority))
    }

    function FilterByStatus(completed: bool): (r: seq<Task>)
      reads this`tasks, tasks
      ensures StatesOf(r) == Filter(States(), StatusKeep(completed))
      ensures forall i :: 0 <= i < |r| ==> r[i] in tasks && r[i].completed == completed
    {
      Pick(tasks, StatusKeep(completed))
    }

    function GetOverdueTasks(now: int): (r: seq<Task>)
      reads this`tasks, tasks
      ensures StatesOf(r) == Filter(States(), OverdueKeep(now))
      ensures forall i :: 0 <= i < |r| ==> r[i] in tasks && IsOverdue(r[i].State(), now)
    {
      Pick(tasks, OverdueKeep(now))
    }

    function GetTasksDueSoon(now: int, days: int): (r: seq<Task>)
      reads this`tasks, tasks
      ensures StatesOf(r) == Filter(States(), DueSoonKeep(now, days))
      ensures forall i :: 0 <= i < |r| ==> r[i] in tasks && IsDueSoon(r[i].State(), now, days)
    {
      Pick(tasks, DueSoonKeep(now, days))
    }

    function AdvancedFilter(criteria: Criteria, now: int, parse: DateParser): (r: seq<Task>)
      reads this`tasks, tasks
      ensures StatesOf(r) == Filter(States(), CriteriaKeep(criteria, now, parse))
      ensures forall i :: 0 <= i < |r| ==> r[i] in tasks && MeetsCriteria(r[i].State(), criteria, now, parse)
    {
      Pick(tasks, CriteriaKeep(criteria, now, parse))
    }

    /** sortTasks: a sorted copy; the stored order is untouched. */
    function SortTasks(sortBy: string, ascending: bool): (r: seq<Task>)
      reads this`tasks, tasks
      ensures multiset(r) == multiset(tasks)
      ensures var f := SortFieldOf(sortBy);
              UniformKeys(tasks, f) ==> OrderedBy(r, f, ascending)
    {
      var f := SortFieldOf(sortBy);
      SortedByKeys(tasks, f, ascending);
      SortBy(tasks, KeyOf(KeysOf(tasks, f)), ascending)
    }

    /** getTaskStats at clock reading now: the overdue and due-soon counts are
        the lengths of getOverdueTasks() and getTasksDueSoon(). */
    function GetTaskStats(now: int): (r: TaskStats)
      reads this`tasks, tasks
      ensures r == Stats(States(), now)
      ensures r.overdue == |GetOverdueTasks(now)| && r.dueSoon == |GetTasksDueSoon(now, 7)|
      ensures r.total == |tasks| && r.pending == r.total - r.completed
    {
      Stats(States(), now)
    }
  }
}
