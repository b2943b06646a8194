/** The task entity of src/Task.js: a Task with its validating constructor and
    setters, its two derived date queries, its plain-record form (toJSON and
    fromJSON) and its display string, together with the WorkTask and
    PersonalTask variants, which become a Kind tag on the same entity.

    The clock is a parameter (`now`, milliseconds since the epoch), `new
    Date(text)` is a DateParser parameter, Date.prototype.toISOString an
    IsoFormatter parameter and toLocaleDateString a LocaleFormatter parameter. */
module Tasks {
  import opened Js

  datatype Priority = High | Medium | Low

  function PriorityName(p: Priority): string {
    match p
    case High => "High"
    case Medium => "Medium"
    case Low => "Low"
  }

  /** A JavaScript Date: a time value in milliseconds, or an invalid date (time value NaN). */
  datatype Instant = At(ms: int) | InvalidDate

  /** `new Date(text)`: the time value the text denotes, None when it denotes none. */
  type DateParser = string -> Option<int>

  /** Date.prototype.toISOString of a valid time value. */
  type IsoFormatter = int -> string

  /** Date.prototype.toLocaleDateString of a valid time value. */
  type LocaleFormatter = int -> string

  function DateOf(text: string, parse: DateParser): Instant {
    match parse(text)
    case Some(ms) => At(ms)
    case None => InvalidDate
  }

  /** `value ? new Date(value) : null`, as the constructor and the dueDate setter do it. */
  function DueDateOf(value: Arg, parse: DateParser): (r: Option<Instant>)
    ensures r.None? <==> !Truthy(value)
  {
    if Truthy(value) then Some(DateOf(value.s, parse)) else None
  }

  /** The variant of a task: a plain Task, a WorkTask with its project, a PersonalTask with its location. */
  datatype Kind = Plain | Work(project: Arg) | Personal(location: Arg)

  /** The fields of one task object (the private fields, plus the variant's own field). */
  datatype TaskState = TaskState(
    id: string,
    title: string,
    description: string,
    priority: Priority,
    dueDate: Option<Instant>,
    category: string,
    completed: bool,
    createdAt: Instant,
    kind: Kind)

  /** What the constructor and the setters keep true: the title is trimmed and not empty. */
  predicate ValidState(s: TaskState) {
    s.title != "" && IsTrimmed(s.title)
  }

  const TitleEmpty := "Task title cannot be empty"
  const PriorityInvalid := "Priority must be High, Medium, or Low"

  // ---------------------------------------------------------------------------
  // Validation and construction

  /** validateTitle: a missing or blank title is refused; otherwise the title trimmed. */
  function ValidateTitle(title: Arg): (r: Result<string>)
    ensures r.Success? <==> title.Str? && !AllSpace(title.s)
    ensures r.Success? ==> r.value == Trim(title.s) && r.value != "" && IsTrimmed(r.value)
    ensures r.Failure? ==> r.error == TitleEmpty
  {
    if !Truthy(title) || Trim(title.s) == "" then Failure(TitleEmpty) else Success(Trim(title.s))
  }

  /** validatePriority: only the three names are accepted. */
  function ValidatePriority(priority: Arg): (r: Result<Priority>)
    ensures r.Success? <==> priority in {Str("High"), Str("Medium"), Str("Low")}
    ensures r.Success? ==> Str(PriorityName(r.value)) == priority
    ensures r.Failure? ==> r.error == PriorityInvalid
  {
    match priority
    case Str("High") => Success(High)
    case Str("Medium") => Success(Medium)
    case Str("Low") => Success(Low)
    case _ => Failure(PriorityInvalid)
  }

  /** The default parameter `priority = "Medium"`: it replaces undefined only, not null. */
  function DefaultPriority(priority: Arg): Arg {
    if priority == Undefined then Str("Medium") else priority
  }

  /** `new Task(title, description, priority, dueDate, category)`, given the id the
      constructor generates and the instant it stamps as createdAt. The title is
      checked before the priority, so a task with both wrong reports the title. */
  function NewTask(id: string, createdAt: Instant, title: Arg, description: Arg, priority: Arg,
                   dueDate: Arg, category: Option<string>, kind: Kind, parse: DateParser): (r: Result<TaskState>)
    ensures r.Success? <==> ValidateTitle(title).Success? && ValidatePriority(DefaultPriority(priority)).Success?
    ensures r.Failure? ==> r.error == if ValidateTitle(title).Failure? then TitleEmpty else PriorityInvalid
    ensures r.Success? ==> ValidState(r.value) && r.value.title == Trim(title.s)
    ensures r.Success? ==> r.value.id == id && r.value.createdAt == createdAt && !r.value.completed && r.value.kind == kind
    ensures r.Success? ==> r.value.description == (if Truthy(description) then description.s else "")
    ensures r.Success? && priority == Undefined ==> r.value.priority == Medium
    ensures r.Success? ==> Str(PriorityName(r.value.priority)) == DefaultPriority(priority)
    ensures r.Success? ==> r.value.dueDate == DueDateOf(dueDate, parse)
    ensures r.Success? ==> r.value.category == (if category.Some? then category.value else "General")
  {
    match ValidateTitle(title)
    case Failure(e) => Failure(e)
    case Success(t) =>
      match ValidatePriority(DefaultPriority(priority))
      case Failure(e) => Failure(e)
      case Success(p) =>
        Success(TaskState(
          id, t, if Truthy(description) then description.s else "", p, DueDateOf(dueDate, parse),
          if category.Some? then category.value else "General", false, createdAt, kind))
  }

  /** `new WorkTask(title, description, priority, dueDate, project)`: category "Work", project defaulting to "General". */
  function NewWorkTask(id: string, createdAt: Instant, title: Arg, description: Arg, priority: Arg,
                       dueDate: Arg, project: Arg, parse: DateParser): (r: Result<TaskState>)
    ensures r.Success? ==> r.value.category == "Work"
    ensures r.Success? ==> ValidState(r.value)
    ensures r.Success? ==> r.value.kind == Work(if project == Undefined then Str("General") else project)
    ensures r.Success? <==> NewTask(id, createdAt, title, description, priority, dueDate, None, Plain, parse).Success?
    ensures r.Success? ==> r.value == NewTask(id, createdAt, title, description, priority, dueDate, None, Plain, parse).value
                                        .(category := "Work", kind := r.value.kind)
  {
    NewTask(id, createdAt, title, description, priority, dueDate, Some("Work"),
            Work(if project == Undefined then Str("General") else project), parse)
  }

  /** `new PersonalTask(title, description, priority, dueDate, location)`: category "Personal", location defaulting to null. */
  function NewPersonalTask(id: string, createdAt: Instant, title: Arg, description: Arg, priority: Arg,
                           dueDate: Arg, location: Arg, parse: DateParser): (r: Result<TaskState>)
    ensures r.Success? ==> r.value.category == "Personal"
    ensures r.Success? ==> ValidState(r.value)
    ensures r.Success? ==> r.value.kind == Personal(if location == Undefined then Null else location)
    ensures r.Success? <==> NewTask(id, createdAt, title, description, priority, dueDate, None, Plain, parse).Success?
    ensures r.Success? ==> r.value == NewTask(id, createdAt, title, description, priority, dueDate, None, Plain, parse).value
                                        .(category := "Personal", kind := r.value.kind)
  {
    NewTask(id, createdAt, title, description, priority, dueDate, Some("Personal"),
            Personal(if location == Undefined then Null else location), parse)
  }

  // ---------------------------------------------------------------------------
  // Setters

  /** The fields that have a setter. */
  datatype Field = TitleField | DescriptionField | PriorityField | DueDateField | CategoryField

  /** t agrees with s on every field other than f. */
  predicate SameExcept(s: TaskState, t: TaskState, f: Field) {
    && s.id == t.id && s.completed == t.completed && s.createdAt == t.createdAt && s.kind == t.kind
    && (f != TitleField ==> s.title == t.title)
    && (f != DescriptionField ==> s.description == t.description)
    && (f != PriorityField ==> s.priority == t.priority)
    && (f != DueDateField ==> s.dueDate == t.dueDate)
    && (f != CategoryField ==> s.category == t.category)
  }

  /** s and t hold the same value in field f. */
  predicate Agrees(s: TaskState, t: TaskState, f: Field) {
    match f
    case TitleField => s.title == t.title
    case DescriptionField => s.description == t.description
    case PriorityField => s.priority == t.priority
    case DueDateField => s.dueDate == t.dueDate
    case CategoryField => s.category == t.category
  }

  /** `task[f] = value` through the setter of f: the title and priority setters
      validate and may throw; the description and category setters fall back to
      "" and "General" on a falsy value; the dueDate setter clears on a falsy value. */
  function Assign(s: TaskState, f: Field, value: Arg, parse: DateParser): (r: Result<TaskState>)
    ensures r.Failure? <==> ((f == TitleField && ValidateTitle(value).Failure?)
                             || (f == PriorityField && ValidatePriority(value).Failure?))
    ensures r.Success? ==> SameExcept(s, r.value, f)
    ensures r.Success? && f == TitleField ==> r.value.title == ValidateTitle(value).value
    ensures r.Success? && f == DescriptionField ==> r.value.description == (if Truthy(value) then value.s else "")
    ensures r.Success? && f == PriorityField ==> r.value.priority == ValidatePriority(value).value
    ensures r.Success? && f == DueDateField ==> r.value.dueDate == DueDateOf(value, parse)
    ensures r.Success? && f == CategoryField ==> r.value.category == (if Truthy(value) then value.s else "General")
    ensures r.Success? && ValidState(s) ==> ValidState(r.value)
  {
    match f
    case TitleField =>
      (match ValidateTitle(value)
       case Success(t) => Success(s.(title := t))
       case Failure(e) => Failure(e))
    case DescriptionField => Success(s.(description := if Truthy(value) then value.s else ""))
    case PriorityField =>
      (match ValidatePriority(value)
       case Success(p) => Success(s.(priority := p))
       case Failure(e) => Failure(e))
    case DueDateField => Success(s.(dueDate := DueDateOf(value, parse)))
    case CategoryField => Success(s.(category := if Truthy(value) then value.s else "General"))
  }

  // ---------------------------------------------------------------------------
  // Derived date queries

  const MsPerDay := 86400000

  /** isOverdue at clock reading now: a due date, not completed, and now strictly past it. */
  function IsOverdue(s: TaskState, now: int): (r: bool)
    ensures r ==> !s.completed && s.dueDate.Some?
    ensures r <==> !s.completed && s.dueDate.Some? && s.dueDate.value.At? && now > s.dueDate.value.ms
  {
    match s.dueDate
    case None => false
    case Some(d) => !s.completed && (d.At? && now > d.ms)
  }

  /** getDaysUntilDue: null, a number of days, or NaN for an invalid due date. */
  datatype Days = NoDueDate | DayCount(n: int) | NotANumber

  /** Math.ceil(x / d) for a positive divisor d. */
  function CeilDiv(x: int, d: int): (q: int)
    requires d > 0
    ensures (q - 1) * d < x <= q * d
  {
    var q := (x + d - 1) / d;
    assert d * q <= x + d - 1 < d * q + d;
    q
  }

  /** getDaysUntilDue at clock reading now: the days to the due date rounded up, negative once past. */
  function DaysUntilDue(s: TaskState, now: int): (r: Days)
    ensures r.NoDueDate? <==> s.dueDate.None?
    ensures r.NotANumber? <==> s.dueDate == Some(InvalidDate)
    ensures r.DayCount? ==> s.dueDate.Some? && s.dueDate.value.At?
    ensures r.DayCount? ==> (r.n - 1) * MsPerDay < s.dueDate.value.ms - now <= r.n * MsPerDay
  {
    match s.dueDate
    case None => NoDueDate
    case Some(InvalidDate) => NotANumber
    case Some(At(ms)) => DayCount(CeilDiv(ms - now, MsPerDay))
  }

  /** An overdue task is due today or earlier: its day count is at most zero. */
  lemma OverdueHasNoDaysLeft(s: TaskState, now: int)
    requires IsOverdue(s, now)
    ensures DaysUntilDue(s, now).DayCount? && DaysUntilDue(s, now).n <= 0
  {
  }

  /** A pending task with a valid due date that is not overdue has a day count of at least zero. */
  lemma NotOverdueHasDaysLeft(s: TaskState, now: int)
    requires !s.completed && s.dueDate.Some? && s.dueDate.value.At? && !IsOverdue(s, now)
    ensures DaysUntilDue(s, now).DayCount? && DaysUntilDue(s, now).n >= 0
  {
  }

  /** A due date exactly 24 hours ahead is one day away. */
  lemma DueInOneDay(s: TaskState, now: int)
    requires s.dueDate == Some(At(now + MsPerDay))
    ensures DaysUntilDue(s, now) == DayCount(1)
  {
  }

  // ---------------------------------------------------------------------------
  // toJSON and fromJSON

  /** The extra field a variant adds to its record. */
  datatype Extra = NoExtra | ProjectField(project: Arg) | LocationField(location: Arg)

  /** The plain record of one task, as toJSON writes it and fromJSON reads it; dates are ISO-8601 text. */
  datatype TaskData = TaskData(
    id: string,
    title: Arg,
    description: Arg,
    priority: Arg,
    dueDate: Arg,
    category: Option<string>,
    completed: bool,
    createdAt: string,
    extra: Extra)

  /** The RangeError that toISOString throws on an invalid date. */
  const InvalidTimeValue := "Invalid time value"

  /** toJSON, with the variant's field added; it throws when a date to be written is invalid. */
  function ToData(s: TaskState, iso: IsoFormatter): (r: Result<TaskData>)
    ensures r.Failure? <==> s.dueDate == Some(InvalidDate) || s.createdAt == InvalidDate
    ensures r.Failure? ==> r.error == InvalidTimeValue
    ensures r.Success? ==> r.value.id == s.id && r.value.completed == s.completed
    ensures r.Success? ==> r.value.title == Str(s.title) && r.value.description == Str(s.description)
    ensures r.Success? ==> r.value.priority == Str(PriorityName(s.priority)) && r.value.category == Some(s.category)
    ensures r.Success? ==> r.value.createdAt == iso(s.createdAt.ms)
    ensures r.Success? ==> r.value.dueDate == if s.dueDate.Some? then Str(iso(s.dueDate.value.ms)) else Null
    ensures r.Success? ==> r.value.extra == match s.kind
                                           case Plain => NoExtra
                                           case Work(project) => ProjectField(project)
                                           case Personal(location) => LocationField(location)
  {
    if s.dueDate == Some(InvalidDate) || s.createdAt == InvalidDate then Failure(InvalidTimeValue)
    else
      Success(TaskData(
        s.id, Str(s.title), Str(s.description), Str(PriorityName(s.priority)),
        if s.dueDate.Some? then Str(iso(s.dueDate.value.ms)) else Null,
        Some(s.category), s.completed, iso(s.createdAt.ms),
        match s.kind
        case Plain => NoExtra
        case Work(project) => ProjectField(project)
        case Personal(location) => LocationField(location)))
  }

  /** Task.fromJSON: construct from the record's fields, then overwrite the
      generated id, the completed flag and createdAt with the record's. The
      variant's extra field is ignored: the result is always a plain Task. */
  function FromData(data: TaskData, parse: DateParser): (r: Result<TaskState>)
    ensures r.Success? ==> r.value.kind == Plain && r.value.id == data.id && r.value.completed == data.completed
    ensures r.Success? ==> r.value.createdAt == DateOf(data.createdAt, parse)
    ensures r.Failure? <==> ValidateTitle(data.title).Failure? || ValidatePriority(DefaultPriority(data.priority)).Failure?
    ensures r.Success? ==> r.value.title == Trim(data.title.s) && Str(PriorityName(r.value.priority)) == DefaultPriority(data.priority)
    ensures r.Success? ==> r.value.description == (if Truthy(data.description) then data.description.s else "")
    ensures r.Success? ==> r.value.dueDate == DueDateOf(data.dueDate, parse)
    ensures r.Success? ==> r.value.category == (if data.category.Some? then data.category.value else "General")
  {
    match NewTask(data.id, DateOf(data.createdAt, parse), data.title, data.description, data.priority,
                  data.dueDate, data.category, Plain, parse)
    case Failure(e) => Failure(e)
    case Success(t) => Success(t.(completed := data.completed))
  }

  /** The formatter writes a non-empty text that the parser reads back as the same time value. */
  predicate IsoRoundTrips(iso: IsoFormatter, parse: DateParser, ms: int) {
    iso(ms) != "" && parse(iso(ms)) == Some(ms)
  }

  /** Writing a task and reading it back with Task.fromJSON keeps every field
      of the entity; only the variant tag is lost (a WorkTask or PersonalTask
      comes back as a plain Task whose category is still "Work" or "Personal"). */
  lemma ReloadKeepsFields(s: TaskState, iso: IsoFormatter, parse: DateParser)
    requires ValidState(s)
    requires s.createdAt.At? && IsoRoundTrips(iso, parse, s.createdAt.ms)
    requires s.dueDate.Some? ==> s.dueDate.value.At? && IsoRoundTrips(iso, parse, s.dueDate.value.ms)
    ensures ToData(s, iso).Success?
    ensures FromData(ToData(s, iso).value, parse) == Success(s.(kind := Plain))
  {
    TrimmedIsFixed(s.title);
    assert !AllSpace(s.title) by {
      assert !IsSpace(s.title[0]);
    }
    assert ValidatePriority(Str(PriorityName(s.priority))).Success? by {
      match s.priority
      case High =>
      case Medium =>
      case Low =>
    }
  }

  /** For a base Task the round trip is exact. */
  lemma RoundTrip(s: TaskState, iso: IsoFormatter, parse: DateParser)
    requires ValidState(s) && s.kind == Plain
    requires s.createdAt.At? && IsoRoundTrips(iso, parse, s.createdAt.ms)
    requires s.dueDate.Some? ==> s.dueDate.value.At? && IsoRoundTrips(iso, parse, s.dueDate.value.ms)
    ensures ToData(s, iso).Success? && FromData(ToData(s, iso).value, parse) == Success(s)
  {
    ReloadKeepsFields(s, iso, parse);
  }

  // ---------------------------------------------------------------------------
  // toString

  const Done := '\U{2713}'
  const Pending := '\U{25CB}'

  /** A template-literal rendering of an argument. */
  function ArgText(a: Arg): string {
    match a
    case Undefined => "undefined"
    case Null => "null"
    case Str(s) => s
  }

  function InstantText(d: Instant, locale: LocaleFormatter): string {
    match d
    case At(ms) => locale(ms)
    case InvalidDate => "Invalid Date"
  }

  /** The opening of toString: the status glyph in brackets, the title, then the priority. */
  function Heading(s: TaskState): (h: string)
    ensures |h| == 7 + |s.title| + |PriorityName(s.priority)|
    ensures h[..4] == ['[', if s.completed then Done else Pending, ']', ' ']
    ensures h[4..4 + |s.title|] == s.title
    ensures h[4 + |s.title|..] == " | " + PriorityName(s.priority)
  {
    var glyph := ['[', if s.completed then Done else Pending, ']', ' '];
    var h := glyph + s.title + (" | " + PriorityName(s.priority));
    assert h[..4] == glyph;
    assert h[4..4 + |s.title|] == s.title;
    h
  }

  /** The due-date part of toString: empty without a due date, marked when overdue. */
  function DueInfo(s: TaskState, now: int, locale: LocaleFormatter): string {
    if s.dueDate.Some? then
      " | Due: " + InstantText(s.dueDate.value, locale) + (if IsOverdue(s, now) then " (OVERDUE)" else "")
    else ""
  }

  /** The variant's part of toString: the project, or the location when it has one. */
  function VariantInfo(kind: Kind): string {
    match kind
    case Plain => ""
    case Work(project) => " | Project: " + ArgText(project)
    case Personal(location) => if Truthy(location) then " | Location: " + location.s else ""
  }

  /** toString: the heading, the category, then the due date (marked when
      overdue), then the variant's project, or its location when it has one. */
  function Display(s: TaskState, now: int, locale: LocaleFormatter): (r: string)
    ensures |r| >= |Heading(s)| && r[..|Heading(s)|] == Heading(s)
    ensures IsOverdue(s, now) ==> Contains(r, " (OVERDUE)")
  {
    var r := Heading(s) + " | " + s.category + DueInfo(s, now, locale) + VariantInfo(s.kind);
    assert r[..|Heading(s)|] == Heading(s);
    assert IsOverdue(s, now) ==> Contains(r, " (OVERDUE)") by {
      if IsOverdue(s, now) {
        var front := Heading(s) + " | " + s.category + " | Due: " + InstantText(s.dueDate.value, locale);
        assert r == front + " (OVERDUE)" + VariantInfo(s.kind);
        ContainsMiddle(front, " (OVERDUE)", VariantInfo(s.kind));
      }
    }
    r
  }

  /** toString puts " | " and the category right after the heading, and ends
      with the project of a WorkTask or the location of a PersonalTask that has one. */
  lemma DisplaySegments(s: TaskState, now: int, locale: LocaleFormatter)
    ensures var r := Display(s, now, locale);
            && |r| >= |Heading(s)| + 3 + |s.category|
            && r[|Heading(s)|..|Heading(s)| + 3 + |s.category|] == " | " + s.category
            && (s.kind.Work? ==> EndsWith(r, " | Project: " + ArgText(s.kind.project)))
            && (s.kind.Personal? && Truthy(s.kind.location) ==> EndsWith(r, " | Location: " + s.kind.location.s))
  {
    Segments(Heading(s), s.category, DueInfo(s, now, locale), VariantInfo(s.kind));
  }

  /** The text heading + " | " + category + due + variant has the category
      segment right after the heading and ends with the variant. */
  lemma Segments(heading: string, category: string, due: string, variant: string)
    ensures var r := heading + " | " + category + due + variant;
            && |r| >= |heading| + 3 + |category|
            && r[|heading|..|heading| + 3 + |category|] == " | " + category
            && EndsWith(r, variant)
  {
    var front := heading + " | " + category + due;
    assert front + variant == heading + (" | " + category) + (due + variant);
    PieceAt(heading, " | " + category, due + variant);
    EndsWithAppended(front, variant);
  }

  // ---------------------------------------------------------------------------
  // The task object

  /** One task object; the manager's collection holds references to these, and
      updates go through the setters below, in place. */
  class Task {
    var id: string
    var title: string
    var description: string
    var priority: Priority
    var dueDate: Option<Instant>
    var category: string
    var completed: bool
    var createdAt: Instant
    var kind: Kind

    function State(): TaskState
      reads this
    {
      TaskState(id, title, description, priority, dueDate, category, completed, createdAt, kind)
    }

    ghost predicate Valid()
      reads this
    {
      ValidState(State())
    }

    /** Allocates an object holding the given fields. */
    constructor Of(s: TaskState)
      ensures State() == s
    {
      id, title, description, priority, dueDate := s.id, s.title, s.description, s.priority, s.dueDate;
      category, completed, createdAt, kind := s.category, s.completed, s.createdAt, s.kind;
    }

    /** `new Task(...)`, given the generated id and the clock reading. */
    static method Create(id: string, now: int, title: Arg, description: Arg, priority: Arg,
                         dueDate: Arg, category: Option<string>, parse: DateParser) returns (r: Result<Task>)
      ensures var built := NewTask(id, At(now), title, description, priority, dueDate, category, Plain, parse);
              match built
              case Success(s) => r.Success? && fresh(r.value) && r.value.State() == s
              case Failure(e) => r == Failure(e)
    {
      var built := NewTask(id, At(now), title, description, priority, dueDate, category, Plain, parse);
      if built.Failure? {
        return Failure(built.error);
      }
      var t := new Task.Of(built.value);
      return Success(t);
    }

    /** `new WorkTask(...)`, given the generated id and the clock reading. */
    static method CreateWork(id: string, now: int, title: Arg, description: Arg, priority: Arg,
                             dueDate: Arg, project: Arg, parse: DateParser) returns (r: Result<Task>)
      ensures var built := NewWorkTask(id, At(now), title, description, priority, dueDate, project, parse);
              match built
              case Success(s) => r.Success? && fresh(r.value) && r.value.State() == s
              case Failure(e) => r == Failure(e)
    {
      var built := NewWorkTask(id, At(now), title, description, priority, dueDate, project, parse);
      if built.Failure? {
        return Failure(built.error);
      }
      var t := new Task.Of(built.value);
      return Success(t);
    }

    /** `new PersonalTask(...)`, given the generated id and the clock reading. */
    static method CreatePersonal(id: string, now: int, title: Arg, description: Arg, priority: Arg,
                                 dueDate: Arg, location: Arg, parse: DateParser) returns (r: Result<Task>)
      ensures var built := NewPersonalTask(id, At(now), title, description, priority, dueDate, location, parse);
              match built
              case Success(s) => r.Success? && fresh(r.value) && r.value.State() == s
              case Failure(e) => r == Failure(e)
    {
      var built := NewPersonalTask(id, At(now), title, description, priority, dueDate, location, parse);
      if built.Failure? {
        return Failure(built.error);
      }
      var t := new Task.Of(built.value);
      return Success(t);
    }

    /** Task.fromJSON: a new object whose fields are those the record describes. */
    static method FromJson(data: TaskData, parse: DateParser) returns (r: Result<Task>)
      ensures match FromData(data, parse)
              case Success(s) => r.Success? && fresh(r.value) && r.value.State() == s
              case Failure(e) => r == Failure(e)
    {
      var built := FromData(data, parse);
      if built.Failure? {
        return Failure(built.error);
      }
      var t := new Task.Of(built.value);
      return Success(t);
    }

    /** toJSON. */
    function ToJson(iso: IsoFormatter): (r: Result<TaskData>)
      reads this
      ensures r == ToData(State(), iso)
    {
      ToData(State(), iso)
    }

    method SetTitle(newTitle: Arg) returns (o: Outcome)
      modifies this
      ensures match ValidateTitle(newTitle)
              case Success(t) => o == Pass && State() == old(State()).(title := t)
              case Failure(e) => o == Fail(e) && State() == old(State())
    {
      var checked := ValidateTitle(newTitle);
      if checked.Failure? {
        return Fail(checked.error);
      }
      title := checked.value;
      return Pass;
    }

    method SetDescription(newDescription: Arg)
      modifies this
      ensures State() == old(State()).(description := if Truthy(newDescription) then newDescription.s else "")
    {
      description := if Truthy(newDescription) then newDescription.s else "";
    }

    method SetPriority(newPriority: Arg) returns (o: Outcome)
      modifies this
      ensures match ValidatePriority(newPriority)
              case Success(p) => o == Pass && State() == old(State()).(priority := p)
              case Failure(e) => o == Fail(e) && State() == old(State())
    {
      var checked := ValidatePriority(newPriority);
      if checked.Failure? {
        return Fail(checked.error);
      }
      priority := checked.value;
      return Pass;
    }

    method SetDueDate(newDueDate: Arg, parse: DateParser)
      modifies this
      ensures State() == old(State()).(dueDate := DueDateOf(newDueDate, parse))
    {
      dueDate := DueDateOf(newDueDate, parse);
    }

    method SetCategory(newCategory: Arg)
      modifies this
      ensures State() == old(State()).(category := if Truthy(newCategory) then newCategory.s else "General")
    {
      category := if Truthy(newCategory) then newCategory.s else "General";
    }

    method MarkComplete()
      modifies this
      ensures State() == old(State()).(completed := true)
    {
      completed := true;
    }

    method MarkIncomplete()
      modifies this
      ensures State() == old(State()).(completed := false)
    {
      completed := false;
    }
  }
}
