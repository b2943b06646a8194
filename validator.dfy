/** The static checks of src/Validator.js: validateTaskData, validateId and sanitizeInput. */
module Validator {
  import opened Js
  import opened Tasks

  const TitleRequired := "Title is required"
  const DueDateInvalid := "Invalid due date format"

  /** The keys of a task-data object that validateTaskData looks at; others are ignored. */
  datatype TaskInput = TaskInput(title: Arg, priority: Arg, dueDate: Arg)

  /** The `{ isValid, errors }` object validateTaskData returns. */
  datatype Validation = Validation(isValid: bool, errors: seq<string>)

  predicate TitleMissing(title: Arg) {
    !Truthy(title) || Trim(title.s) == ""
  }

  /** A priority is checked only when it is truthy: undefined, null and "" pass. */
  predicate PriorityRejected(priority: Arg) {
    Truthy(priority) && ValidatePriority(priority).Failure?
  }

  /** A due date is checked only when it is truthy. */
  predicate DueDateRejected(dueDate: Arg, parse: DateParser) {
    Truthy(dueDate) && DateOf(dueDate.s, parse) == InvalidDate
  }

  /** The position of a message in the order the checks run. */
  function CheckOrder(message: string): int {
    if message == TitleRequired then 0 else if message == PriorityInvalid then 1 else 2
  }

  /** The messages validateTaskData collects: each check that fails contributes
      its message, none stops the others, and they come in the order title,
      priority, due date. */
  function TaskDataErrors(data: TaskInput, parse: DateParser): (r: seq<string>)
    ensures TitleRequired in r <==> TitleMissing(data.title)
    ensures PriorityInvalid in r <==> PriorityRejected(data.priority)
    ensures DueDateInvalid in r <==> DueDateRejected(data.dueDate, parse)
    ensures forall k :: 0 <= k < |r| ==> r[k] in {TitleRequired, PriorityInvalid, DueDateInvalid}
    ensures forall i, j :: 0 <= i < j < |r| ==> CheckOrder(r[i]) < CheckOrder(r[j])
  {
    Failed(TitleMissing(data.title), PriorityRejected(data.priority), DueDateRejected(data.dueDate, parse))
  }

  /** One message per failed check, in the order the checks run. */
  function Failed(titleMissing: bool, priorityRejected: bool, dueDateRejected: bool): (r: seq<string>)
    ensures TitleRequired in r <==> titleMissing
    ensures PriorityInvalid in r <==> priorityRejected
    ensures DueDateInvalid in r <==> dueDateRejected
    ensures forall k :: 0 <= k < |r| ==> r[k] in {TitleRequired, PriorityInvalid, DueDateInvalid}
    ensures forall i, j :: 0 <= i < j < |r| ==> CheckOrder(r[i]) < CheckOrder(r[j])
  {
    MessagesDiffer();
    (if titleMissing then [TitleRequired] else [])
    + (if priorityRejected then [PriorityInvalid] else [])
    + (if dueDateRejected then [DueDateInvalid] else [])
  }

  /** The three messages are told apart by their lengths. */
  lemma MessagesDiffer()
    ensures TitleRequired != PriorityInvalid && TitleRequired != DueDateInvalid && PriorityInvalid != DueDateInvalid
  {
    assert |TitleRequired| == 17 && |DueDateInvalid| == 23 && |PriorityInvalid| == 37;
  }

  /** validateTaskData, pushing one message per failed check. */
  method ValidateTaskData(data: TaskInput, parse: DateParser) returns (v: Validation)
    ensures v.errors == TaskDataErrors(data, parse)
    ensures v.isValid <==> v.errors == []
  {
    var errors: seq<string> := [];
    if !Truthy(data.title) || Trim(data.title.s) == "" {
      errors := errors + [TitleRequired];
    }
    ghost var afterTitle := errors;
    if Truthy(data.priority) && !(data.priority.s in ["High", "Medium", "Low"]) {
      errors := errors + [PriorityInvalid];
    }
    PriorityCheck(data.priority);
    if Truthy(data.dueDate) {
      var date := DateOf(data.dueDate.s, parse);
      if date.InvalidDate? {
        errors := errors + [DueDateInvalid];
      }
    }
    assert afterTitle == if TitleMissing(data.title) then [TitleRequired] else [];
    assert errors == Failed(TitleMissing(data.title), PriorityRejected(data.priority), DueDateRejected(data.dueDate, parse));
    return Validation(|errors| == 0, errors);
  }

  /** The membership test of validateTaskData rejects what the Task constructor rejects. */
  lemma PriorityCheck(priority: Arg)
    ensures PriorityRejected(priority) <==> Truthy(priority) && !(priority.s in ["High", "Medium", "Low"])
  {
  }

  /** Validation passes exactly when none of the three checks fails. */
  lemma NoErrors(data: TaskInput, parse: DateParser)
    ensures TaskDataErrors(data, parse) == []
            <==> !TitleMissing(data.title) && !PriorityRejected(data.priority) && !DueDateRejected(data.dueDate, parse)
  {
    var r := TaskDataErrors(data, parse);
    if r != [] {
      assert r[0] in {TitleRequired, PriorityInvalid, DueDateInvalid};
    }
  }

  /** When the title is the only thing wrong, the one message is "Title is required". */
  lemma OnlyTitleMissing(data: TaskInput, parse: DateParser)
    requires TitleMissing(data.title)
    requires !PriorityRejected(data.priority) && !DueDateRejected(data.dueDate, parse)
    ensures TaskDataErrors(data, parse) == [TitleRequired]
  {
  }

  /** Data that passes validation has a title the Task constructor accepts. */
  lemma ValidatedTitleIsAccepted(data: TaskInput, parse: DateParser)
    requires TaskDataErrors(data, parse) == []
    ensures ValidateTitle(data.title).Success?
  {
    assert !TitleMissing(data.title);
  }

  /** Data that passes validation with a priority that is not undefined, null
      or "" has a priority the Task constructor accepts; the three falsy
      values pass validation without being accepted by it. */
  lemma ValidatedPriority(data: TaskInput, parse: DateParser)
    requires TaskDataErrors(data, parse) == []
    ensures Truthy(data.priority) ==> ValidatePriority(data.priority).Success?
    ensures data.priority in {Null, Str("")} ==> ValidatePriority(data.priority).Failure?
  {
    assert !PriorityRejected(data.priority);
  }

  /** validateId: a non-empty string. */
  function ValidateId(id: Arg): (ok: bool)
    ensures ok <==> id.Str? && |id.s| > 0
  {
    match id
    case Str(s) => |s| > 0
    case _ => false
  }

  predicate NotAngle(c: char) {
    c != '<' && c != '>'
  }

  /** sanitizeInput: a string is trimmed and stripped of every '<' and '>';
      anything else is returned as it is. */
  function SanitizeInput(input: Arg): (r: Arg)
    ensures !input.Str? ==> r == input
    ensures input.Str? ==> r.Str? && |r.s| <= |input.s|
    ensures input.Str? ==> forall k :: 0 <= k < |r.s| ==> NotAngle(r.s[k])
    ensures input.Str? ==> r.s == Filter(Trim(input.s), NotAngle)
  {
    match input
    case Str(s) => Str(Filter(Trim(s), NotAngle))
    case _ => input
  }

  lemma StripExample()
    ensures Filter("< a", NotAngle) == " a" && Filter("a", NotAngle) == "a"
  {
    assert "a"[1..] == [];
    assert " a"[1..] == "a";
    assert "< a"[1..] == " a";
  }

  lemma TrimExample()
    ensures Trim("< a") == "< a" && Trim(" a") == "a"
  {
    TrimKeepsBracket();
    TrimCutsSpace();
  }

  lemma TrimKeepsBracket()
    ensures Trim("< a") == "< a"
  {
    SpaceExamples();
    TrimmedIsFixed("< a");
  }

  lemma TrimCutsSpace()
    ensures Trim(" a") == "a"
  {
    SpaceExamples();
    TrimmedIsFixed("a");
    LeadingSpaceCut();
  }

  lemma SpaceExamples()
    ensures IsSpace(' ') && !IsSpace('a') && !IsSpace('<')
  {
  }

  lemma LeadingSpaceCut()
    requires IsSpace(' ') && !IsSpace('a')
    ensures TrimStart(" a") == "a" && TrimStart("a") == "a"
  {
    assert " a"[0] == ' ' && " a"[1..] == "a";
    assert "a"[0] == 'a';
  }

  /** sanitizeInput trims before it strips, so removing a bracket can expose
      white space that a second pass then trims: it is not idempotent. */
  lemma SanitizeNotIdempotent()
    ensures SanitizeInput(Str("< a")) == Str(" a")
    ensures SanitizeInput(SanitizeInput(Str("< a"))) == Str("a")
  {
    StripExample();
    TrimExample();
    assert SanitizeInput(Str("< a")) == Str(Filter(Trim("< a"), NotAngle));
    assert SanitizeInput(Str(" a")) == Str(Filter(Trim(" a"), NotAngle));
  }

  /** Sanitizing text that has no brackets and no surrounding white space changes nothing. */
  lemma SanitizeKeepsCleanText(s: string)
    requires IsTrimmed(s) && forall k :: 0 <= k < |s| ==> NotAngle(s[k])
    ensures SanitizeInput(Str(s)) == Str(s)
  {
    TrimmedIsFixed(s);
    FilterKeepsAll(s, NotAngle);
  }
}
