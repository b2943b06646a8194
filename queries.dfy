/** The read-only operations of src/TaskManager.js, stated over the states of
    the tasks in the collection: search, the four filters, the overdue and
    due-soon lists, advancedFilter, sortTasks and getTaskStats. */
module Queries {
  import opened Js
  import opened Tasks

  // ---------------------------------------------------------------------------
  // Search and filters

  /** searchTasks: the lower-cased query occurs in the lower-cased title, description or category. */
  predicate MatchesQuery(s: TaskState, query: string) {
    var q := Lower(query);
    Contains(Lower(s.title), q) || Contains(Lower(s.description), q) || Contains(Lower(s.category), q)
  }

  /** filterByCategory: the categories are equal once lower-cased. */
  predicate InCategory(s: TaskState, category: string) {
    Lower(s.category) == Lower(category)
  }

  /** filterByPriority: the priority names are equal once lower-cased. */
  predicate HasPriority(s: TaskState, priority: string) {
    Lower(PriorityName(s.priority)) == Lower(priority)
  }

  /** getTasksDueSoon: pending, and due between today and `days` days from now; NaN never qualifies. */
  predicate IsDueSoon(s: TaskState, now: int, days: int) {
    !s.completed && match DaysUntilDue(s, now)
                    case DayCount(n) => 0 <= n <= days
                    case _ => false
  }

  function SearchKeep(query: string): TaskState -> bool {
    s => MatchesQuery(s, query)
  }

  function CategoryKeep(category: string): TaskState -> bool {
    s => InCategory(s, category)
  }

  function PriorityKeep(priority: string): TaskState -> bool {
    s => HasPriority(s, priority)
  }

  function StatusKeep(completed: bool): TaskState -> bool {
    (s: TaskState) => s.completed == completed
  }

  function OverdueKeep(now: int): TaskState -> bool {
    s => IsOverdue(s, now)
  }

  function DueSoonKeep(now: int, days: int): TaskState -> bool {
    s => IsDueSoon(s, now, days)
  }

  /** Every string includes the empty string, so an empty search returns every task. */
  lemma EmptySearchKeepsAll(ss: seq<TaskState>)
    ensures Filter(ss, SearchKeep("")) == ss
  {
    forall i | 0 <= i < |ss|
      ensures SearchKeep("")(ss[i])
    {
      assert OccursAt(Lower(ss[i].title), Lower(""), 0);
    }
    FilterKeepsAll(ss, SearchKeep(""));
  }

  /** filterByStatus(true) and filterByStatus(false) split the tasks between them. */
  lemma StatusPartition(ss: seq<TaskState>)
    ensures |Filter(ss, StatusKeep(true))| + |Filter(ss, StatusKeep(false))| == |ss|
  {
    FilterPartition(ss, StatusKeep(true), StatusKeep(false));
  }

  /** A pending task is at once overdue and due soon exactly when it fell due
      within the last 24 hours: its day count then rounds up to 0. */
  lemma OverdueAndDueSoon(s: TaskState, now: int, days: int)
    requires !s.completed && s.dueDate.Some? && s.dueDate.value.At? && days >= 0
    ensures IsOverdue(s, now) && IsDueSoon(s, now, days) <==> now - MsPerDay < s.dueDate.value.ms < now
  {
    var n := DaysUntilDue(s, now).n;
    assert (n - 1) * MsPerDay < s.dueDate.value.ms - now <= n * MsPerDay;
  }

  /** A due-soon task is pending and has a valid due date no more than `days` whole days ahead. */
  lemma DueSoonIsAhead(s: TaskState, now: int, days: int)
    requires IsDueSoon(s, now, days)
    ensures !s.completed && s.dueDate.Some? && s.dueDate.value.At?
    ensures -MsPerDay < s.dueDate.value.ms - now <= days * MsPerDay
  {
    var n := DaysUntilDue(s, now).n;
    assert n * MsPerDay <= days * MsPerDay;
  }

  // ---------------------------------------------------------------------------
  // advancedFilter

  /** The criteria object: an absent key is Undefined or None; a string key
      counts only when it is truthy, a boolean key whenever it is present. */
  datatype Criteria = Criteria(
    category: Arg,
    priority: Arg,
    completed: Option<bool>,
    dateFrom: Arg,
    dateTo: Arg,
    overdue: Option<bool>)

  const NoCriteria := Criteria(Undefined, Undefined, None, Undefined, Undefined, None)

  /** `a < b` on two Dates: both valid and a earlier; an invalid date compares false. */
  predicate Earlier(a: Instant, b: Instant) {
    a.At? && b.At? && a.ms < b.ms
  }

  /** advancedFilter's test of one task: it fails only on a criterion that is
      present and that the task does not meet. */
  predicate MeetsCriteria(s: TaskState, c: Criteria, now: int, parse: DateParser) {
    && !(Truthy(c.category) && Lower(s.category) != Lower(c.category.s))
    && !(Truthy(c.priority) && Lower(PriorityName(s.priority)) != Lower(c.priority.s))
    && !(c.completed.Some? && s.completed != c.completed.value)
    && !(Truthy(c.dateFrom) && Earlier(s.createdAt, DateOf(c.dateFrom.s, parse)))
    && !(Truthy(c.dateTo) && Earlier(DateOf(c.dateTo.s, parse), s.createdAt))
    && !(c.overdue.Some? && IsOverdue(s, now) != c.overdue.value)
  }

  function CriteriaKeep(c: Criteria, now: int, parse: DateParser): TaskState -> bool {
    s => MeetsCriteria(s, c, now, parse)
  }

  /** No criteria keep every task. */
  lemma NoCriteriaKeepsAll(ss: seq<TaskState>, now: int, parse: DateParser)
    ensures Filter(ss, CriteriaKeep(NoCriteria, now, parse)) == ss
  {
    FilterKeepsAll(ss, CriteriaKeep(NoCriteria, now, parse));
  }

  /** A category and a priority together select what filterByCategory then filterByPriority select. */
  lemma CategoryAndPriority(ss: seq<TaskState>, category: string, priority: string, now: int, parse: DateParser)
    requires category != "" && priority != ""
    ensures var c := NoCriteria.(category := Str(category), priority := Str(priority));
            Filter(ss, CriteriaKeep(c, now, parse)) == Filter(Filter(ss, CategoryKeep(category)), PriorityKeep(priority))
  {
    var c := NoCriteria.(category := Str(category), priority := Str(priority));
    FilterConjunction(ss, CategoryKeep(category), PriorityKeep(priority), CriteriaKeep(c, now, parse));
  }

  /** A completed criterion alone selects what filterByStatus selects. */
  lemma StatusCriterion(ss: seq<TaskState>, completed: bool, now: int, parse: DateParser)
    ensures Filter(ss, CriteriaKeep(NoCriteria.(completed := Some(completed)), now, parse))
         == Filter(ss, StatusKeep(completed))
  {
    FilterCongruent(ss, CriteriaKeep(NoCriteria.(completed := Some(completed)), now, parse), StatusKeep(completed));
  }

  /** `overdue: true` alone selects what getOverdueTasks selects. */
  lemma OverdueCriterion(ss: seq<TaskState>, now: int, parse: DateParser)
    ensures Filter(ss, CriteriaKeep(NoCriteria.(overdue := Some(true)), now, parse))
         == Filter(ss, OverdueKeep(now))
  {
    FilterCongruent(ss, CriteriaKeep(NoCriteria.(overdue := Some(true)), now, parse), OverdueKeep(now));
  }

  /** Empty strings are falsy: an empty category or priority criterion filters nothing out. */
  lemma EmptyStringsIgnored(ss: seq<TaskState>, now: int, parse: DateParser)
    ensures var c := NoCriteria.(category := Str(""), priority := Str(""), dateFrom := Str(""), dateTo := Str(""));
            Filter(ss, CriteriaKeep(c, now, parse)) == ss
  {
    var c := NoCriteria.(category := Str(""), priority := Str(""), dateFrom := Str(""), dateTo := Str(""));
    FilterKeepsAll(ss, CriteriaKeep(c, now, parse));
  }

  // ---------------------------------------------------------------------------
  // sortTasks

  datatype SortField = ByTitle | ByPriority | ByDueDate | ByCategory | ByCreatedAt

  /** The sortBy argument: four names, and createdAt for anything else. */
  function SortFieldOf(sortBy: string): SortField {
    if sortBy == "title" then ByTitle
    else if sortBy == "priority" then ByPriority
    else if sortBy == "dueDate" then ByDueDate
    else if sortBy == "category" then ByCategory
    else ByCreatedAt
  }

  /** A value the comparator compares: a number (a Date compares by its time
      value), a string, or NaN, which is neither below nor above anything. */
  datatype SortKey = Num(n: int) | Text(t: string) | NaN

  /** `new Date(9999, 11, 31)`, the stand-in for a missing due date, taken at UTC. */
  const FarFuture := 253402214400000

  function PriorityRank(p: Priority): int {
    match p
    case High => 3
    case Medium => 2
    case Low => 1
  }

  function InstantKey(d: Instant): SortKey {
    match d
    case At(ms) => Num(ms)
    case InvalidDate => NaN
  }

  /** The value the comparator reads from a task for a field. */
  function SortKeyOf(s: TaskState, f: SortField): (k: SortKey)
    ensures f in {ByTitle, ByCategory} ==> k.Text?
    ensures f == ByPriority ==> k.Num? && 1 <= k.n <= 3
    ensures f == ByDueDate && s.dueDate.None? ==> k == Num(FarFuture)
  {
    match f
    case ByTitle => Text(Lower(s.title))
    case ByPriority => Num(PriorityRank(s.priority))
    case ByDueDate => if s.dueDate.Some? then InstantKey(s.dueDate.value) else Num(FarFuture)
    case ByCategory => Text(Lower(s.category))
    case ByCreatedAt => InstantKey(s.createdAt)
  }

  /** `<` between two comparator values. */
  predicate KeyLess(a: SortKey, b: SortKey) {
    match (a, b)
    case (Num(x), Num(y)) => x < y
    case (Text(x), Text(y)) => TextLess(x, y)
    case _ => false
  }

  /** The comparator returns a negative number: a goes before b. */
  predicate Precedes(a: SortKey, b: SortKey, ascending: bool) {
    if ascending then KeyLess(a, b) else KeyLess(b, a)
  }

  predicate SameKind(a: SortKey, b: SortKey) {
    (a.Num? && b.Num?) || (a.Text? && b.Text?)
  }

  /** No element goes strictly before one that precedes it in s. */
  predicate Sorted<T>(s: seq<T>, key: T -> SortKey, ascending: bool) {
    forall i, j :: 0 <= i < j < |s| ==> !Precedes(key(s[j]), key(s[i]), ascending)
  }

  lemma KeyLessTransitive(a: SortKey, b: SortKey, c: SortKey)
    requires KeyLess(a, b) && KeyLess(b, c)
    ensures KeyLess(a, c)
  {
    if a.Text? {
      TextLessTransitive(a.t, b.t, c.t);
    }
  }

  lemma KeyLessTotal(a: SortKey, b: SortKey)
    requires SameKind(a, b)
    ensures a == b || KeyLess(a, b) || KeyLess(b, a)
  {
    if a.Text? && a != b {
      TextLessTotal(a.t, b.t);
    }
  }

  lemma KeyLessIrreflexive(a: SortKey)
    ensures !KeyLess(a, a)
  {
    if a.Text? {
      TextLessIrreflexive(a.t);
    }
  }

  /** Among keys of one kind, "not after" chains. */
  lemma NotAfterTransitive(a: SortKey, b: SortKey, c: SortKey, ascending: bool)
    requires SameKind(a, b) && SameKind(b, c)
    requires !Precedes(b, a, ascending) && !Precedes(c, b, ascending)
    ensures !Precedes(c, a, ascending)
  {
    KeyLessTotal(a, b);
    KeyLessTotal(b, c);
    if Precedes(c, a, ascending) {
      if a == b {
      } else if b == c {
      } else if ascending {
        KeyLessTransitive(a, b, c);
        KeyLessTransitive(a, c, a);
        KeyLessIrreflexive(a);
      } else {
        KeyLessTransitive(c, b, a);
        KeyLessTransitive(a, c, a);
        KeyLessIrreflexive(a);
      }
    }
  }

  /** x placed into r before the first element that does not go before it. */
  function Insert<T>(x: T, r: seq<T>, key: T -> SortKey, ascending: bool): (t: seq<T>)
    ensures multiset(t) == multiset(r) + multiset{x}
    decreases |r|
  {
    if r == [] || !Precedes(key(r[0]), key(x), ascending) then [x] + r
    else
      assert r == [r[0]] + r[1..];
      [r[0]] + Insert(x, r[1..], key, ascending)
  }

  /** A stable sort by the comparator of sortTasks, as Array.prototype.sort is stable. */
  function SortBy<T>(s: seq<T>, key: T -> SortKey, ascending: bool): (r: seq<T>)
    ensures multiset(r) == multiset(s)
    decreases |s|
  {
    if s == [] then []
    else
      assert s == [s[0]] + s[1..];
      Insert(s[0], SortBy(s[1..], key, ascending), key, ascending)
  }

  /** Of two keys, at most one goes before the other. */
  lemma PrecedesAsymmetric(a: SortKey, b: SortKey, ascending: bool)
    requires Precedes(a, b, ascending)
    ensures !Precedes(b, a, ascending)
  {
    if Precedes(b, a, ascending) {
      if ascending {
        KeyLessTransitive(a, b, a);
      } else {
        KeyLessTransitive(b, a, b);
        KeyLessIrreflexive(b);
      }
      KeyLessIrreflexive(a);
    }
  }

  /** An element that goes after none of a sorted list can be put in front of it. */
  lemma ConsSorted<T>(h: T, rest: seq<T>, key: T -> SortKey, ascending: bool)
    requires Sorted(rest, key, ascending)
    requires forall y :: y in rest ==> !Precedes(key(y), key(h), ascending)
    ensures Sorted([h] + rest, key, ascending)
  {
    var t := [h] + rest;
    forall i, j | 0 <= i < j < |t|
      ensures !Precedes(key(t[j]), key(t[i]), ascending)
    {
      assert t[j] == rest[j - 1];
      if i > 0 {
        assert t[i] == rest[i - 1];
      } else {
        assert rest[j - 1] in rest;
      }
    }
  }

  lemma {:induction false} InsertSorted<T>(x: T, r: seq<T>, key: T -> SortKey, ascending: bool)
    requires forall y :: y in r ==> SameKind(key(x), key(y))
    requires Sorted(r, key, ascending)
    ensures Sorted(Insert(x, r, key, ascending), key, ascending)
    decreases |r|
  {
    if r == [] || !Precedes(key(r[0]), key(x), ascending) {
      forall y | y in r
        ensures !Precedes(key(y), key(x), ascending)
      {
        var k :| 0 <= k < |r| && r[k] == y;
        if k > 0 {
          assert r[0] in r;
          NotAfterTransitive(key(x), key(r[0]), key(y), ascending);
        }
      }
      ConsSorted(x, r, key, ascending);
    } else {
      assert r == [r[0]] + r[1..];
      forall y | y in r[1..] ensures SameKind(key(x), key(y)) {
        assert y in r;
      }
      assert Sorted(r[1..], key, ascending);
      InsertSorted(x, r[1..], key, ascending);
      var rest := Insert(x, r[1..], key, ascending);
      forall y | y in rest
        ensures !Precedes(key(y), key(r[0]), ascending)
      {
        assert y in multiset(rest);
        if y == x {
          PrecedesAsymmetric(key(r[0]), key(x), ascending);
        } else {
          assert y in multiset(r[1..]);
          var k :| 0 <= k < |r[1..]| && r[1..][k] == y;
          assert r[k + 1] == y;
        }
      }
      ConsSorted(r[0], rest, key, ascending);
    }
  }

  /** When all keys are of one kind (numbers, or strings; no NaN), the result
      is in the comparator's order. With NaN keys the comparator is not a
      consistent order, and the order Array.prototype.sort gives is left to
      the engine. */
  lemma {:induction false} SortBySorted<T>(s: seq<T>, key: T -> SortKey, ascending: bool)
    requires forall x, y :: x in s && y in s ==> SameKind(key(x), key(y))
    ensures Sorted(SortBy(s, key, ascending), key, ascending)
    decreases |s|
  {
    if s != [] {
      assert s == [s[0]] + s[1..];
      SortBySorted(s[1..], key, ascending);
      var rest := SortBy(s[1..], key, ascending);
      forall y | y in rest ensures SameKind(key(s[0]), key(y)) {
        assert y in multiset(rest);
        assert y in s[1..];
      }
      InsertSorted(s[0], rest, key, ascending);
    }
  }

  /** Sorting by priority or by a text field always meets the condition of SortBySorted. */
  lemma UniformKinds(s: TaskState, t: TaskState, f: SortField)
    requires f in {ByTitle, ByPriority, ByCategory}
    ensures SameKind(SortKeyOf(s, f), SortKeyOf(t, f))
  {
  }

  /** Sorting by priority, descending, puts [Low, High, Medium] in the order
      High, Medium, Low: stated for any key that maps each element to the
      rank of its priority, as SortKeyOf does for ByPriority. */
  lemma PriorityDescending<T>(low: T, high: T, medium: T, key: T -> SortKey)
    requires key(low) == Num(PriorityRank(Low)) && key(high) == Num(PriorityRank(High))
    requires key(medium) == Num(PriorityRank(Medium))
    ensures SortBy([low, high, medium], key, false) == [high, medium, low]
  {
    SortHighMedium(high, medium, key);
    InsertLowLast(low, high, medium, key);
    assert [low, high, medium][1..] == [high, medium];
  }

  lemma SortHighMedium<T>(high: T, medium: T, key: T -> SortKey)
    requires key(high) == Num(PriorityRank(High)) && key(medium) == Num(PriorityRank(Medium))
    ensures SortBy([high, medium], key, false) == [high, medium]
  {
    assert [high, medium][1..] == [medium] && [medium][1..] == [];
    assert SortBy([medium], key, false) == [medium];
  }

  lemma InsertLowLast<T>(low: T, high: T, medium: T, key: T -> SortKey)
    requires key(low) == Num(PriorityRank(Low)) && key(high) == Num(PriorityRank(High))
    requires key(medium) == Num(PriorityRank(Medium))
    ensures Insert(low, [high, medium], key, false) == [high, medium, low]
  {
    assert [high, medium][1..] == [medium] && [medium][1..] == [];
    assert Insert(low, [], key, false) == [low];
    assert Insert(low, [medium], key, false) == [medium, low];
  }

  // ---------------------------------------------------------------------------
  // getTaskStats

  /** The object getTaskStats returns. */
  datatype TaskStats = TaskStats(
    total: nat,
    completed: nat,
    pending: int,
    overdue: nat,
    dueSoon: nat,
    completionRate: int)

  lemma CancelFactor(k: int, a: int, b: int)
    requires k > 0 && k * a < k * b
    ensures a < b
  {
  }

  /** `Math.round(completed / total * 100)`, or 0 with no tasks: the
      percentage rounded to the nearest whole number, halves rounding up. */
  function CompletionRate(completed: nat, total: nat): (rate: int)
    ensures total == 0 ==> rate == 0
    ensures total > 0 ==> (2 * rate - 1) * total <= 200 * completed < (2 * rate + 1) * total
    ensures completed <= total ==> 0 <= rate <= 100
  {
    if total > 0 then
      var rate := (200 * completed + total) / (2 * total);
      assert 2 * total * rate <= 200 * completed + total < 2 * total * rate + 2 * total;
      assert (2 * rate - 1) * total == 2 * total * rate - total;
      assert (2 * rate + 1) * total == 2 * total * rate + total;
      assert completed <= total ==> rate <= 100 by {
        if completed <= total {
          assert 2 * total * rate < 2 * total * 101;
          CancelFactor(2 * total, rate, 101);
        }
      }
      rate
    else 0
  }

  /** getTaskStats at clock reading now. */
  function Stats(ss: seq<TaskState>, now: int): (r: TaskStats)
    ensures r.total == |ss|
    ensures r.completed == |Filter(ss, StatusKeep(true))|
    ensures r.pending == |Filter(ss, StatusKeep(false))|
    ensures r.overdue == |Filter(ss, OverdueKeep(now))| && r.dueSoon == |Filter(ss, DueSoonKeep(now, 7))|
    ensures r.completionRate == CompletionRate(r.completed, r.total) && 0 <= r.completionRate <= 100
  {
    var completed := |Filter(ss, StatusKeep(true))|;
    StatusPartition(ss);
    var rate := CompletionRate(completed, |ss|);
    TaskStats(|ss|, completed, |ss| - completed, |Filter(ss, OverdueKeep(now))|,
              |Filter(ss, DueSoonKeep(now, 7))|, rate)
  }

  /** Two of three tasks done is 67 percent; one of eight, 12.5, rounds up to 13. */
  lemma CompletionRateExamples()
    ensures CompletionRate(2, 3) == 67 && CompletionRate(1, 8) == 13 && CompletionRate(0, 0) == 0
  {
  }
}
