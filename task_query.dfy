/** The task query engine of routes/taskRoutes.js: GET /tasks/:userId builds a
    filter and a sort from the query string and runs them over the Task
    collection; GET /:id lists one user's tasks. The collection is given as a
    sequence in the store's natural order, and the date parameter and the
    deadlines as UTC timestamps in milliseconds. */
module TaskQuery {
  import opened Base
  import opened Text
  import opened TaskModel

  const MsPerDay: int := 86_400_000

  /** The query-string parameters; a falsy parameter is `None` or `Some("")`. */
  datatype QueryParams = QueryParams(category: Option<string>, priority: Option<string>,
                                     deadlineSort: Option<string>, date: Option<int>,
                                     search: Option<string>)

  const NoParams: QueryParams := QueryParams(None, None, None, None, None)

  /** `setUTCHours(0, 0, 0, 0)`: the UTC midnight that starts the day of `d`. */
  function StartOfDayUtc(d: int): int
  {
    d - d % MsPerDay
  }

  /** `setUTCHours(23, 59, 59, 999)`: the last millisecond of the UTC day of `d`. */
  function EndOfDayUtc(d: int): int
  {
    StartOfDayUtc(d) + ((23 * 60 + 59) * 60 + 59) * 1000 + 999
  }

  /** Two instants fall on the same UTC calendar day. */
  predicate SameUtcDay(a: int, b: int)
  {
    a / MsPerDay == b / MsPerDay
  }

  /** The window the handler builds is exactly the UTC day of the date:
      it starts on a midnight, spans 86 399 999 ms, and holds an instant iff
      that instant falls on the same UTC day. */
  lemma DayWindow(d: int, x: int)
    ensures StartOfDayUtc(d) % MsPerDay == 0 && StartOfDayUtc(d) <= d <= EndOfDayUtc(d)
    ensures EndOfDayUtc(d) == StartOfDayUtc(d) + 86_399_999
    ensures StartOfDayUtc(d) <= x <= EndOfDayUtc(d) <==> SameUtcDay(x, d)
  {
  }

  /** The filter object the handler assembles: the user id
      always, each other condition only when its parameter is truthy. */
  datatype StoreQuery = StoreQuery(userId: Id, category: Option<string>,
                                   priorityPattern: Option<string>,
                                   deadlineRange: Option<(int, int)>,
                                   searchPattern: Option<string>)

  function BuildQuery(u: Id, p: QueryParams): (q: StoreQuery)
    ensures q.userId == u
    ensures q.category.Some? <==> Given(p.category)
    ensures q.priorityPattern.Some? <==> Given(p.priority)
    ensures q.searchPattern.Some? <==> Given(p.search)
    ensures q.deadlineRange.Some? <==> p.date.Some?
    ensures q.deadlineRange.Some? ==>
              && q.deadlineRange.value.0 % MsPerDay == 0
              && q.deadlineRange.value.0 <= p.date.value <= q.deadlineRange.value.1
              && q.deadlineRange.value.1 == q.deadlineRange.value.0 + MsPerDay - 1
  {
    StoreQuery(u,
               if Given(p.category) then p.category else None,
               if Given(p.priority) then p.priority else None,
               if p.date.Some? then Some((StartOfDayUtc(p.date.value), EndOfDayUtc(p.date.value))) else None,
               if Given(p.search) then p.search else None)
  }

  /** How the store evaluates the filter object on one document: equality,
      `^pattern$` with the `i` flag, an inclusive range, and an `$or` of two
      unanchored `i` patterns. */
  predicate Satisfies(t: Task, q: StoreQuery)
    ensures Satisfies(t, q) ==> t.userId == q.userId
    ensures (q.category.None? && q.priorityPattern.None? && q.deadlineRange.None? && q.searchPattern.None?)
            ==> (Satisfies(t, q) <==> t.userId == q.userId)
  {
    && t.userId == q.userId
    && (q.category.Some? ==> t.category == q.category.value)
    && (q.priorityPattern.Some? ==> EqualsIgnoreCase(t.priority, q.priorityPattern.value))
    && (q.deadlineRange.Some? ==> q.deadlineRange.value.0 <= t.deadline <= q.deadlineRange.value.1)
    && (q.searchPattern.Some? ==> ContainsIgnoreCase(t.name, q.searchPattern.value)
                                  || ContainsIgnoreCase(t.description, q.searchPattern.value))
  }

  /** What the filters mean, stated directly: the task belongs to `u`; each
      truthy parameter constrains it (category exactly, priority up to case,
      deadline on the same UTC day as the date, some window of the name or
      the description equal to the search term up to case); an absent
      parameter constrains nothing. */
  predicate Wanted(t: Task, u: Id, p: QueryParams)
  {
    && t.userId == u
    && (Given(p.category) ==> t.category == p.category.value)
    && (Given(p.priority) ==> EqualsIgnoreCase(t.priority, p.priority.value))
    && (p.date.Some? ==> SameUtcDay(t.deadline, p.date.value))
    && (Given(p.search) ==> HasWindowIgnoringCase(t.name, p.search.value)
                            || HasWindowIgnoringCase(t.description, p.search.value))
  }

  /** The filter object the handler builds selects exactly the wanted tasks. */
  lemma BuildQueryMeansWanted(t: Task, u: Id, p: QueryParams)
    ensures Satisfies(t, BuildQuery(u, p)) <==> Wanted(t, u, p)
  {
    if p.date.Some? {
      DayWindow(p.date.value, t.deadline);
    }
    if Given(p.search) {
      ContainsIgnoreCaseIsWindowMatch(t.name, p.search.value);
      ContainsIgnoreCaseIsWindowMatch(t.description, p.search.value);
    }
  }

  /** `Task.find(query)`: the documents satisfying the filter, in store order,
      each as often as it is stored. */
  function Select(tasks: seq<Task>, q: StoreQuery): (r: seq<Task>)
    ensures forall t :: t in r ==> Satisfies(t, q)
    ensures forall t :: multiset(r)[t] == if Satisfies(t, q) then multiset(tasks)[t] else 0
  {
    if tasks == [] then []
    else
      assert tasks == [tasks[0]] + tasks[1..];
      if Satisfies(tasks[0], q) then [tasks[0]] + Select(tasks[1..], q)
      else Select(tasks[1..], q)
  }

  /** Two filters that agree on every stored document select the same
      sequence. */
  lemma {:induction false} SelectCongruent(tasks: seq<Task>, q1: StoreQuery, q2: StoreQuery)
    requires forall t :: t in tasks ==> (Satisfies(t, q1) <==> Satisfies(t, q2))
    ensures Select(tasks, q1) == Select(tasks, q2)
  {
    if tasks != [] {
      SelectCongruent(tasks[1..], q1, q2);
    }
  }

  /** The find keeps store order: selecting from a concatenation is
      concatenating the selections. */
  lemma {:induction false} SelectAppend(s: seq<Task>, t: seq<Task>, q: StoreQuery)
    ensures Select(s + t, q) == Select(s, q) + Select(t, q)
  {
    if s == [] {
      assert s + t == t;
    } else {
      assert (s + t)[1..] == s[1..] + t;
      SelectAppend(s[1..], t, q);
    }
  }

  /** The handler's `sortQuery`: no sort, ascending or descending deadline. */
  datatype SortOrder = StoreOrder | Ascending | Descending

  function BuildSort(p: QueryParams): (r: SortOrder)
    ensures r == StoreOrder <==> !Given(p.deadlineSort)
    ensures r == Ascending <==> Given(p.deadlineSort) && p.deadlineSort.value == "asc"
  {
    if !Given(p.deadlineSort) then StoreOrder
    else if p.deadlineSort.value == "asc" then Ascending
    else Descending
  }

  predicate InOrder(a: Task, b: Task, ascending: bool)
  {
    if ascending then a.deadline <= b.deadline else a.deadline >= b.deadline
  }

  predicate SortedBy(s: seq<Task>, ascending: bool)
  {
    forall i, j :: 0 <= i < j < |s| ==> InOrder(s[i], s[j], ascending)
  }

  /** Putting in front an element that belongs before every other keeps a
      sequence sorted. */
  lemma PrependSorted(a: Task, s: seq<Task>, ascending: bool)
    requires SortedBy(s, ascending)
    requires forall y :: y in s ==> InOrder(a, y, ascending)
    ensures SortedBy([a] + s, ascending)
  {
  }

  function Insert(x: Task, s: seq<Task>, ascending: bool): (r: seq<Task>)
    requires SortedBy(s, ascending)
    ensures SortedBy(r, ascending)
    ensures multiset(r) == multiset(s) + multiset{x}
    ensures forall y :: y in r ==> y == x || y in s
  {
    if s == [] then [x]
    else if InOrder(x, s[0], ascending) then
      assert forall y :: y in s ==> InOrder(x, y, ascending) by {
        forall y | y in s ensures InOrder(x, y, ascending) {
          var k :| 0 <= k < |s| && s[k] == y;
          assert k == 0 || InOrder(s[0], s[k], ascending);
        }
      }
      PrependSorted(x, s, ascending);
      [x] + s
    else
      assert s == [s[0]] + s[1..];
      var tail := s[1..];
      assert SortedBy(tail, ascending) by {
        forall i, j | 0 <= i < j < |tail| ensures InOrder(tail[i], tail[j], ascending) {
          assert tail[i] == s[i + 1] && tail[j] == s[j + 1];
        }
      }
      var rest := Insert(x, tail, ascending);
      assert forall y :: y in rest ==> InOrder(s[0], y, ascending) by {
        forall y | y in rest ensures InOrder(s[0], y, ascending) {
          if y != x {
            var k :| 0 <= k < |tail| && tail[k] == y;
            assert tail[k] == s[k + 1];
          }
        }
      }
      PrependSorted(s[0], rest, ascending);
      [s[0]] + rest
  }

  /** The documents ordered by deadline (ties keep their store order). */
  function SortByDeadline(s: seq<Task>, ascending: bool): (r: seq<Task>)
    ensures SortedBy(r, ascending)
    ensures multiset(r) == multiset(s)
  {
    if s == [] then []
    else
      assert s == [s[0]] + s[1..];
      Insert(s[0], SortByDeadline(s[1..], ascending), ascending)
  }

  /** `.sort(sortQuery)`: a permutation of the found documents, left in store
      order or ordered by deadline in the requested direction. */
  function Arrange(s: seq<Task>, order: SortOrder): (r: seq<Task>)
    ensures multiset(r) == multiset(s)
    ensures order == StoreOrder ==> r == s
    ensures order == Ascending ==> SortedBy(r, true)
    ensures order == Descending ==> SortedBy(r, false)
  {
    match order
    case StoreOrder => s
    case Ascending => SortByDeadline(s, true)
    case Descending => SortByDeadline(s, false)
  }

  /** GET /tasks/:userId: the documents the built filter selects, arranged
      by the built sort. */
  function FindTasks(tasks: seq<Task>, u: Id, p: QueryParams): (r: seq<Task>)
    ensures forall t :: t in r ==> t.userId == u
    ensures multiset(r) == multiset(Select(tasks, BuildQuery(u, p)))
  {
    var found := Select(tasks, BuildQuery(u, p));
    var r := Arrange(found, BuildSort(p));
    assert forall t :: t in r ==> t in multiset(found);
    r
  }

  /** The query returns exactly the wanted tasks, each as often as it is
      stored, and none of another user. */
  lemma FindTasksExact(tasks: seq<Task>, u: Id, p: QueryParams)
    ensures forall t :: multiset(FindTasks(tasks, u, p))[t] == if Wanted(t, u, p) then multiset(tasks)[t] else 0
    ensures forall t :: t in FindTasks(tasks, u, p) <==> t in tasks && Wanted(t, u, p)
    ensures forall t :: t in FindTasks(tasks, u, p) ==> t.userId == u
  {
    var r := FindTasks(tasks, u, p);
    assert multiset(r) == multiset(Select(tasks, BuildQuery(u, p)));
    forall t
      ensures multiset(r)[t] == if Wanted(t, u, p) then multiset(tasks)[t] else 0
    {
      BuildQueryMeansWanted(t, u, p);
    }
    forall t
      ensures t in r <==> t in tasks && Wanted(t, u, p)
    {
      assert t in r <==> multiset(r)[t] > 0;
      assert t in tasks <==> multiset(tasks)[t] > 0;
    }
  }

  /** The deadline sort: "asc" gives non-decreasing deadlines, any other
      truthy value non-increasing ones, and no value keeps the store order. */
  lemma FindTasksOrder(tasks: seq<Task>, u: Id, p: QueryParams)
    ensures !Given(p.deadlineSort) ==> FindTasks(tasks, u, p) == Select(tasks, BuildQuery(u, p))
    ensures Given(p.deadlineSort) && p.deadlineSort.value == "asc" ==> SortedBy(FindTasks(tasks, u, p), true)
    ensures Given(p.deadlineSort) && p.deadlineSort.value != "asc" ==> SortedBy(FindTasks(tasks, u, p), false)
  {
  }

  /** `priority=high` and `priority=High` give the same answer. */
  lemma PriorityIgnoresCase(tasks: seq<Task>, u: Id, p: QueryParams, p1: string, p2: string)
    requires EqualsIgnoreCase(p1, p2)
    ensures FindTasks(tasks, u, p.(priority := Some(p1))) == FindTasks(tasks, u, p.(priority := Some(p2)))
  {
    var q1, q2 := p.(priority := Some(p1)), p.(priority := Some(p2));
    assert |p1| == |Lower(p1)| == |Lower(p2)| == |p2|;
    SelectCongruent(tasks, BuildQuery(u, q1), BuildQuery(u, q2));
    assert BuildSort(q1) == BuildSort(q2);
  }

  /** `search=FOO` and `search=foo` give the same answer. */
  lemma SearchIgnoresCase(tasks: seq<Task>, u: Id, p: QueryParams, s1: string, s2: string)
    requires EqualsIgnoreCase(s1, s2)
    ensures FindTasks(tasks, u, p.(search := Some(s1))) == FindTasks(tasks, u, p.(search := Some(s2)))
  {
    var q1, q2 := p.(search := Some(s1)), p.(search := Some(s2));
    assert |s1| == |Lower(s1)| == |Lower(s2)| == |s2|;
    forall t | t in tasks
      ensures Satisfies(t, BuildQuery(u, q1)) <==> Satisfies(t, BuildQuery(u, q2))
    {
      ContainsIgnoreCaseRespectsCase(t.name, s1, s2);
      ContainsIgnoreCaseRespectsCase(t.description, s1, s2);
    }
    SelectCongruent(tasks, BuildQuery(u, q1), BuildQuery(u, q2));
    assert BuildSort(q1) == BuildSort(q2);
  }

  /** GET /:id: `Task.find({ userId: id })`, every task of the user in store order. */
  function ListByUser(tasks: seq<Task>, u: Id): (r: seq<Task>)
    ensures forall t :: t in r <==> t in tasks && t.userId == u
  {
    if tasks == [] then []
    else if tasks[0].userId == u then [tasks[0]] + ListByUser(tasks[1..], u)
    else ListByUser(tasks[1..], u)
  }

  /** The per-user listing is the query with no parameters. */
  lemma {:induction false} ListByUserIsUnfilteredQuery(tasks: seq<Task>, u: Id)
    ensures ListByUser(tasks, u) == FindTasks(tasks, u, NoParams)
  {
    if tasks != [] {
      ListByUserIsUnfilteredQuery(tasks[1..], u);
    }
  }

  /** Day-boundary exactness: with deadlines 2024-01-01T23:00Z and
      2024-01-02T01:00Z, `date=2024-01-01` keeps only the first. */
  lemma DateFilterExample(late: Task, early: Task)
    requires late.userId == "u" && late.deadline == 1_704_150_000_000
    requires early.userId == "u" && early.deadline == 1_704_157_200_000
    ensures FindTasks([late, early], "u", NoParams.(date := Some(1_704_067_200_000))) == [late]
  {
  }

  /** `search=foo` finds a task named "Foobar" and a task described as
      "has foo inside". */
  lemma SearchExample(named: Task, described: Task)
    requires named.userId == "u" && named.name == "Foobar"
    requires described.userId == "u" && described.description == "has foo inside"
    ensures Wanted(named, "u", NoParams.(search := Some("foo")))
    ensures Wanted(described, "u", NoParams.(search := Some("foo")))
  {
    assert Lower("Foo") == "foo";
    assert WindowMatchesIgnoringCase(named.name, "foo", 0);
    assert described.description[4..7] == "foo";
    assert WindowMatchesIgnoringCase(described.description, "foo", 4);
  }
}
