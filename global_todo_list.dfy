/**
 * The cross-case to-do view: filters, the three triage buckets (due, logs,
 * backlog), the counters and the multi-select category filter.
 */
module GlobalTodoList {
  import opened Types
  import opened Text
  import opened Seqs
  import opened Ordering
  import opened CaseLookup
  import opened TodoCommands

  /** The view's filter state: selected categories, search text and the log date. */
  datatype Filters = Filters(categories: seq<Category>, search: string, selectedDate: string)

  /** The three buckets the view renders, each newest first. */
  datatype Groups = Groups(due: seq<TodoItem>, logs: seq<TodoItem>, backlog: seq<TodoItem>)

  datatype Stats = Stats(pending: nat, completed: nat, urgent: nat)

  /** The state the view opens with: no category selected, empty search, log date today. */
  function InitialFilters(today: string): (f: Filters)
    ensures f.selectedDate == today
    ensures forall t, cases :: PassesFilters(t, cases, f)
  {
    Filters([], "", today)
  }

  /** Due or urgent: not completed, and due today or in the cancel category. */
  predicate IsDue(t: TodoItem, today: string) {
    var isCompleted := IsCompleted(t);
    (t.dueDate == Some(today) && !isCompleted) || (t.category == Cancel && !isCompleted)
  }

  /** An empty selection lets every category through; otherwise the category must be selected. */
  predicate PassesCategory(selected: seq<Category>, c: Category) {
    !(|selected| > 0 && c !in selected)
  }

  /** The lower-cased text a search runs over: content, case number and linked patient name. */
  function SearchText(t: TodoItem, cases: seq<Case>): string {
    Lower(t.content + t.caseId + PatientNameOf(cases, t.caseId))
  }

  /** An empty search lets everything through; otherwise it must occur in the search text, ignoring case. */
  predicate PassesSearch(t: TodoItem, cases: seq<Case>, search: string) {
    search == [] || Contains(SearchText(t, cases), Lower(search))
  }

  predicate PassesFilters(t: TodoItem, cases: seq<Case>, f: Filters) {
    PassesCategory(f.categories, t.category) && PassesSearch(t, cases, f.search)
  }

  /** A daily log entry: passes the filters and was created on the selected date, whatever its status. */
  predicate InLogs(t: TodoItem, cases: seq<Case>, f: Filters) {
    PassesFilters(t, cases, f) && CreatedDate(t.createdAt) == f.selectedDate
  }

  /** A backlog entry: passes the filters, is pending and its id is not among the due ids. */
  predicate InBacklog(t: TodoItem, cases: seq<Case>, f: Filters, dueIds: set<string>) {
    PassesFilters(t, cases, f) && IsPending(t) && t.id !in dueIds
  }

  function DueTest(today: string): TodoItem -> bool {
    (t: TodoItem) => IsDue(t, today)
  }

  function LogTest(cases: seq<Case>, f: Filters): TodoItem -> bool {
    (t: TodoItem) => InLogs(t, cases, f)
  }

  function BacklogTest(cases: seq<Case>, f: Filters, dueIds: set<string>): TodoItem -> bool {
    (t: TodoItem) => InBacklog(t, cases, f, dueIds)
  }

  function DueItems(todos: seq<TodoItem>, today: string): seq<TodoItem> {
    Keep(todos, DueTest(today))
  }

  function LogItems(todos: seq<TodoItem>, cases: seq<Case>, f: Filters): seq<TodoItem> {
    Keep(todos, LogTest(cases, f))
  }

  function BacklogItems(todos: seq<TodoItem>, cases: seq<Case>, f: Filters, dueIds: set<string>): seq<TodoItem> {
    Keep(todos, BacklogTest(cases, f, dueIds))
  }

  function IdsOf(s: seq<TodoItem>): set<string> {
    set t | t in s :: t.id
  }

  /**
   * The grouping the view computes. Each bucket holds every qualifying item of
   * `todos` exactly as often as `todos` does, newest first. The due bucket
   * depends on neither the filters nor the log date; the backlog leaves out every
   * item whose id is in the due bucket, and has no date condition.
   */
  function Grouped(todos: seq<TodoItem>, cases: seq<Case>, f: Filters, today: string, stamp: string -> int): (g: Groups)
    ensures forall t :: multiset(g.due)[t] == if IsDue(t, today) then multiset(todos)[t] else 0
    ensures forall t :: multiset(g.logs)[t] == if InLogs(t, cases, f) then multiset(todos)[t] else 0
    ensures forall t :: multiset(g.backlog)[t] == if InBacklog(t, cases, f, IdsOf(g.due)) then multiset(todos)[t] else 0
    ensures forall t :: t in g.due <==> t in todos && IsDue(t, today)
    ensures forall t :: t in g.logs <==> t in todos && PassesFilters(t, cases, f) && CreatedDate(t.createdAt) == f.selectedDate
    ensures forall t :: t in g.backlog <==>
      t in todos && PassesFilters(t, cases, f) && IsPending(t) && forall u :: u in g.due ==> u.id != t.id
    ensures forall t, u :: t in g.due && u in g.backlog ==> t.id != u.id
    ensures IsNewestFirst(g.due, stamp) && IsNewestFirst(g.logs, stamp) && IsNewestFirst(g.backlog, stamp)
  {
    var due := DueItems(todos, today);
    NewestFirstOfKeep(todos, DueTest(today), stamp);
    NewestFirstOfKeep(todos, LogTest(cases, f), stamp);
    NewestFirstOfKeep(todos, BacklogTest(cases, f, IdsOf(due)), stamp);
    var g := Groups(NewestFirst(due, stamp), NewestFirst(LogItems(todos, cases, f), stamp), NewestFirst(BacklogItems(todos, cases, f, IdsOf(due)), stamp));
    assert IdsOf(g.due) == IdsOf(due);
    g
  }

  /** The first pass of `groupedTodos`: the due items in collection order, and their ids. */
  method CollectDue(todos: seq<TodoItem>, today: string) returns (due: seq<TodoItem>, dueIds: set<string>)
    ensures due == DueItems(todos, today)
    ensures dueIds == IdsOf(due)
  {
    due, dueIds := [], {};
    var i := 0;
    while i < |todos|
      invariant 0 <= i <= |todos|
      invariant due == DueItems(todos[..i], today)
      invariant dueIds == IdsOf(due)
    {
      var todo := todos[i];
      assert todos[..i + 1] == todos[..i] + [todo];
      var isCompleted := todo.status == Completed;
      var isDueRealToday := todo.dueDate == Some(today) && !isCompleted;
      var isUrgentType := todo.category == Cancel && !isCompleted;
      if isDueRealToday || isUrgentType {
        due := due + [todo];
        dueIds := dueIds + {todo.id};
      }
      i := i + 1;
    }
    assert todos[..|todos|] == todos;
  }

  /** The second pass of `groupedTodos`: the filtered daily logs and backlog, in collection order. */
  method CollectLogsAndBacklog(todos: seq<TodoItem>, cases: seq<Case>, f: Filters, dueIds: set<string>)
    returns (logs: seq<TodoItem>, backlog: seq<TodoItem>)
    ensures logs == LogItems(todos, cases, f)
    ensures backlog == BacklogItems(todos, cases, f, dueIds)
  {
    logs, backlog := [], [];
    var i := 0;
    while i < |todos|
      invariant 0 <= i <= |todos|
      invariant logs == LogItems(todos[..i], cases, f)
      invariant backlog == BacklogItems(todos[..i], cases, f, dueIds)
    {
      var todo := todos[i];
      assert todos[..i + 1] == todos[..i] + [todo];
      var passes := !(|f.categories| > 0 && todo.category !in f.categories);
      if passes && f.search != [] {
        var relatedCase := FindCase(cases, todo.caseId);
        var patientName := if relatedCase.Some? then relatedCase.value.patientName else "";
        var searchContent := Lower(todo.content + todo.caseId + patientName);
        passes := Contains(searchContent, Lower(f.search));
      }
      if passes {
        var todoDate := BeforeFirst(todo.createdAt, ' ');
        if todoDate == f.selectedDate {
          logs := logs + [todo];
        }
        if todo.status == Pending && todo.id !in dueIds {
          backlog := backlog + [todo];
        }
      }
      i := i + 1;
    }
    assert todos[..|todos|] == todos;
  }

  /** `groupedTodos`: the two passes, then each bucket sorted newest first. */
  method GroupTodos(todos: seq<TodoItem>, cases: seq<Case>, f: Filters, today: string, stamp: string -> int) returns (g: Groups)
    ensures g == Grouped(todos, cases, f, today, stamp)
  {
    var due, dueIds := CollectDue(todos, today);
    var logs, backlog := CollectLogsAndBacklog(todos, cases, f, dueIds);
    g := Groups(NewestFirst(due, stamp), NewestFirst(logs, stamp), NewestFirst(backlog, stamp));
  }

  /** The due bucket is the same whatever the filters and the log date are. */
  lemma DueIgnoresFilters(todos: seq<TodoItem>, cases1: seq<Case>, f1: Filters, cases2: seq<Case>, f2: Filters, today: string, stamp: string -> int)
    ensures Grouped(todos, cases1, f1, today, stamp).due == Grouped(todos, cases2, f2, today, stamp).due
  {
  }

  /** An item whose category is not selected is in neither logs nor backlog (it may still be due). */
  lemma UnselectedCategoryExcluded(todos: seq<TodoItem>, cases: seq<Case>, f: Filters, today: string, stamp: string -> int, t: TodoItem)
    requires |f.categories| > 0 && t.category !in f.categories
    ensures t !in Grouped(todos, cases, f, today, stamp).logs
    ensures t !in Grouped(todos, cases, f, today, stamp).backlog
    ensures t in todos && IsDue(t, today) ==> t in Grouped(todos, cases, f, today, stamp).due
  {
  }

  /** The search ignores the case of its own text: searching `s` and `Lower(s)` filter alike. */
  lemma SearchIgnoresCase(t: TodoItem, cases: seq<Case>, search: string)
    ensures PassesSearch(t, cases, search) == PassesSearch(t, cases, Lower(search))
  {
    LowerIdempotent(search);
  }

  predicate IsUrgent(t: TodoItem) {
    IsPending(t) && t.category == Cancel
  }

  /**
   * The counters: each counts the positions of the collection holding a pending, a
   * completed or a pending cancel item; the first two make up the collection, and
   * urgent items are among the pending ones.
   */
  function TodoStats(todos: seq<TodoItem>): (r: Stats)
    ensures r.pending == |Positions(todos, IsPending)|
    ensures r.completed == |Positions(todos, IsCompleted)|
    ensures r.urgent == |Positions(todos, IsUrgent)|
    ensures r.pending + r.completed == |todos|
    ensures r.urgent <= r.pending
  {
    KeepPartition(todos, IsPending, IsCompleted);
    KeepMonotone(todos, IsUrgent, IsPending);
    KeepCountsPositions(todos, IsPending);
    KeepCountsPositions(todos, IsCompleted);
    KeepCountsPositions(todos, IsUrgent);
    Stats(|Keep(todos, IsPending)|, |Keep(todos, IsCompleted)|, |Keep(todos, IsUrgent)|)
  }

  /** Every urgent item is due whatever today is, so the urgent counter never exceeds the due bucket. */
  lemma UrgentWithinDue(todos: seq<TodoItem>, cases: seq<Case>, f: Filters, today: string, stamp: string -> int)
    ensures TodoStats(todos).urgent <= |Grouped(todos, cases, f, today, stamp).due|
  {
    KeepMonotone(todos, IsUrgent, (t: TodoItem) => IsDue(t, today));
  }

  /** `toggleCategory`: flips the membership of `cat` and of no other category. */
  function ToggleCategory(selected: seq<Category>, cat: Category): (r: seq<Category>)
    ensures cat in r <==> cat !in selected
    ensures forall c :: c != cat ==> (c in r <==> c in selected)
  {
    if cat in selected then Keep(selected, (c: Category) => c != cat) else selected + [cat]
  }

  /** A selection built by toggling from the empty one never lists a category twice. */
  lemma ToggleCategoryKeepsDistinct(selected: seq<Category>, cat: Category)
    requires NoDuplicates(selected)
    ensures NoDuplicates(ToggleCategory(selected, cat))
  {
    if cat in selected {
      KeepNoDuplicates(selected, (c: Category) => c != cat);
    } else {
      AppendNoDuplicates(selected, cat);
    }
  }

  /** Toggling a category twice leaves the same categories selected; from unselected it restores the list. */
  lemma ToggleCategoryTwice(selected: seq<Category>, cat: Category)
    ensures forall c :: c in ToggleCategory(ToggleCategory(selected, cat), cat) <==> c in selected
    ensures cat !in selected ==> ToggleCategory(ToggleCategory(selected, cat), cat) == selected
  {
    if cat !in selected {
      KeepAll(selected, (c: Category) => c != cat);
      var once := selected + [cat];
      assert once[..|once| - 1] == selected;
    }
  }

  /** `clearCategoryFilter`: afterwards every category passes. */
  function ClearCategoryFilter(): (r: seq<Category>)
    ensures |r| == 0
    ensures forall c :: PassesCategory(r, c)
  {
    []
  }
}
