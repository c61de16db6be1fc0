/** The case detail panel: the selected case's timeline and the guard on rendering. */
module CaseDrawer {
  import opened Types
  import opened Seqs
  import opened Ordering

  function CaseTest(caseId: string): TodoItem -> bool {
    (t: TodoItem) => t.caseId == caseId
  }

  /**
   * `caseTodos`: with no case selected, nothing; otherwise exactly the items of the
   * selected case, each as often as the collection has it, newest first.
   */
  function CaseTodos(caseData: Option<Case>, todos: seq<TodoItem>, stamp: string -> int): (r: seq<TodoItem>)
    ensures caseData.None? ==> r == []
    ensures caseData.Some? ==> forall t :: multiset(r)[t] == if t.caseId == caseData.value.id then multiset(todos)[t] else 0
    ensures caseData.Some? ==> forall t :: t in r <==> t in todos && t.caseId == caseData.value.id
    ensures IsNewestFirst(r, stamp)
  {
    match caseData
    case None => []
    case Some(c) =>
      NewestFirstOfKeep(todos, CaseTest(c.id), stamp);
      NewestFirst(Keep(todos, CaseTest(c.id)), stamp)
  }

  /** What the panel shows when it renders: the case and its timeline. */
  datatype Panel = Panel(caseData: Case, timeline: seq<TodoItem>)

  /** `if (!isOpen || !caseData) return null`: a panel exists only when open with a case selected. */
  function Render(isOpen: bool, caseData: Option<Case>, todos: seq<TodoItem>, stamp: string -> int): (r: Option<Panel>)
    ensures r.Some? <==> isOpen && caseData.Some?
    ensures r.Some? ==> r.value.caseData == caseData.value
    ensures r.Some? ==> r.value.timeline == CaseTodos(caseData, todos, stamp)
    ensures r.Some? ==> forall t :: t in r.value.timeline ==> t in todos && t.caseId == caseData.value.id
  {
    if !isOpen || caseData.None? then None
    else Some(Panel(caseData.value, CaseTodos(caseData, todos, stamp)))
  }
}
