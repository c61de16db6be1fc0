/**
 * The application shell: the to-do collection, the selected case, the drawer flag
 * and the current view, and the handlers that the views call back into.
 */
module App {
  import opened Types
  import opened CaseLookup
  import opened TodoCommands
  import TodoInput
  import MockData

  /** The sidebar's item ids, in display order. */
  const NavItemIds: seq<string> := ["HOME", "ANNOUNCEMENTS", "CLIENTS", "CASES", "TODOS", "CAREGIVERS", "ACCOUNTING", "ANALYTICS"]

  /** The simplified routing of a sidebar click: the to-do item opens the to-do view, every other item the case list. */
  function RouteFor(navId: string): (v: ViewState)
    ensures v == Todos <==> navId == "TODOS"
    ensures v == Cases <==> navId != "TODOS"
  {
    if navId == "TODOS" then Todos else Cases
  }

  /** A sidebar item is highlighted when it names the current view. */
  predicate IsHighlighted(view: ViewState, navId: string) {
    (view == Todos && navId == "TODOS") || (view == Cases && navId == "CASES")
  }

  /** The sidebar items highlighted in a view. */
  function HighlightedItems(view: ViewState): set<string> {
    set n | n in NavItemIds && IsHighlighted(view, n)
  }

  /**
   * Exactly one sidebar item is highlighted in either view; after a click it is the
   * clicked item if that was the to-do or case item, and the case item otherwise.
   */
  lemma HighlightFollowsRoute(navId: string)
    ensures HighlightedItems(RouteFor(navId)) == if navId == "TODOS" then {"TODOS"} else {"CASES"}
    ensures |HighlightedItems(Cases)| == 1 && |HighlightedItems(Todos)| == 1
  {
    assert NavItemIds[3] == "CASES" && NavItemIds[4] == "TODOS";
    assert HighlightedItems(Cases) == {"CASES"};
    assert HighlightedItems(Todos) == {"TODOS"};
  }

  class AppState {
    const cases: seq<Case>
    var todos: seq<TodoItem>
    var selectedCase: Option<Case>
    var isDrawerOpen: bool
    var currentView: ViewState

    /** The shell starts on the case list, drawer closed, over the seed data. */
    constructor ()
      ensures cases == MockData.Cases && todos == MockData.Todos
      ensures selectedCase == None && !isDrawerOpen && currentView == Cases
    {
      cases := MockData.Cases;
      todos := MockData.Todos;
      selectedCase := None;
      isDrawerOpen := false;
      currentView := Cases;
    }

    /** `handleCaseClick`: selects the case and opens the drawer. */
    method HandleCaseClick(c: Case)
      modifies this
      ensures selectedCase == Some(c) && isDrawerOpen
      ensures todos == old(todos) && currentView == old(currentView)
    {
      selectedCase := Some(c);
      isDrawerOpen := true;
    }

    /** `handleOpenCaseFromGlobal`: opens the first case with that id, and does nothing when there is none. */
    method HandleOpenCaseFromGlobal(caseId: string)
      modifies this
      ensures FindCase(cases, caseId).Some? ==> selectedCase == FindCase(cases, caseId) && isDrawerOpen
      ensures FindCase(cases, caseId).Some? ==> selectedCase.value.id == caseId
      ensures FindCase(cases, caseId).None? ==> selectedCase == old(selectedCase) && isDrawerOpen == old(isDrawerOpen)
      ensures todos == old(todos) && currentView == old(currentView)
    {
      var found := FindCase(cases, caseId);
      if found.Some? {
        HandleCaseClick(found.value);
      }
    }

    /** `handleAddTodo`: prepends the new item; with a fresh id, unique ids stay unique. */
    method HandleAddTodo(caseId: string, content: string, category: Category, newId: string, isoNow: string)
      modifies this
      ensures todos == AddTodo(old(todos), newId, caseId, content, category, isoNow)
      ensures UniqueIds(old(todos)) && (forall t :: t in old(todos) ==> t.id != newId) ==> UniqueIds(todos)
      ensures selectedCase == old(selectedCase) && isDrawerOpen == old(isDrawerOpen) && currentView == old(currentView)
    {
      if UniqueIds(todos) && (forall t :: t in todos ==> t.id != newId) {
        AddKeepsIdsUnique(todos, newId, caseId, content, category, isoNow);
      }
      todos := AddTodo(todos, newId, caseId, content, category, isoNow);
    }

    /** `handleToggleTodo`: flips the status of the items with that id, keeping ids unique. */
    method HandleToggleTodo(id: string)
      modifies this
      ensures todos == ToggleTodo(old(todos), id)
      ensures UniqueIds(old(todos)) ==> UniqueIds(todos)
      ensures selectedCase == old(selectedCase) && isDrawerOpen == old(isDrawerOpen) && currentView == old(currentView)
    {
      ToggleAndEditKeepIds(todos, id, "");
      todos := ToggleTodo(todos, id);
    }

    /** `handleEditTodo`: replaces the content of the items with that id, keeping ids unique. */
    method HandleEditTodo(id: string, newContent: string)
      modifies this
      ensures todos == EditTodo(old(todos), id, newContent)
      ensures UniqueIds(old(todos)) ==> UniqueIds(todos)
      ensures selectedCase == old(selectedCase) && isDrawerOpen == old(isDrawerOpen) && currentView == old(currentView)
    {
      ToggleAndEditKeepIds(todos, id, newContent);
      todos := EditTodo(todos, id, newContent);
    }

    /** `handleDeleteTodo`: removes the items with that id once the prompt is confirmed. */
    method HandleDeleteTodo(id: string, confirmed: bool)
      modifies this
      ensures todos == DeleteTodo(old(todos), id, confirmed)
      ensures !confirmed ==> todos == old(todos)
      ensures UniqueIds(old(todos)) ==> UniqueIds(todos)
      ensures selectedCase == old(selectedCase) && isDrawerOpen == old(isDrawerOpen) && currentView == old(currentView)
    {
      if confirmed && UniqueIds(todos) {
        DeleteKeepsIdsUnique(todos, id);
      }
      todos := DeleteTodo(todos, id, confirmed);
    }

    /** A sidebar click switches the view and nothing else. */
    method HandleNavClick(navId: string)
      modifies this
      ensures currentView == RouteFor(navId)
      ensures todos == old(todos) && selectedCase == old(selectedCase) && isDrawerOpen == old(isDrawerOpen)
    {
      currentView := RouteFor(navId);
    }

    /** The drawer's `onClose`: only the open flag changes; the selection is kept. */
    method CloseDrawer()
      modifies this
      ensures !isDrawerOpen
      ensures todos == old(todos) && selectedCase == old(selectedCase) && currentView == old(currentView)
    {
      isDrawerOpen := false;
    }

    /**
     * A submit in the open drawer's composer: a non-blank draft becomes a new item of
     * the open case, with the draft's untrimmed text and category, and the composer is
     * cleared and collapsed; a blank one adds nothing and leaves the composer as it was.
     */
    method AddFromDrawer(composer: TodoInput.Composer, newId: string, isoNow: string)
      requires isDrawerOpen && selectedCase.Some?
      modifies this, composer
      ensures old(composer.SubmitDisabled()) ==> todos == old(todos)
      ensures !old(composer.SubmitDisabled()) ==>
        todos == AddTodo(old(todos), newId, old(selectedCase.value.id), old(composer.text), old(composer.category), isoNow)
      ensures selectedCase == old(selectedCase) && isDrawerOpen && currentView == old(currentView)
      ensures !old(composer.SubmitDisabled()) ==> todos[0].caseId == selectedCase.value.id
      ensures old(composer.SubmitDisabled()) ==>
        composer.text == old(composer.text) && composer.isExpanded == old(composer.isExpanded)
      ensures !old(composer.SubmitDisabled()) ==> composer.text == "" && !composer.isExpanded
      ensures composer.category == old(composer.category)
    {
      var emitted := composer.HandleSubmit();
      if emitted.Some? {
        HandleAddTodo(selectedCase.value.id, emitted.value.content, emitted.value.category, newId, isoNow);
      }
    }
  }
}
