/**
 * The shell's to-do commands as whole-collection transformations: add (prepend),
 * toggle status, edit content and delete behind a confirmation answer.
 */
module TodoCommands {
  import opened Types
  import opened Text
  import opened Seqs
  import opened Ordering

  /** The fixed creator label of every item created in the dashboard ("current user"). */
  const CurrentUserName: string := "當前使用者"

  /** An ISO-8601 instant such as `2024-01-22T13:45:00.000Z`. */
  predicate IsIsoInstant(iso: string) {
    && |iso| >= 16 && iso[10] == 'T'
    && 'T' !in iso[..10] && ' ' !in iso[..10]
  }

  /**
   * `iso.slice(0, 16).replace('T', ' ')`: an ISO-8601 instant cut to the minute,
   * with the date and the time separated by a space.
   */
  function CreatedAtFromIso(iso: string): (r: string)
    ensures |r| == if |iso| < 16 then |iso| else 16
    ensures IsIsoInstant(iso) ==> r == iso[..10] + " " + iso[11..16]
  {
    var cut := iso[..if |iso| < 16 then |iso| else 16];
    if IsIsoInstant(iso) then
      assert cut[..10] == iso[..10];
      ReplaceFirstAt(cut, 'T', ' ', 10);
      assert cut[11..] == iso[11..16];
      ReplaceFirst(cut, 'T', ' ')
    else
      ReplaceFirst(cut, 'T', ' ')
  }

  /** `iso.split('T')[0]`: the calendar date of an ISO-8601 instant. */
  function DateFromIso(iso: string): (r: string)
    ensures |r| <= |iso| && r == iso[..|r|] && 'T' !in r
    ensures IsIsoInstant(iso) ==> r == iso[..10]
  {
    if IsIsoInstant(iso) then BeforeFirstAt(iso, 'T', 10); BeforeFirst(iso, 'T')
    else BeforeFirst(iso, 'T')
  }

  /** `createdAt.split(' ')[0]`: the text of `createdAt` before its first space, the item's creation date. */
  function CreatedDate(createdAt: string): (r: string)
    ensures |r| <= |createdAt| && r == createdAt[..|r|] && ' ' !in r
    ensures |r| < |createdAt| ==> createdAt[|r|] == ' '
  {
    BeforeFirst(createdAt, ' ')
  }

  /**
   * An item stamped from an instant is dated with that instant's calendar date:
   * the creation date of `CreatedAtFromIso(iso)` is `DateFromIso(iso)`.
   */
  lemma CreatedDateMatchesIso(iso: string)
    requires IsIsoInstant(iso)
    ensures CreatedAtFromIso(iso) == iso[..10] + " " + iso[11..16]
    ensures CreatedDate(CreatedAtFromIso(iso)) == DateFromIso(iso) == iso[..10]
  {
    var stamped := CreatedAtFromIso(iso);
    assert stamped[..10] == iso[..10];
    BeforeFirstAt(stamped, ' ', 10);
  }

  /** The item `handleAddTodo` creates: pending, stamped now, by the current user, without due date. */
  function NewTodo(id: string, caseId: string, content: string, category: Category, isoNow: string): TodoItem {
    TodoItem(id, caseId, content, category, Pending, CreatedAtFromIso(isoNow), CurrentUserName, None)
  }

  /** `[newTodo, ...prev]`. */
  function AddTodo(todos: seq<TodoItem>, id: string, caseId: string, content: string, category: Category, isoNow: string): (r: seq<TodoItem>)
    ensures |r| == |todos| + 1 && r[1..] == todos
    ensures r[0].id == id && r[0].caseId == caseId && r[0].content == content && r[0].category == category
    ensures r[0].status == Pending && r[0].creatorName == CurrentUserName && r[0].dueDate == None
    ensures r[0].createdAt == CreatedAtFromIso(isoNow)
  {
    [NewTodo(id, caseId, content, category, isoNow)] + todos
  }

  /** Adding an item under an id no other item has keeps the ids unique. */
  lemma AddKeepsIdsUnique(todos: seq<TodoItem>, id: string, caseId: string, content: string, category: Category, isoNow: string)
    requires UniqueIds(todos)
    requires forall t :: t in todos ==> t.id != id
    ensures UniqueIds(AddTodo(todos, id, caseId, content, category, isoNow))
  {
    var r := AddTodo(todos, id, caseId, content, category, isoNow);
    forall i, j | 0 <= i < j < |r| ensures r[i].id != r[j].id {
      assert r[j] == todos[j - 1];
      if i > 0 {
        assert r[i] == todos[i - 1];
      }
    }
  }

  /** A new item at least as new as every other one heads the newest-first timeline. */
  lemma AddedItemLeadsTimeline(todos: seq<TodoItem>, id: string, caseId: string, content: string, category: Category, isoNow: string, stamp: string -> int)
    requires forall t :: t in todos ==> stamp(t.createdAt) <= stamp(CreatedAtFromIso(isoNow))
    ensures NewestFirst(AddTodo(todos, id, caseId, content, category, isoNow), stamp)[0] == NewTodo(id, caseId, content, category, isoNow)
  {
    LatestLeads(NewTodo(id, caseId, content, category, isoNow), todos, stamp);
  }

  function Flip(s: Status): Status {
    match s
    case Pending => Completed
    case Completed => Pending
  }

  /** `prev.map(t => t.id === id ? {...t, status: flipped} : t)`. */
  function ToggleTodo(todos: seq<TodoItem>, id: string): (r: seq<TodoItem>)
    ensures |r| == |todos|
    ensures forall i :: 0 <= i < |r| ==> r[i].(status := todos[i].status) == todos[i]
    ensures forall i :: 0 <= i < |r| ==> (r[i].status != todos[i].status <==> todos[i].id == id)
  {
    seq(|todos|, i requires 0 <= i < |todos| =>
      if todos[i].id == id then todos[i].(status := Flip(todos[i].status)) else todos[i])
  }

  /** Toggling the same id twice restores the collection. */
  lemma ToggleTwice(todos: seq<TodoItem>, id: string)
    ensures ToggleTodo(ToggleTodo(todos, id), id) == todos
  {
    var once := ToggleTodo(todos, id);
    var twice := ToggleTodo(once, id);
    forall i | 0 <= i < |todos| ensures twice[i] == todos[i] {
      assert once[i].id == todos[i].id;
    }
  }

  /** Toggling an id no item has changes nothing. */
  lemma ToggleAbsent(todos: seq<TodoItem>, id: string)
    requires forall t :: t in todos ==> t.id != id
    ensures ToggleTodo(todos, id) == todos
  {
    var r := ToggleTodo(todos, id);
    forall i | 0 <= i < |todos| ensures r[i] == todos[i] {
      assert todos[i] in todos;
    }
  }

  /** `prev.map(t => t.id === id ? {...t, content: newContent} : t)`. */
  function EditTodo(todos: seq<TodoItem>, id: string, newContent: string): (r: seq<TodoItem>)
    ensures |r| == |todos|
    ensures forall i :: 0 <= i < |r| ==> r[i].(content := todos[i].content) == todos[i]
    ensures forall i :: 0 <= i < |r| ==> r[i].content == if todos[i].id == id then newContent else todos[i].content
  {
    seq(|todos|, i requires 0 <= i < |todos| =>
      if todos[i].id == id then todos[i].(content := newContent) else todos[i])
  }

  /** Editing an id no item has changes nothing. */
  lemma EditAbsent(todos: seq<TodoItem>, id: string, newContent: string)
    requires forall t :: t in todos ==> t.id != id
    ensures EditTodo(todos, id, newContent) == todos
  {
    var r := EditTodo(todos, id, newContent);
    forall i | 0 <= i < |todos| ensures r[i] == todos[i] {
      assert todos[i] in todos;
    }
  }

  /** Toggling and editing keep every id in place, so they keep the ids unique. */
  lemma ToggleAndEditKeepIds(todos: seq<TodoItem>, id: string, newContent: string)
    ensures forall i :: 0 <= i < |todos| ==> ToggleTodo(todos, id)[i].id == todos[i].id
    ensures forall i :: 0 <= i < |todos| ==> EditTodo(todos, id, newContent)[i].id == todos[i].id
    ensures UniqueIds(todos) ==> UniqueIds(ToggleTodo(todos, id)) && UniqueIds(EditTodo(todos, id, newContent))
  {
  }

  /** The items carrying `id`. */
  function WithId(todos: seq<TodoItem>, id: string): seq<TodoItem> {
    Keep(todos, (t: TodoItem) => t.id == id)
  }

  /** `if (confirmed) prev.filter(t => t.id !== id)`; a declined confirmation keeps the collection. */
  function DeleteTodo(todos: seq<TodoItem>, id: string, confirmed: bool): (r: seq<TodoItem>)
    ensures !confirmed ==> r == todos
    ensures confirmed ==> forall t :: t in r <==> t in todos && t.id != id
    ensures confirmed ==> |r| == |todos| - |WithId(todos, id)|
  {
    if confirmed then
      KeepPartition(todos, (t: TodoItem) => t.id != id, (t: TodoItem) => t.id == id);
      Keep(todos, (t: TodoItem) => t.id != id)
    else todos
  }

  /**
   * A confirmed delete works item by item and keeps the survivors in their relative order:
   * deleting from `a + b` is deleting from `a` followed by deleting from `b`.
   */
  lemma DeleteKeepsOrder(a: seq<TodoItem>, b: seq<TodoItem>, id: string)
    ensures DeleteTodo(a + b, id, true) == DeleteTodo(a, id, true) + DeleteTodo(b, id, true)
    ensures forall t :: DeleteTodo([t], id, true) == if t.id == id then [] else [t]
  {
    KeepConcat(a, b, (t: TodoItem) => t.id != id);
  }

  /** A confirmed delete keeps the ids unique. */
  lemma {:induction false} DeleteKeepsIdsUnique(todos: seq<TodoItem>, id: string)
    requires UniqueIds(todos)
    ensures UniqueIds(DeleteTodo(todos, id, true))
  {
    if todos != [] {
      var init, last := todos[..|todos| - 1], todos[|todos| - 1];
      assert UniqueIds(init) by {
        forall i, j | 0 <= i < j < |init| ensures init[i].id != init[j].id {
          assert init[i] == todos[i] && init[j] == todos[j];
        }
      }
      DeleteKeepsIdsUnique(init, id);
      var kept := DeleteTodo(init, id, true);
      assert forall t :: t in kept ==> t.id != last.id by {
        forall t | t in kept ensures t.id != last.id {
          var k :| 0 <= k < |init| && init[k] == t;
          assert todos[k] == t;
        }
      }
      var r := DeleteTodo(todos, id, true);
      assert r == kept + if last.id != id then [last] else [];
      forall i, j | 0 <= i < j < |r| ensures r[i].id != r[j].id {
        if j == |kept| {
          assert r[i] == kept[i] && kept[i] in kept;
        }
      }
    }
  }
}
