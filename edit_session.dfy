/**
 * The inline edit state shared in shape by the case panel and the global view:
 * one `editingId` slot and one `editText` buffer per component, so at most one
 * item of a component is in edit mode.
 */
module EditSession {
  import opened Types
  import opened Text

  /** What `saveEditing` hands to `onEditTodo`. */
  datatype EditRequest = EditRequest(id: string, content: string)

  class EditSlot {
    var editingId: Option<string>
    var editText: string

    constructor ()
      ensures editingId == None && editText == ""
    {
      editingId := None;
      editText := "";
    }

    /** The card of `t` shows the editor. */
    predicate IsEditing(t: TodoItem)
      reads this
    {
      editingId == Some(t.id)
    }

    /** `startEditing`: the slot now targets `t` alone, with its content as the draft. */
    method StartEditing(t: TodoItem)
      modifies this
      ensures editingId == Some(t.id) && editText == t.content
      ensures forall u :: IsEditing(u) <==> u.id == t.id
    {
      editingId := Some(t.id);
      editText := t.content;
    }

    /** The textarea's `onChange`: replaces the draft and keeps the target. */
    method ChangeText(text: string)
      modifies this
      ensures editText == text && editingId == old(editingId)
    {
      editText := text;
    }

    /**
     * `saveEditing`: forwards the untrimmed draft for `id` only when it is not blank,
     * and always leaves edit mode; the draft text itself is kept.
     */
    method SaveEditing(id: string) returns (request: Option<EditRequest>)
      modifies this
      ensures request == if IsBlank(old(editText)) then None else Some(EditRequest(id, old(editText)))
      ensures editingId == None && editText == old(editText)
    {
      if !IsBlank(editText) {
        request := Some(EditRequest(id, editText));
      } else {
        request := None;
      }
      editingId := None;
    }

    /** `cancelEditing`: leaves edit mode and clears the draft. */
    method CancelEditing()
      modifies this
      ensures editingId == None && editText == ""
    {
      editingId := None;
      editText := "";
    }
  }

  /** The positions of a list whose card shows the editor for a given slot value. */
  function EditingPositions(editingId: Option<string>, todos: seq<TodoItem>): set<nat> {
    set i: nat | i < |todos| && editingId == Some(todos[i].id)
  }

  /** With unique ids, one slot puts at most one card of a list in edit mode. */
  lemma AtMostOneInEditMode(editingId: Option<string>, todos: seq<TodoItem>)
    requires UniqueIds(todos)
    ensures |EditingPositions(editingId, todos)| <= 1
  {
    var ps := EditingPositions(editingId, todos);
    if ps != {} {
      var i :| i in ps;
      assert ps == {i} by {
        forall j | j in ps ensures j == i {
        }
      }
    }
  }
}
