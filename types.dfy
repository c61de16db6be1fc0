/** The domain model of the dashboard: cases, to-do items and their enumerations. */
module Types {

  /** A value that may be absent, used for optional fields and "not found". */
  datatype Option<+T> = None | Some(value: T)

  /** The five to-do categories: contact, record, billing, invoice, cancel. */
  datatype Category = Contact | Record | Billing | Invoice | Cancel

  datatype Status = Pending | Completed

  /** One service engagement; read-only in the dashboard. */
  datatype Case = Case(
    id: string,
    patientName: string,
    hospital: string,
    status: string,
    time: string,
    careType: string)

  /** One categorized note attached to a case; `dueDate` is optional. */
  datatype TodoItem = TodoItem(
    id: string,
    caseId: string,
    content: string,
    category: Category,
    status: Status,
    createdAt: string,
    creatorName: string,
    dueDate: Option<string>)

  /** The two top-level views the shell can show. */
  datatype ViewState = Cases | Todos

  predicate IsPending(t: TodoItem) {
    t.status == Pending
  }

  predicate IsCompleted(t: TodoItem) {
    t.status == Completed
  }

  /** No two items of the collection share an id. */
  predicate UniqueIds(todos: seq<TodoItem>) {
    forall i, j :: 0 <= i < j < |todos| ==> todos[i].id != todos[j].id
  }
}
