/** The seed cases and to-do items the shell starts with. */
module MockData {
  import opened Types

  const Cases: seq<Case> := [
    Case("1150122-08", "林○宏", "台北市新光醫院", "待進件", "1970-01-01 08:00", "全天"),
    Case("1150122-07", "陳○美", "台中 | 北屯區居家", "未派遺", "1970-01-01 08:00", "一日"),
    Case("1150122-06", "張○銘", "桃園市楊梅區", "待進件", "1970-01-01 09:00", "居家"),
    Case("1150122-05", "李○華", "台大癌醫中心", "未到班", "1970-01-01 08:00", "全天"),
    Case("1150122-03", "王○明", "台北榮總", "已派遺", "1970-01-01 12:00", "半天")
  ]

  const T1: TodoItem := TodoItem("t1", "1150122-07", "家屬詢問是否可以改為半天照護，待回覆", Contact, Pending, "2024-01-22 09:30", "客服小美", None)
  const T2: TodoItem := TodoItem("t2", "1150122-07", "確認案主是否有PCR證明", Record, Completed, "2024-01-21 14:00", "派遺專員", None)
  const T3: TodoItem := TodoItem("t3", "1150122-08", "月底前需開立三聯式發票寄給案主公司", Invoice, Pending, "2024-01-22 10:15", "會計部", Some("2024-01-31"))
  const T4: TodoItem := TodoItem("t4", "1150122-05", "照服員反應案主家中有大型寵物，需確認安全", Record, Pending, "2024-01-22 11:00", "客服小美", None)
  const T5: TodoItem := TodoItem("t5", "1150122-03", "已收到訂金 3000 元", Billing, Completed, "2024-01-20 16:20", "會計部", None)
  const T6: TodoItem := TodoItem("t6", "1150122-07", "家屬來電取消明日上午班次", Cancel, Pending, "2024-01-22 13:45", "夜班客服", None)

  const Todos: seq<TodoItem> := [T1, T2, T3, T4, T5, T6]

  /** The seed collection has no repeated id. */
  lemma SeedIdsUnique()
    ensures UniqueIds(Todos)
  {
  }
}

/** Concrete consequences of the grouping rules on the seed collection. */
module Scenarios {
  import opened Types
  import opened Text
  import opened TodoCommands
  import opened GlobalTodoList
  import MockData

  /** The pending cancellation `t6` is due and urgent on every day, under every filter. */
  lemma CancellationAlwaysDue(today: string, f: Filters, stamp: string -> int)
    ensures MockData.T6 in Grouped(MockData.Todos, MockData.Cases, f, today, stamp).due
  {
    assert MockData.Todos[5] == MockData.T6;
  }

  /** The created-date of `t5` is the calendar day of its stamp. */
  lemma DepositCreatedDate()
    ensures CreatedDate(MockData.T5.createdAt) == "2024-01-20"
  {
    var c := MockData.T5.createdAt;
    assert c[10] == ' ';
    assert c[..10] == "2024-01-20";
    BeforeFirstAt(c, ' ', 10);
  }

  /** The completed deposit note `t5` is in the log of the day it was created, with no filter set. */
  lemma DepositLoggedOnItsDay(today: string, stamp: string -> int)
    ensures MockData.T5 in Grouped(MockData.Todos, MockData.Cases, Filters([], "", "2024-01-20"), today, stamp).logs
  {
    var f := Filters([], "", "2024-01-20");
    DepositCreatedDate();
    assert PassesFilters(MockData.T5, MockData.Cases, f);
    assert MockData.Todos[4] == MockData.T5;
    assert MockData.T5 in MockData.Todos;
  }

  /** ... and in no other day's log, nor, being completed, in any backlog. */
  lemma DepositNotLoggedNextDays(today: string, stamp: string -> int)
    ensures MockData.T5 !in Grouped(MockData.Todos, MockData.Cases, Filters([], "", "2024-01-22"), today, stamp).logs
    ensures MockData.T5 !in Grouped(MockData.Todos, MockData.Cases, Filters([], "", "2024-01-22"), today, stamp).backlog
  {
    DepositCreatedDate();
    assert !IsPending(MockData.T5);
  }
}
