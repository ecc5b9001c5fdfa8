/** The task and comment records (tasks_app/models.py), their declared choices, defaults and
    length limits, their string form, and what deleting a board does to the task table.

    The record is the union of the fields the different revisions of the code read or write:
    the model declares `content`, `deadline`, `prio` and `worked`; the serializers read
    `description`, `priority`, `due_date`, `assignee` and `reviewer`; the object permission reads
    `author`; the create view writes `owner`. */
module TaskModel {
  import opened Entities

  const ToDo := "to-do"
  const InProgress := "in-progress"
  const Reviewing := "reviewing"
  const Done := "done"

  /** `STATUS_CHOICES`: stored value and label, in declaration order. */
  const StatusChoices: seq<(string, string)> :=
    [(ToDo, "To Do"), (InProgress, "In Progress"), (Reviewing, "Reviewing"), (Done, "Done")]

  /** The `default=` of the status field. */
  const DefaultStatus := ToDo

  const TitleMaxLength := 100
  const ContentMaxLength := 150
  const PrioMaxLength := 10
  const WorkedMaxLength := 100
  const StatusMaxLength := 20

  /** One row of the task table. Dates are kept as their ISO text; `None` is a date never set. */
  datatype Task = Task(
    board: BoardId,
    title: string,
    content: string,
    description: string,
    deadline: Option<string>,
    dueDate: Option<string>,
    prio: string,
    priority: string,
    worked: string,
    status: string,
    assignee: Option<UserId>,
    reviewer: Option<UserId>,
    author: Option<UserId>,
    owner: Option<UserId>)

  /** One row of the comment table: the task it belongs to, its author, its text and the
      timestamp set once when it is created. */
  datatype Comment = Comment(task: TaskId, author: UserId, text: string, createdAt: string)

  /** A status value that `STATUS_CHOICES` declares. */
  predicate IsDeclaredStatus(s: string) {
    exists i :: 0 <= i < |StatusChoices| && StatusChoices[i].0 == s
  }

  /** The declared length limits of the task's text fields. */
  predicate WithinLimits(t: Task) {
    && |t.title| <= TitleMaxLength
    && |t.content| <= ContentMaxLength
    && |t.prio| <= PrioMaxLength
    && |t.worked| <= WorkedMaxLength
    && |t.status| <= StatusMaxLength
  }

  /** The declared status values are exactly to-do, in-progress, reviewing and done, and the
      default is one of them and fits the status field. */
  lemma DeclaredStatuses()
    ensures forall s :: IsDeclaredStatus(s) <==> s in {"to-do", "in-progress", "reviewing", "done"}
    ensures IsDeclaredStatus(DefaultStatus) && |DefaultStatus| <= StatusMaxLength
  {
    assert StatusChoices[0].0 == "to-do" && StatusChoices[1].0 == "in-progress";
    assert StatusChoices[2].0 == "reviewing" && StatusChoices[3].0 == "done";
  }

  /** The row `Tasks(board=b)` before any other field is given: text fields are blank, the date
      and the user links are unset and the status takes its declared default. */
  function DefaultTask(board: BoardId): (t: Task)
    ensures t.board == board && t.status == DefaultStatus
    ensures IsDeclaredStatus(t.status) && WithinLimits(t)
    ensures t.assignee == None && t.reviewer == None && t.author == None && t.owner == None
  {
    DeclaredStatuses();
    Task(board, "", "", "", None, None, "", "", "", DefaultStatus, None, None, None, None)
  }

  /** How Python formats a date that may be unset. */
  function DateText(d: Option<string>): string {
    match d
    case Some(s) => s
    case None => "None"
  }

  /** `__str__`: "title, content, (deadline)". */
  function TaskStr(t: Task): (r: string)
    ensures |r| == |t.title| + |t.content| + |DateText(t.deadline)| + 6
    ensures r[..|t.title|] == t.title && r[|t.title|..|t.title| + 2] == ", "
    ensures r[|t.title| + 2..|t.title| + 2 + |t.content|] == t.content && r[|t.title| + 2 + |t.content|] == ','
    ensures r[|r| - |DateText(t.deadline)| - 3..] == " (" + DateText(t.deadline) + ")"
  {
    var tail := " (" + DateText(t.deadline) + ")";
    assert t.title + ", " + t.content + ", (" + DateText(t.deadline) + ")" == t.title + ", " + t.content + "," + tail;
    t.title + ", " + t.content + "," + tail
  }

  /** `board.tasks`: the tasks whose board is `b` (the reverse relation of the board key). */
  function TasksOfBoard(tasks: map<TaskId, Task>, b: BoardId): (r: map<TaskId, Task>)
    ensures forall t :: t in r <==> t in tasks && tasks[t].board == b
    ensures forall t :: t in r ==> r[t] == tasks[t]
  {
    map t | t in tasks && tasks[t].board == b :: tasks[t]
  }

  /** `task.comments`: the comments whose task is `t` (the reverse relation of the task key). */
  function CommentsOf(comments: map<CommentId, Comment>, t: TaskId): (r: map<CommentId, Comment>)
    ensures forall c :: c in r <==> c in comments && comments[c].task == t
    ensures forall c :: c in r ==> r[c] == comments[c]
  {
    map c | c in comments && comments[c].task == t :: comments[c]
  }

  /** The task table after board `b` is deleted: `on_delete=CASCADE` removes exactly the tasks
      of `b` and keeps every other task as it was. */
  function TasksAfterBoardDelete(tasks: map<TaskId, Task>, b: BoardId): (r: map<TaskId, Task>)
    ensures forall t :: t in r <==> t in tasks && tasks[t].board != b
    ensures forall t :: t in r ==> r[t] == tasks[t]
  {
    map t | t in tasks && tasks[t].board != b :: tasks[t]
  }

  /** The cascade splits the table in two: the deleted tasks are exactly the board's tasks, and
      the numbers add up. */
  lemma CascadePartition(tasks: map<TaskId, Task>, b: BoardId)
    ensures TasksOfBoard(tasks, b).Keys !! TasksAfterBoardDelete(tasks, b).Keys
    ensures TasksOfBoard(tasks, b).Keys + TasksAfterBoardDelete(tasks, b).Keys == tasks.Keys
    ensures |TasksOfBoard(tasks, b)| + |TasksAfterBoardDelete(tasks, b)| == |tasks|
  {
    var gone, kept := TasksOfBoard(tasks, b).Keys, TasksAfterBoardDelete(tasks, b).Keys;
    assert gone + kept == tasks.Keys;
    assert |gone + kept| == |gone| + |kept|;
    assert |tasks.Keys| == |tasks|;
  }
}
