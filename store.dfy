/** The persisted tables the views read and write, held in memory: users, boards, tasks and
    comments keyed by primary key, with the next primary key each table hands out. */
module Store {
  import opened Entities
  import opened TaskModel

  class Database {
    var users: map<UserId, User>
    var boards: map<BoardId, Board>
    var tasks: map<TaskId, Task>
    var comments: map<CommentId, Comment>
    var nextUserId: nat
    var nextBoardId: nat
    var nextTaskId: nat
    var nextCommentId: nat

    /** Every stored key is below the table's next key, and every task belongs to a stored board
        (the task's board is a required foreign key). */
    ghost predicate Valid()
      reads this
    {
      && (forall u :: u in users ==> u < nextUserId)
      && (forall b :: b in boards ==> b < nextBoardId)
      && (forall t :: t in tasks ==> t < nextTaskId)
      && (forall c :: c in comments ==> c < nextCommentId)
      && (forall t :: t in tasks ==> tasks[t].board in boards)
    }

    constructor ()
      ensures Valid()
      ensures users == map[] && boards == map[] && tasks == map[] && comments == map[]
    {
      users, boards, tasks, comments := map[], map[], map[], map[];
      nextUserId, nextBoardId, nextTaskId, nextCommentId := 1, 1, 1, 1;
    }

    /** `account.save()` of a new user: one row added under a fresh key. */
    method AddUser(u: User) returns (id: UserId)
      requires Valid()
      modifies this`users, this`nextUserId
      ensures Valid()
      ensures id !in old(users) && users == old(users)[id := u]
    {
      id := nextUserId;
      users := users[id := u];
      nextUserId := nextUserId + 1;
    }

    /** `board.save()` of a new board: one row added under a fresh key. */
    method AddBoard(b: Board) returns (id: BoardId)
      requires Valid()
      modifies this`boards, this`nextBoardId
      ensures Valid()
      ensures id !in old(boards) && boards == old(boards)[id := b]
    {
      id := nextBoardId;
      boards := boards[id := b];
      nextBoardId := nextBoardId + 1;
    }

    /** `task.save()` of a new task of a stored board: one row added under a fresh key. */
    method AddTask(t: Task) returns (id: TaskId)
      requires Valid() && t.board in boards
      modifies this`tasks, this`nextTaskId
      ensures Valid()
      ensures id !in old(tasks) && tasks == old(tasks)[id := t]
    {
      id := nextTaskId;
      tasks := tasks[id := t];
      nextTaskId := nextTaskId + 1;
    }

    /** `comment.save()` of a new comment: one row added under a fresh key. */
    method AddComment(c: Comment) returns (id: CommentId)
      requires Valid()
      modifies this`comments, this`nextCommentId
      ensures Valid()
      ensures id !in old(comments) && comments == old(comments)[id := c]
    {
      id := nextCommentId;
      comments := comments[id := c];
      nextCommentId := nextCommentId + 1;
    }

    /** `task.save()` of a stored task whose board is unchanged: that row is replaced. */
    method UpdateTask(id: TaskId, t: Task)
      requires Valid() && id in tasks && t.board == tasks[id].board
      modifies this`tasks
      ensures Valid()
      ensures tasks == old(tasks)[id := t]
    {
      tasks := tasks[id := t];
    }

    /** `board.delete()`: the board row goes, and with it, by the cascade of the task's board key,
        exactly the tasks of that board. */
    method DeleteBoard(b: BoardId)
      requires Valid()
      modifies this`boards, this`tasks
      ensures Valid()
      ensures boards == old(boards) - {b}
      ensures tasks == TasksAfterBoardDelete(old(tasks), b)
      ensures forall t :: t in old(tasks) && t !in tasks ==> old(tasks)[t].board == b
    {
      boards := boards - {b};
      tasks := TasksAfterBoardDelete(tasks, b);
    }
  }
}
