/** The task views (tasks_app/api/views.py): the permission each view declares, task and comment
    creation, the comment list of a task, the three filtered task lists, and assigning a reviewer
    to a task. */
module TaskViews {
  import opened Entities
  import opened TaskModel
  import opened Store
  import opened TaskSerializers
  import TaskPermissions

  const HighPriority := "high"

  // ---- Permissions as the views declare them ----

  /** The framework's detail when a permission refuses a request that is not signed in. */
  const NotAuthenticatedDetail := "Authentication credentials were not provided."

  /** `request.user and request.user.is_authenticated`: `None` is a request without a user
      object. */
  predicate SignedIn(user: Option<Requester>) {
    user.Some? && user.value.IsAuthenticated()
  }

  /** `IsAuthenticatedOrReadOnly.has_permission`, the one permission of `TasksViewSet` and
      `CommentViewSet`: a safe method, or a signed-in user. It makes no object check, so
      `IsOwnerOrReadOnly` takes no part in these views. */
  function ViewSetPermission(user: Option<Requester>, verb: string): (d: Decision)
    ensures d == Allow <==> verb in TaskPermissions.SafeMethods || SignedIn(user)
    ensures d != Allow ==> d == NotAuthenticated(NotAuthenticatedDetail)
  {
    if verb in TaskPermissions.SafeMethods || SignedIn(user) then Allow
    else NotAuthenticated(NotAuthenticatedDetail)
  }

  /** `IsAuthenticated.has_permission`, the permission of the reviewer view and of the three list
      views: a signed-in user, whatever the method. */
  function SignedInPermission(user: Option<Requester>): (d: Decision)
    ensures d == Allow <==> SignedIn(user)
    ensures d != Allow ==> d == NotAuthenticated(NotAuthenticatedDetail)
  {
    if SignedIn(user) then Allow else NotAuthenticated(NotAuthenticatedDetail)
  }

  /** As the views are wired, every signed-in user may change or delete every task and comment,
      including a task `IsOwnerOrReadOnly` would keep from a user who is not its author; and a
      user who is not signed in may read them all. */
  lemma TaskWritesOpenToEverySignedInUser(id: UserId, verb: string, task: Task)
    requires task.author != Some(id) && verb !in TaskPermissions.SafeMethods
    ensures ViewSetPermission(Some(Account(id, false)), verb) == Allow
    ensures !TaskPermissions.HasObjectPermission(Some(Account(id, false)), verb, task)
    ensures ViewSetPermission(Some(Anonymous), verb) == NotAuthenticated(NotAuthenticatedDetail)
    ensures ViewSetPermission(Some(Anonymous), "GET") == Allow
  {
  }

  /** `IsAuthenticated` allows no request that `IsAuthenticatedOrReadOnly` refuses, and the
      latter allows more only for reading. */
  lemma ViewSetWeakerThanSignedIn(user: Option<Requester>, verb: string)
    ensures SignedInPermission(user) == Allow ==> ViewSetPermission(user, verb) == Allow
    ensures ViewSetPermission(user, verb) == Allow && SignedInPermission(user) != Allow ==>
              verb in TaskPermissions.SafeMethods
  {
  }

  // ---- The list endpoints ----

  /** `TasksAssignedToMeAsReviewerViewSet.get_queryset()`: the tasks the requesting user
      reviews. */
  function ReviewerTasks(tasks: map<TaskId, Task>, me: UserId): (r: map<TaskId, Task>)
    ensures forall t :: t in r <==> t in tasks && tasks[t].reviewer == Some(me)
    ensures forall t :: t in r ==> r[t] == tasks[t]
  {
    map t | t in tasks && tasks[t].reviewer == Some(me) :: tasks[t]
  }

  /** `TasksInReviewViewset.get_queryset()`: the tasks whose status is "reviewing". */
  function ReviewingTasks(tasks: map<TaskId, Task>): (r: map<TaskId, Task>)
    ensures forall t :: t in r <==> t in tasks && tasks[t].status == Reviewing
    ensures forall t :: t in r ==> r[t] == tasks[t]
  {
    map t | t in tasks && tasks[t].status == Reviewing :: tasks[t]
  }

  /** `TasksHighPrioViewset.get_queryset()`: the tasks whose priority is "high". */
  function HighPriorityTasks(tasks: map<TaskId, Task>): (r: map<TaskId, Task>)
    ensures forall t :: t in r <==> t in tasks && tasks[t].priority == HighPriority
    ensures forall t :: t in r ==> r[t] == tasks[t]
  {
    map t | t in tasks && tasks[t].priority == HighPriority :: tasks[t]
  }

  /** The three list views. */
  datatype TaskList = AssignedToMeAsReviewer | InReview | HighPriorityList

  datatype ListResponse = ListRefused(detail: string) | Listed(tasks: map<TaskId, Task>)

  /** A GET on one of the list views: `IsAuthenticated` refuses a request that is not signed in
      before the query runs; otherwise the answer is that view's `get_queryset()`. */
  function ListTasks(user: Option<Requester>, tasks: map<TaskId, Task>, list: TaskList): (r: ListResponse)
    ensures r.ListRefused? <==> !SignedIn(user)
    ensures r.ListRefused? ==> r.detail == NotAuthenticatedDetail
    ensures r.Listed? && list == AssignedToMeAsReviewer ==> r.tasks == ReviewerTasks(tasks, user.value.id)
    ensures r.Listed? && list == InReview ==> r.tasks == ReviewingTasks(tasks)
    ensures r.Listed? && list == HighPriorityList ==> r.tasks == HighPriorityTasks(tasks)
    ensures r.Listed? ==> r.tasks.Keys <= tasks.Keys
  {
    if !SignedIn(user) then ListRefused(NotAuthenticatedDetail)
    else
      match list
      case AssignedToMeAsReviewer => Listed(ReviewerTasks(tasks, user.value.id))
      case InReview => Listed(ReviewingTasks(tasks))
      case HighPriorityList => Listed(HighPriorityTasks(tasks))
  }

  /** The reviewer lists of two users never share a task, and each is part of the table. */
  lemma ReviewerListsDisjoint(tasks: map<TaskId, Task>, a: UserId, b: UserId)
    requires a != b
    ensures ReviewerTasks(tasks, a).Keys !! ReviewerTasks(tasks, b).Keys
    ensures ReviewerTasks(tasks, a).Keys <= tasks.Keys
  {
  }

  // ---- Reviewer assignment ----

  const ReviewerIdRequiredDetail := "reviewer_id is required."
  const ReviewerNotFoundDetail := "Reviewer not found."

  /** Which branch `ReviewerAssignView.patch` takes. */
  datatype AssignStep = AssignRefused | TaskMissing | ReviewerIdMissing | ReviewerMissing | AssignTo(reviewer: UserId)

  /** The checks of a PATCH on the reviewer view, in the order they run: `IsAuthenticated` refuses
      a request that is not signed in, then the task is looked up (404), then `reviewer_id` must
      be given and not null (400), then it must be a user's key (404). `reviewerId` is
      `request.data.get("reviewer_id")`, `None` when absent or null. */
  function AssignOutcome(user: Option<Requester>, tasks: map<TaskId, Task>, users: set<UserId>, taskPk: TaskId,
                         reviewerId: Option<int>)
    : (s: AssignStep)
    ensures s == AssignRefused <==> !SignedIn(user)
    ensures s == TaskMissing <==> SignedIn(user) && taskPk !in tasks
    ensures s == ReviewerIdMissing <==> SignedIn(user) && taskPk in tasks && reviewerId.None?
    ensures s == ReviewerMissing <==>
              SignedIn(user) && taskPk in tasks && reviewerId.Some? && !(reviewerId.value >= 0 && reviewerId.value in users)
    ensures s.AssignTo? ==> SignedIn(user) && taskPk in tasks && reviewerId == Some(s.reviewer as int) && s.reviewer in users
  {
    if !SignedIn(user) then AssignRefused
    else if taskPk !in tasks then TaskMissing
    else if reviewerId.None? then ReviewerIdMissing
    else if reviewerId.value < 0 || reviewerId.value !in users then ReviewerMissing
    else AssignTo(reviewerId.value)
  }

  /** A request that is not signed in is refused before the task is looked up, so it cannot
      tell a missing task from an existing one. */
  lemma RefusalHidesTaskExistence(user: Option<Requester>, tasks: map<TaskId, Task>, users: set<UserId>,
                                  taskPk: TaskId, other: TaskId, r1: Option<int>, r2: Option<int>)
    requires !SignedIn(user)
    ensures AssignOutcome(user, tasks, users, taskPk, r1) == AssignOutcome(user, tasks, users, other, r2) == AssignRefused
  {
  }

  /** For a signed-in user, an unknown task is reported before `reviewer_id` is looked at. */
  lemma UnknownTaskReportedFirst(user: Option<Requester>, tasks: map<TaskId, Task>, users: set<UserId>,
                                 taskPk: TaskId, r1: Option<int>, r2: Option<int>)
    requires SignedIn(user) && taskPk !in tasks
    ensures AssignOutcome(user, tasks, users, taskPk, r1) == AssignOutcome(user, tasks, users, taskPk, r2) == TaskMissing
  {
  }

  /** The task table with the reviewer of task `t` set to `r`. */
  function WithReviewer(tasks: map<TaskId, Task>, t: TaskId, r: UserId): (m: map<TaskId, Task>)
    requires t in tasks
    ensures m.Keys == tasks.Keys
    ensures m[t] == tasks[t].(reviewer := Some(r))
    ensures forall k :: k in tasks && k != t ==> m[k] == tasks[k]
  {
    tasks[t := tasks[t].(reviewer := Some(r))]
  }

  /** Assigning the same reviewer twice leaves the table as assigning once. */
  lemma AssignIdempotent(tasks: map<TaskId, Task>, t: TaskId, r: UserId)
    requires t in tasks
    ensures WithReviewer(WithReviewer(tasks, t, r), t, r) == WithReviewer(tasks, t, r)
  {
  }

  /** After the assignment the task is in the new reviewer's list and in no other user's list;
      every other task stays where it was. */
  lemma AssignMovesTaskBetweenReviewerLists(tasks: map<TaskId, Task>, t: TaskId, r: UserId, u: UserId)
    requires t in tasks
    ensures ReviewerTasks(WithReviewer(tasks, t, r), r) == ReviewerTasks(tasks, r)[t := tasks[t].(reviewer := Some(r))]
    ensures u != r ==> ReviewerTasks(WithReviewer(tasks, t, r), u) == ReviewerTasks(tasks, u) - {t}
  {
    var after := WithReviewer(tasks, t, r);
    var lhs, rhs := ReviewerTasks(after, r), ReviewerTasks(tasks, r)[t := tasks[t].(reviewer := Some(r))];
    assert lhs.Keys == rhs.Keys;
    if u != r {
      var lhs', rhs' := ReviewerTasks(after, u), ReviewerTasks(tasks, u) - {t};
      assert lhs'.Keys == rhs'.Keys;
    }
  }

  /** Assigning a reviewer moves no task in or out of the status and priority lists. */
  lemma AssignKeepsStatusAndPriorityLists(tasks: map<TaskId, Task>, t: TaskId, r: UserId)
    requires t in tasks
    ensures ReviewingTasks(WithReviewer(tasks, t, r)).Keys == ReviewingTasks(tasks).Keys
    ensures HighPriorityTasks(WithReviewer(tasks, t, r)).Keys == HighPriorityTasks(tasks).Keys
  {
    var after := WithReviewer(tasks, t, r);
    assert forall k :: k in tasks ==> after[k].status == tasks[k].status && after[k].priority == tasks[k].priority;
  }

  /** What a PATCH on the reviewer view answers: the refusal of a request not signed in, 404 for
      the task, 400 or 404 with a detail message, or 200 with the serialized task. */
  datatype AssignResponse =
    | Unauthenticated(detail: string)
    | TaskNotFound
    | BadRequest(detail: string)
    | NotFound(detail: string)
    | Ok(data: map<string, Value>)

  /** `ReviewerAssignView.patch(request, task_pk)`. On every error the tables are unchanged; on
      success only that task's reviewer changes and the response is the task as the serializer
      shows it under a PATCH request, without `board` and `comments_count`. */
  method AssignReviewer(db: Database, user: Option<Requester>, taskPk: TaskId, reviewerId: Option<int>)
    returns (resp: AssignResponse)
    requires db.Valid()
    modifies db
    ensures db.Valid()
    ensures db.users == old(db.users) && db.boards == old(db.boards) && db.comments == old(db.comments)
    ensures AssignOutcome(user, old(db.tasks), old(db.users).Keys, taskPk, reviewerId) == AssignRefused ==>
              resp == Unauthenticated(NotAuthenticatedDetail)
    ensures AssignOutcome(user, old(db.tasks), old(db.users).Keys, taskPk, reviewerId) == TaskMissing ==>
              resp == TaskNotFound
    ensures AssignOutcome(user, old(db.tasks), old(db.users).Keys, taskPk, reviewerId) == ReviewerIdMissing ==>
              resp == BadRequest(ReviewerIdRequiredDetail)
    ensures AssignOutcome(user, old(db.tasks), old(db.users).Keys, taskPk, reviewerId) == ReviewerMissing ==>
              resp == NotFound(ReviewerNotFoundDetail)
    ensures !AssignOutcome(user, old(db.tasks), old(db.users).Keys, taskPk, reviewerId).AssignTo? ==>
              db.tasks == old(db.tasks)
    ensures AssignOutcome(user, old(db.tasks), old(db.users).Keys, taskPk, reviewerId).AssignTo? ==>
              && db.tasks == WithReviewer(old(db.tasks), taskPk, AssignOutcome(user, old(db.tasks), old(db.users).Keys, taskPk, reviewerId).reviewer)
              && resp == Ok(Representation(taskPk, db.tasks[taskPk], CommentsCount(db.comments, taskPk)) - PatchStripped)
  {
    if SignedInPermission(user) != Allow {
      return Unauthenticated(NotAuthenticatedDetail);
    }
    if taskPk !in db.tasks {
      return TaskNotFound;
    }
    var task := db.tasks[taskPk];
    if reviewerId.None? {
      return BadRequest(ReviewerIdRequiredDetail);
    }
    var pk := reviewerId.value;
    if pk < 0 || pk !in db.users {
      return NotFound(ReviewerNotFoundDetail);
    }
    task := task.(reviewer := Some(pk));
    db.UpdateTask(taskPk, task);
    var data := ToRepresentation(taskPk, task, CommentsCount(db.comments, taskPk), Some("PATCH"));
    resp := Ok(data);
  }

  // ---- Creation ----

  /** `TasksViewSet.perform_create(serializer)`: `serializer.save(owner=request.user)` stores the
      validated task with the requesting user as its owner. */
  method PerformCreateTask(db: Database, data: TaskData, user: Requester) returns (id: TaskId)
    requires db.Valid() && user.IsAuthenticated()
    requires data.board.Some? && data.board.value in db.boards
    modifies db
    ensures db.Valid()
    ensures id !in old(db.tasks)
    ensures db.tasks == old(db.tasks)[id := NewTask(data, data.board.value).(owner := Some(user.id))]
    ensures db.users == old(db.users) && db.boards == old(db.boards) && db.comments == old(db.comments)
  {
    var t := NewTask(data, data.board.value).(owner := Some(user.id));
    id := db.AddTask(t);
  }

  /** A task created through the view has no author, so `IsOwnerOrReadOnly` would let no one
      change it and only a superuser delete it. */
  lemma CreatedTaskHasNoAuthor(data: TaskData, board: BoardId, owner: UserId, user: Option<Requester>, verb: string)
    requires verb !in TaskPermissions.SafeMethods
    ensures NewTask(data, board).(owner := Some(owner)).author == None
    ensures verb != "DELETE" ==> !TaskPermissions.HasObjectPermission(user, verb, NewTask(data, board).(owner := Some(owner)))
    ensures verb == "DELETE" ==>
              (TaskPermissions.HasObjectPermission(user, verb, NewTask(data, board).(owner := Some(owner)))
               <==> user.Some? && user.value.Account? && user.value.isSuperuser)
  {
  }

  /** What comment creation ends in: the new comment's key, or the failed lookup of the URL's
      task, which the view does not catch. */
  datatype CommentCreation = CommentCreated(id: CommentId) | TaskDoesNotExist

  /** `CommentViewSet.perform_create(serializer)`: the task of the URL is looked up and the
      validated `text` is stored with the requesting user as author and that task as its task.
      `now` is the creation time the model stamps on the comment. */
  method PerformCreateComment(db: Database, taskPk: TaskId, text: string, user: Requester, now: string)
    returns (r: CommentCreation)
    requires db.Valid() && user.IsAuthenticated()
    modifies db
    ensures db.Valid()
    ensures db.users == old(db.users) && db.boards == old(db.boards) && db.tasks == old(db.tasks)
    ensures taskPk !in old(db.tasks) ==> r == TaskDoesNotExist && db.comments == old(db.comments)
    ensures taskPk in old(db.tasks) ==>
              && r.CommentCreated? && r.id !in old(db.comments)
              && db.comments == old(db.comments)[r.id := Comment(taskPk, user.id, text, now)]
  {
    if taskPk !in db.tasks {
      return TaskDoesNotExist;
    }
    var id := db.AddComment(Comment(taskPk, user.id, text, now));
    r := CommentCreated(id);
  }

  /** Adding a comment adds it to its own task's comment list and changes no other list. */
  lemma CommentListAfterAdd(comments: map<CommentId, Comment>, id: CommentId, c: Comment, t: TaskId)
    requires id !in comments
    ensures CommentsOf(comments[id := c], t) == if c.task == t then CommentsOf(comments, t)[id := c] else CommentsOf(comments, t)
  {
    CommentKeysAfterAdd(comments, id, c, t);
    var lhs := CommentsOf(comments[id := c], t);
    var rhs := if c.task == t then CommentsOf(comments, t)[id := c] else CommentsOf(comments, t);
    assert lhs.Keys == rhs.Keys;
    assert forall k :: k in lhs ==> lhs[k] == rhs[k];
  }

  /** A comment created on a task appears in that task's comment list (`CommentViewSet.get_queryset`
      is `CommentsOf`) and raises its comment count by one; the lists of other tasks do not change. */
  lemma CreatedCommentIsListed(comments: map<CommentId, Comment>, id: CommentId, c: Comment, other: TaskId)
    requires id !in comments
    ensures CommentsOf(comments[id := c], c.task) == CommentsOf(comments, c.task)[id := c]
    ensures CommentsCount(comments[id := c], c.task) == CommentsCount(comments, c.task) + 1
    ensures other != c.task ==> CommentsOf(comments[id := c], other) == CommentsOf(comments, other)
  {
    CommentsCountAfterAdd(comments, id, c, c.task);
    CommentListAfterAdd(comments, id, c, c.task);
    CommentListAfterAdd(comments, id, c, other);
  }
}
