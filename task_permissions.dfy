/** The task object permission `IsOwnerOrReadOnly` (tasks_app/api/permissions.py): reading is open
    to everyone, deleting to the task's author and to superusers, every other change to the author
    alone. It answers True or False and raises nothing. */
module TaskPermissions {
  import opened Entities
  import opened TaskModel

  /** The framework's `SAFE_METHODS`. */
  const SafeMethods: set<string> := {"GET", "HEAD", "OPTIONS"}

  /** `request.user == obj.author`: only a stored account can be the author. */
  predicate IsAuthor(user: Requester, task: Task) {
    user.Account? && task.author == Some(user.id)
  }

  /** `has_object_permission(request, view, task)` with `request.user` (`None` when the request
      carries no user object) and `request.method`. */
  function HasObjectPermission(user: Option<Requester>, verb: string, task: Task): (allowed: bool)
    ensures verb in SafeMethods ==> allowed
    ensures verb == "DELETE" ==>
              (allowed <==> user.Some? && user.value.Account? && (user.value.isSuperuser || IsAuthor(user.value, task)))
    ensures verb !in SafeMethods && verb != "DELETE" ==> (allowed <==> user.Some? && IsAuthor(user.value, task))
  {
    if verb in SafeMethods then true
    else if verb == "DELETE" then user.Some? && ((user.value.Account? && user.value.isSuperuser) || IsAuthor(user.value, task))
    else user.Some? && IsAuthor(user.value, task)
  }

  /** A superuser who is not the author may delete the task but not change it. */
  lemma SuperuserDeletesButDoesNotEdit(id: UserId, task: Task, verb: string)
    requires task.author != Some(id)
    requires verb !in SafeMethods && verb != "DELETE"
    ensures HasObjectPermission(Some(Account(id, true)), "DELETE", task)
    ensures !HasObjectPermission(Some(Account(id, true)), verb, task)
  {
  }

  /** The anonymous user, and a request without a user, may only read. */
  lemma AnonymousOnlyReads(verb: string, task: Task)
    ensures HasObjectPermission(Some(Anonymous), verb, task) <==> verb in SafeMethods
    ensures HasObjectPermission(None, verb, task) <==> verb in SafeMethods
  {
  }

  /** The author may do everything to the task. */
  lemma AuthorMayDoEverything(id: UserId, su: bool, verb: string, task: Task)
    requires task.author == Some(id)
    ensures HasObjectPermission(Some(Account(id, su)), verb, task)
  {
  }
}
