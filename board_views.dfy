/** The board view set (boards_app/api/views.py): its own, method-based revision of the board
    permission, the serializer chosen per action, and board creation; and how this revision's
    permission compares with the action-based one of boards_app/api/permissions.py. */
module BoardViews {
  import opened Entities
  import opened Store
  import V1 = BoardPermissions

  const AuthRequiredDetail := "Authentication required to access boards."
  const ForbiddenDetail := "Forbidden. You do not have permission to perform this action."

  /** The HTTP methods open to the owner and to members. */
  const MemberMethods: set<string> := {"GET", "PUT", "PATCH"}
  const DeleteMethod := "DELETE"

  /** `has_permission(request, view)`, run for every request: `None` is a request without a user
      object. */
  function HasPermission(user: Option<Requester>): (d: Decision)
    ensures d == Allow <==> user.Some? && user.value.IsAuthenticated()
    ensures d != Allow ==> d == NotAuthenticated(AuthRequiredDetail)
  {
    if user.None? || !user.value.IsAuthenticated() then NotAuthenticated(AuthRequiredDetail)
    else Allow
  }

  /** `has_object_permission(request, view, board)` with `request.user` and `request.method`.
      It never answers False: it allows, or raises PermissionDenied. */
  function HasObjectPermission(user: Requester, verb: string, board: Board): (d: Decision)
    ensures d == Allow || d == PermissionDenied(ForbiddenDetail)
    ensures verb in MemberMethods ==> (d == Allow <==> IsOwnerOrMember(user, board))
    ensures verb == DeleteMethod ==> (d == Allow <==> user.Is(board.owner))
    ensures verb !in MemberMethods && verb != DeleteMethod ==> d == PermissionDenied(ForbiddenDetail)
  {
    if verb in MemberMethods && (user.Is(board.owner) || (user.Account? && user.id in board.members)) then Allow
    else if verb == DeleteMethod && user.Is(board.owner) then Allow
    else PermissionDenied(ForbiddenDetail)
  }

  /** The decision on a request for one board: the framework runs `has_permission` first and
      `has_object_permission` only when it passed. */
  function ObjectRequest(user: Option<Requester>, verb: string, board: Board): (d: Decision)
    ensures user.None? || !user.value.IsAuthenticated() ==> d == NotAuthenticated(AuthRequiredDetail)
    ensures user.Some? && user.value.IsAuthenticated() ==> d == HasObjectPermission(user.value, verb, board)
  {
    if HasPermission(user) != Allow then HasPermission(user) else HasObjectPermission(user.value, verb, board)
  }

  /** The anonymous user gets past the object check of this revision as little as anyone else, but
      is stopped before it by `has_permission`. */
  lemma AnonymousStoppedBeforeObjectCheck(verb: string, board: Board)
    ensures HasObjectPermission(Anonymous, verb, board) == PermissionDenied(ForbiddenDetail)
    ensures ObjectRequest(Some(Anonymous), verb, board) == NotAuthenticated(AuthRequiredDetail)
  {
  }

  datatype SerializerClass = BoardsSerializer | BoardsDetailSerializer

  /** `get_serializer_class()`: the detail serializer for `retrieve` and `partial_update`, the
      summary serializer for every other action. */
  function SerializerClassFor(action: string): (s: SerializerClass)
    ensures s == BoardsDetailSerializer <==> action == "retrieve" || action == "partial_update"
  {
    if action in ["retrieve", "partial_update"] then BoardsDetailSerializer else BoardsSerializer
  }

  /** The validated fields of a new board; a client-sent owner is among them. */
  datatype BoardData = BoardData(title: string, owner: Option<UserId>, members: set<UserId>)

  /** `perform_create(serializer)`: `serializer.save(owner=request.user)` stores the board with
      the requesting user as owner, overriding any owner in the validated fields. */
  method PerformCreate(db: Database, data: BoardData, user: Requester) returns (id: BoardId)
    requires db.Valid() && HasPermission(Some(user)) == Allow
    modifies db
    ensures db.Valid()
    ensures user.Account? && id !in old(db.boards)
    ensures db.boards == old(db.boards)[id := Board(data.title, user.id, data.members)]
    ensures db.users == old(db.users) && db.tasks == old(db.tasks) && db.comments == old(db.comments)
  {
    id := db.AddBoard(Board(data.title, user.id, data.members));
  }

  // ---- The two revisions compared ----

  /** Two decisions of the same kind (they may differ in their detail message). */
  predicate SameKind(a: Decision, b: Decision) {
    a.Allow? == b.Allow? && a.NotAuthenticated? == b.NotAuthenticated?
  }

  /** Exactly where the revisions part: never for a user who is not logged in (both say
      NotAuthenticated), and for a logged-in user exactly when one lets the request through and the
      other does not. The action-based revision lets through every action but the four object
      actions; the method-based one refuses every method but GET, PUT, PATCH and DELETE. */
  lemma RevisionsDisagreeExactly(user: Requester, action: string, verb: string, board: Board)
    ensures !SameKind(V1.HasObjectPermission(user, action, board), ObjectRequest(Some(user), verb, board))
            <==>
            user.IsAuthenticated() &&
            (((action in V1.MemberActions ==> IsOwnerOrMember(user, board))
              && (action == V1.DestroyAction ==> user.Is(board.owner)))
             !=
             ((verb in MemberMethods && IsOwnerOrMember(user, board))
              || (verb == DeleteMethod && user.Is(board.owner))))
  {
  }

  /** On the four routes the router pairs with object actions (GET retrieve, PUT update,
      PATCH partial_update, DELETE destroy) the revisions reach the same kind of decision for every
      user and board. */
  lemma StandardRoutesAgree(user: Requester, board: Board)
    ensures SameKind(V1.HasObjectPermission(user, "retrieve", board), ObjectRequest(Some(user), "GET", board))
    ensures SameKind(V1.HasObjectPermission(user, "update", board), ObjectRequest(Some(user), "PUT", board))
    ensures SameKind(V1.HasObjectPermission(user, "partial_update", board), ObjectRequest(Some(user), "PATCH", board))
    ensures SameKind(V1.HasObjectPermission(user, "destroy", board), ObjectRequest(Some(user), "DELETE", board))
  {
  }

  /** The owner issuing any other method through an action outside the four object actions (a
      custom POST action, say) is allowed by the action-based revision and refused by the
      method-based one. */
  lemma OwnerRefusedOtherMethods(id: UserId, su: bool, action: string, verb: string, board: Board)
    requires board.owner == id
    requires action !in V1.MemberActions && action != V1.DestroyAction
    requires verb !in MemberMethods && verb != DeleteMethod
    ensures V1.HasObjectPermission(Account(id, su), action, board) == Allow
    ensures ObjectRequest(Some(Account(id, su)), verb, board) == PermissionDenied(ForbiddenDetail)
  {
  }

  /** The router also sends HEAD to the action of GET: a member's HEAD on `retrieve` is allowed by
      the action-based revision and refused by the method-based one. */
  lemma HeadOnRetrieveDiffers(id: UserId, su: bool, board: Board)
    requires id in board.members
    ensures V1.HasObjectPermission(Account(id, su), "retrieve", board) == Allow
    ensures ObjectRequest(Some(Account(id, su)), "HEAD", board) == PermissionDenied(ForbiddenDetail)
  {
  }
}
