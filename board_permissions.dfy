/** The action-based revision of the board object permission (boards_app/api/permissions.py):
    the decision depends on the view's action name. */
module BoardPermissions {
  import opened Entities

  const UnauthorizedDetail := "Unauthorized. The user must be logged in to access this resource."
  const MemberOrOwnerDetail := "Forbidden. The user must be either a board member or the owner to access this resource."
  const OwnerOnlyDetail := "Forbidden. Only the board owner can delete this board."

  /** The actions open to the owner and to members. */
  const MemberActions: set<string> := {"retrieve", "update", "partial_update"}
  const DestroyAction := "destroy"

  /** `has_object_permission(request, view, board)` with `request.user` and `view.action`. */
  function HasObjectPermission(user: Requester, action: string, board: Board): (d: Decision)
    // Authentication is checked first, whatever the action or board.
    ensures !user.IsAuthenticated() ==> d == NotAuthenticated(UnauthorizedDetail)
    ensures user.IsAuthenticated() && action in MemberActions ==>
              (d == Allow <==> IsOwnerOrMember(user, board))
    ensures user.IsAuthenticated() && action in MemberActions && d != Allow ==>
              d == PermissionDenied(MemberOrOwnerDetail)
    ensures user.IsAuthenticated() && action == DestroyAction ==> (d == Allow <==> user.Is(board.owner))
    ensures user.IsAuthenticated() && action == DestroyAction && d != Allow ==>
              d == PermissionDenied(OwnerOnlyDetail)
    // Every other action of a logged-in user is let through.
    ensures user.IsAuthenticated() && action !in MemberActions && action != DestroyAction ==> d == Allow
  {
    if !user.IsAuthenticated() then NotAuthenticated(UnauthorizedDetail)
    else if action in MemberActions then
      if user.Is(board.owner) || user.id in board.members then Allow
      else PermissionDenied(MemberOrOwnerDetail)
    else if action == DestroyAction then
      if user.Is(board.owner) then Allow
      else PermissionDenied(OwnerOnlyDetail)
    else Allow
  }

  /** Ownership alone suffices: the owner is allowed every action even when not a member. */
  lemma OwnerAllowedEverything(id: UserId, su: bool, action: string, board: Board)
    requires board.owner == id && id !in board.members
    ensures HasObjectPermission(Account(id, su), action, board) == Allow
  {
  }

  /** A member who does not own the board may read and update it but is refused deletion with the
      owner-only message. */
  lemma MemberMayNotDestroy(id: UserId, su: bool, board: Board)
    requires id in board.members && id != board.owner
    ensures forall a :: a in MemberActions ==> HasObjectPermission(Account(id, su), a, board) == Allow
    ensures HasObjectPermission(Account(id, su), DestroyAction, board) == PermissionDenied(OwnerOnlyDetail)
  {
  }

  /** A logged-in outsider is refused exactly the four object actions. */
  lemma OutsiderRefusedObjectActions(id: UserId, su: bool, action: string, board: Board)
    requires id != board.owner && id !in board.members
    ensures HasObjectPermission(Account(id, su), action, board) != Allow
            <==> action in MemberActions || action == DestroyAction
  {
  }
}
