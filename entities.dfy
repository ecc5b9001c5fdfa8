/** The records every part of the backend shares: accounts of the framework's user table,
    the user a request is made by, boards, and the outcome of a permission check. */
module Entities {
  import opened Text

  datatype Option<+T> = None | Some(value: T) {
    /** The value, or `default` when there is none. */
    function GetOr(default: T): T {
      match this
      case Some(v) => v
      case None => default
    }
  }

  type UserId = nat
  type BoardId = nat
  type TaskId = nat
  type CommentId = nat

  /** A row of the framework's user table (its primary key is the key of the table map). */
  datatype User = User(
    username: string,
    email: string,
    firstName: string,
    lastName: string,
    passwordHash: string,
    isSuperuser: bool,
    isActive: bool)

  /** `user.get_full_name()`: first and last name joined by a space, with outer whitespace stripped. */
  function FullName(u: User): (r: string)
    ensures u.lastName == [] && Strip(u.firstName) == u.firstName ==> r == u.firstName
  {
    var joined := u.firstName + " " + u.lastName;
    var r := Strip(joined);
    assert u.lastName == [] && Strip(u.firstName) == u.firstName ==> r == u.firstName by {
      if u.lastName == [] && Strip(u.firstName) == u.firstName {
        assert joined == u.firstName + [' '];
        StripTrailingSpace(u.firstName);
      }
    }
    r
  }

  /** A string that is its own strip keeps that strip when one space is appended. */
  lemma StripTrailingSpace(s: string)
    requires Strip(s) == s
    ensures Strip(s + [' ']) == s
  {
    var t := s + [' '];
    if s == [] {
      assert StripLeft(t) == [];
    } else {
      assert !IsSpace(s[0]);
      assert StripLeft(t) == t;
      assert t[..|t| - 1] == s;
      assert StripRight(s) == s;
    }
  }

  /** `request.user` as a permission check sees it: the anonymous user, or a logged-in account
      with its primary key and superuser flag. */
  datatype Requester = Anonymous | Account(id: UserId, isSuperuser: bool) {
    /** `user.is_authenticated` */
    predicate IsAuthenticated() { Account? }
    /** `user == <the user with primary key u>`: model instances compare by primary key, and the
        anonymous user equals no stored account. */
    predicate Is(u: UserId) { Account? && id == u }
  }

  /** A board: its title, the owning user and the set of member users. */
  datatype Board = Board(title: string, owner: UserId, members: set<UserId>)

  /** `user == obj.owner or user in obj.members.all()` */
  predicate IsOwnerOrMember(user: Requester, board: Board) {
    user.Is(board.owner) || (user.Account? && user.id in board.members)
  }

  /** What a permission hook does: return True, or raise NotAuthenticated or PermissionDenied
      with a detail message. */
  datatype Decision = Allow | NotAuthenticated(detail: string) | PermissionDenied(detail: string)

  /** A subset is no larger than its superset. */
  lemma SubsetSize<T>(a: set<T>, b: set<T>)
    requires a <= b
    ensures |a| <= |b|
  {
    assert b == a + (b - a);
    assert a * (b - a) == {};
  }

  /** A set of at most one element that holds `x` is `{x}`. */
  lemma OnlyElement<T>(s: set<T>, x: T)
    requires x in s && |s| <= 1
    ensures s == {x}
  {
    if s != {x} {
      var y :| y in s && y != x;
      assert {x, y} <= s;
      assert |{x, y}| == 2;
      SubsetSize({x, y}, s);
    }
  }
}
