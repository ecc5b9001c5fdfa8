# KanMind backend — a verified model of its decision rules

KanMind is a Django REST backend for kanban boards: users own boards and are members of boards,
boards hold tasks, and tasks carry comments, an assignee and a reviewer. Most of the backend is
framework plumbing. This Dafny project models the parts that decide something, and proves what
they promise:

- **Board access.** There are two revisions of the board object permission:
  - the action-based one in `boards_app/api/permissions.py`;
  - the method-based one in `boards_app/api/views.py`, together with its `has_permission`.

  Each is modelled as a function from user, action or method, and board to a `Decision`.
  Lemmas say exactly where the two revisions disagree.
- **Task permission.** `IsOwnerOrReadOnly`: reading is open to everyone, deletion to the author
  and to superusers, and every other change to the author alone.
- **Task views.**
  - The permission each view declares: `IsAuthenticatedOrReadOnly` for the task and comment
    view sets, `IsAuthenticated` for the lists and the reviewer view.
  - The reviewer, reviewing and high-priority lists are exact filters over the task table,
    refused to a request that is not signed in.
  - Reviewer assignment is a method on an in-memory `Database` with ordered checks: signed in,
    then task 404, then missing id 400, then reviewer 404.
  - Task and comment creation each add one row.
- **Task serializers.**
  - The response field map, and the PATCH trimming of `board` and `comments_count`.
  - The comment count, the board-less and comment representations.
  - The validation of a task or comment request body: required, null, not-a-string, blank, too
    long, null-character, bad date, wrong type and missing-object messages, and what an accepted
    body yields.
- **Registration, login and the email check.**
  - Registration checks the password confirmation first, then the email.
  - The username loop (base, base1, base2, …) is shown to end with the first free name.
  - The login and email-check outcomes.
- **The task record.** Its status choices and default, length limits, string form, and the
  cascade from a board to its tasks.

Each module follows one source file: `Text` (the Python string methods used), `Entities`
(users, the requesting user, boards, decisions), `TaskModel`, `Store` (the tables as a class),
`BoardPermissions`, `BoardViews`, `TaskPermissions`, `TaskSerializers`, `TaskViews` and
`AuthSerializers`.

The revisions do not all fit together. `tasks_app/models.py` has no `description`, `priority`,
`due_date`, `assignee`, `reviewer`, `author` or `owner`, yet the serializers, views and
permission read or write them. The `Task` datatype is therefore the union of all fields the
code reads or writes.

Facts about the code that the model keeps as written:
- **Deleting a task.** `IsOwnerOrReadOnly` (`tasks_app/api/permissions.py:11-12`) lets the author
  or any superuser delete a task, and gives the board's owner no special right.
- **Changing a task.** `IsOwnerOrReadOnly` (`tasks_app/api/permissions.py:13-14`) lets the author
  alone change a task.
- **Wiring.** `tasks_app/api/views.py:12` imports `IsOwnerOrReadOnly`, but no view names it.
  `TasksViewSet` (`:29`) and `CommentViewSet` (`:47`) declare only `IsAuthenticatedOrReadOnly`, so
  every signed-in user may update or delete every task and comment, and anyone may read them.
- **Creating a task.** `perform_create` (`tasks_app/api/views.py:31-32`) sets `owner` and never
  `author`, so a task created through the API has no author.
- **Signed-in checks come first.** `IsAuthenticated` on the reviewer view (`:101`) and the list
  views (`:62`, `:77`, `:92`) refuses a request that is not signed in before the task is looked up.

Foreign calls are parameters of the model:
- password hashing (`hash`) and checking (`check`);
- date parsing (`parseDate`);
- the clock that stamps a comment (`now`).

## Model

| member | source | states |
|---|---|---|
| BoardPermissions.HasObjectPermission | boards_app/api/permissions.py:11-27 | a user who is not logged in gets NotAuthenticated whatever the action; for retrieve/update/partial_update the result is Allow iff owner or member, otherwise PermissionDenied with the member-or-owner message; destroy is Allow iff owner, otherwise the owner-only message; every other action is allowed |
| BoardPermissions.OwnerAllowedEverything | boards_app/api/permissions.py:17-24 | the owner is allowed every action even when not among the members |
| BoardPermissions.MemberMayNotDestroy | boards_app/api/permissions.py:17-25 | a member who is not the owner is allowed the three member actions and refused destroy with the owner-only message |
| BoardPermissions.OutsiderRefusedObjectActions | boards_app/api/permissions.py:17-27 | a logged-in user who is neither owner nor member is refused exactly the four object actions |
| BoardViews.HasPermission | boards_app/api/views.py:18-21 | Allow iff a user object is present and authenticated, otherwise NotAuthenticated with the authentication message |
| BoardViews.HasObjectPermission | boards_app/api/views.py:23-34 | never answers anything but Allow or PermissionDenied with the forbidden message; GET/PUT/PATCH allowed iff owner or member; DELETE allowed iff owner; every other method refused |
| BoardViews.ObjectRequest | boards_app/api/views.py:18-34 | without an authenticated user the answer is NotAuthenticated before the object rule is consulted; otherwise it is the object rule's answer |
| BoardViews.AnonymousStoppedBeforeObjectCheck | boards_app/api/views.py:18-34 | the anonymous user would fail the object rule with PermissionDenied but is stopped earlier with NotAuthenticated |
| BoardViews.SerializerClassFor | boards_app/api/views.py:66-68 | the detail serializer iff the action is retrieve or partial_update |
| BoardViews.PerformCreate | boards_app/api/views.py:70-79 | exactly one board is added under a fresh key, owned by the requesting user whatever owner the body gave; the other tables are unchanged |
| BoardViews.RevisionsDisagreeExactly | boards_app/api/views.py:23-34 | the action-based rule of boards_app/api/permissions.py and the method-based rule differ in kind exactly for a logged-in user for whom one lets the request through and the other does not |
| BoardViews.StandardRoutesAgree | boards_app/api/views.py:23-34 | on GET/retrieve, PUT/update, PATCH/partial_update and DELETE/destroy both revisions reach the same kind of decision for every user and board |
| BoardViews.OwnerRefusedOtherMethods | boards_app/api/views.py:23-34 | the owner using a method outside GET/PUT/PATCH/DELETE through a non-object action is allowed by the action-based revision and refused by the method-based one |
| BoardViews.HeadOnRetrieveDiffers | boards_app/api/views.py:26-28 | a member's HEAD, which the router sends to retrieve, is allowed by the action-based revision and refused by the method-based one |
| TaskPermissions.HasObjectPermission | tasks_app/api/permissions.py:8-14 | safe methods are always allowed; DELETE iff a stored user who is a superuser or the author; any other method iff the user is the author |
| TaskPermissions.SuperuserDeletesButDoesNotEdit | tasks_app/api/permissions.py:11-14 | a superuser who is not the author may delete the task but not change it |
| TaskPermissions.AnonymousOnlyReads | tasks_app/api/permissions.py:8-14 | the anonymous user, and a request without a user, are allowed exactly the safe methods |
| TaskPermissions.AuthorMayDoEverything | tasks_app/api/permissions.py:8-14 | the author is allowed every method |
| TaskModel.DeclaredStatuses | tasks_app/models.py:6-25 | the declared statuses are exactly to-do, in-progress, reviewing and done; the default is declared and fits the field |
| TaskModel.DefaultTask | tasks_app/models.py:13-25 | a new row takes the default status to-do, is within the declared length limits of title, content, prio, worked and status, and has no user links |
| TaskModel.TaskStr | tasks_app/models.py:31-32 | the string form is the title, ", ", the content, ", (", the deadline (or None) and ")": each part at its place and the lengths adding up |
| TaskModel.TasksOfBoard | tasks_app/models.py:19-20 | exactly the tasks whose board is the given board, with their values |
| TaskModel.TasksAfterBoardDelete | tasks_app/models.py:19-20 | exactly the tasks of other boards remain, unchanged |
| TaskModel.CascadePartition | tasks_app/models.py:19-20 | the deleted tasks and the kept tasks are disjoint, together form the table, and their sizes add up to its size |
| TaskModel.CommentsOf | tasks_app/api/views.py:49-51 | exactly the comments whose task is the given task, with their values |
| Store.Database.DeleteBoard | tasks_app/models.py:19-20 | the board row is removed and the task table becomes the cascade result; every task that disappears belonged to that board |
| Store.Database.UpdateTask | tasks_app/api/views.py:119-120 | only the saved task's row changes and the store stays consistent |
| Store.Database.AddUser | user_auth_app/api/serializers.py:60-66 | one user row is added under a key not used before |
| Store.Database.AddBoard | boards_app/api/views.py:70-79 | one board row is added under a key not used before; the other tables are unchanged |
| Store.Database.AddTask | tasks_app/api/views.py:31-32 | one task row is added under a key not used before; the other tables are unchanged |
| Store.Database.AddComment | tasks_app/api/views.py:53-56 | one comment row is added under a key not used before; the other tables are unchanged |
| TaskViews.ReviewerTasks | tasks_app/api/views.py:64-65 | exactly the tasks whose reviewer is the requesting user |
| TaskViews.ReviewingTasks | tasks_app/api/views.py:79-80 | exactly the tasks whose status is reviewing |
| TaskViews.HighPriorityTasks | tasks_app/api/views.py:94-95 | exactly the tasks whose priority is high |
| TaskViews.ReviewerListsDisjoint | tasks_app/api/views.py:64-65 | two different users' reviewer lists share no task, and each list is part of the table |
| TaskViews.ViewSetPermission | tasks_app/api/views.py:29 | the task view set, and equally the comment view set at line 47, allows a request iff its method is safe or the user is signed in; otherwise the not-authenticated refusal |
| TaskViews.SignedInPermission | tasks_app/api/views.py:62 | the list views, and the reviewer view at line 101, allow a request iff the user is signed in, whatever the method |
| TaskViews.TaskWritesOpenToEverySignedInUser | tasks_app/api/views.py:10-29 | a signed-in user who is not the author is let through to change or delete a task that IsOwnerOrReadOnly would keep from them; an anonymous user may read but not write |
| TaskViews.ViewSetWeakerThanSignedIn | tasks_app/api/views.py:29-62 | everything IsAuthenticated allows, IsAuthenticatedOrReadOnly allows too, and the latter allows more only for safe methods |
| TaskViews.ListTasks | tasks_app/api/views.py:60-95 | refused iff the user is not signed in; otherwise exactly the view's query: the user's reviewer tasks, the reviewing tasks or the high-priority tasks, all part of the table |
| TaskViews.AssignOutcome | tasks_app/api/views.py:101-118 | a request not signed in is refused first; then an unknown task; then a missing or null reviewer_id; then an id that is no user's key; otherwise the reviewer is that user |
| TaskViews.RefusalHidesTaskExistence | tasks_app/api/views.py:101-108 | a request not signed in gets the same refusal for an existing and a missing task, whatever reviewer_id is |
| TaskViews.UnknownTaskReportedFirst | tasks_app/api/views.py:108-109 | for a signed-in user and an unknown task the outcome is the task's 404 whatever reviewer_id is |
| TaskViews.WithReviewer | tasks_app/api/views.py:119-120 | the same keys; the task gets the new reviewer and every other task is unchanged |
| TaskViews.AssignIdempotent | tasks_app/api/views.py:119-120 | assigning the same reviewer twice gives the table of assigning once |
| TaskViews.AssignMovesTaskBetweenReviewerLists | tasks_app/api/views.py:119-120 | after the assignment the task is in the new reviewer's list and has left every other user's list; no other task moves |
| TaskViews.AssignKeepsStatusAndPriorityLists | tasks_app/api/views.py:119-120 | the reviewing list and the high-priority list keep the same tasks |
| TaskViews.AssignReviewer | tasks_app/api/views.py:101-122 | each refusal and error answers its own response and leaves every table unchanged; success changes only that task's reviewer and answers the task's PATCH representation |
| TaskViews.PerformCreateTask | tasks_app/api/views.py:31-32 | one task is added under a fresh key, built from the validated fields with the requesting user as owner |
| TaskViews.CreatedTaskHasNoAuthor | tasks_app/api/views.py:31-32 | a task created through the view has no author, so IsOwnerOrReadOnly would let no one change it and exactly the superusers delete it |
| TaskViews.PerformCreateComment | tasks_app/api/views.py:53-56 | for an existing task one comment is added whose author is the requester and whose task is the URL's task; for an unknown task nothing changes |
| TaskViews.CommentListAfterAdd | tasks_app/api/views.py:49-56 | adding a comment puts it in its own task's comment list with its value and leaves every other task's list unchanged |
| TaskViews.CreatedCommentIsListed | tasks_app/api/views.py:49-56 | a new comment appears in its task's comment list and raises its count by one; other tasks' lists are unchanged |
| TaskSerializers.FieldSetsConsistent | tasks_app/api/serializers.py:34-58 | write-only keys never appear in a response, read-only keys are not writable, and the readable and writable keys differ exactly by those two kinds |
| TaskSerializers.CommentsCount | tasks_app/api/serializers.py:68-78 | the number of the task's comments never exceeds the number of comments |
| TaskSerializers.CommentKeysAfterAdd | tasks_app/api/serializers.py:68-78 | a new comment's key joins its own task's comments and no other task's |
| TaskSerializers.CommentsCountAfterAdd | tasks_app/api/serializers.py:68-78 | adding a comment raises its own task's count by one and no other task's count |
| TaskSerializers.Representation | tasks_app/api/serializers.py:51-58 | the keys are exactly the ten readable fields and no write-only key; every key carries the task's value: id, board, title, description, status, priority and due date, the assignee and reviewer as nested summaries, and the comment count |
| TaskSerializers.Pop | tasks_app/api/serializers.py:96-97 | the key is gone and every other entry is kept, whether the key was present or not |
| TaskSerializers.PopIdempotent | tasks_app/api/serializers.py:96-97 | popping an absent key changes nothing, so popping twice equals popping once |
| TaskSerializers.ToRepresentation | tasks_app/api/serializers.py:80-98 | under a PATCH request the full representation minus exactly board and comments_count; without a request or under another method the full representation |
| TaskSerializers.PatchResponseShape | tasks_app/api/serializers.py:93-98 | a PATCH response has exactly the eight remaining keys, and trimming it again changes nothing |
| TaskSerializers.NoBoardRepresentation | tasks_app/api/serializers.py:162-167 | the output never has a board key and has exactly the other readable keys |
| TaskSerializers.NoBoardIsFullWithoutBoard | tasks_app/api/serializers.py:139-167 | the board-less output equals the full output with board removed |
| TaskSerializers.CommentRepresentation | tasks_app/api/serializers.py:112-117 | exactly id, created_at, author and content; id is the comment's key, created_at its creation time, content its text and author the author's full name |
| TaskSerializers.ParseText | tasks_app/api/serializers.py:31-32 | null gives the null message; a boolean or nested object the not-a-string message; a string or number is stripped and handed to CheckText; an accepted value is the stripped input, non-blank, without a null character, and fits the limit |
| TaskSerializers.CheckText | tasks_app/api/serializers.py:31-32 | empty text gives the blank message; text over the limit the length message with the limit; fitting text with a null character the null-character message; otherwise the text is accepted unchanged |
| TaskSerializers.StripIsIdempotent | tasks_app/api/serializers.py:31-32 | stripping a stripped string changes nothing |
| TaskSerializers.PlainTextParses | tasks_app/api/serializers.py:31-32 | non-blank, stripped text without a null character that fits is accepted as it is |
| TaskSerializers.ParseDate | tasks_app/api/serializers.py:33 | null gives the null message; a string the parser reads is accepted as the parser's ISO text; an unreadable string or a non-string gives the format message |
| TaskSerializers.ParsePk | tasks_app/api/serializers.py:37-49 | accepted iff the input is an integer key of a stored row, and then unchanged; null and the empty string give the null message; another integer gives the missing-object message naming it; a boolean, string or nested object the wrong-type message naming its type |
| TaskSerializers.TaskField | tasks_app/api/serializers.py:30-66 | an absent field is required unless the body is partial; a present field goes to its own parser with its own limit; a parsed text field is the stripped text sent, a parsed date the parser's reading of the string sent, a parsed key the integer sent, naming a stored row |
| TaskSerializers.TextField | tasks_app/api/serializers.py:31-32 | a character field has a value iff it parsed: the stripped text sent; a title fits its limit |
| TaskSerializers.DueDateField | tasks_app/api/serializers.py:33 | the due date has a value iff it parsed: the parser's reading of the date string sent |
| TaskSerializers.KeyField | tasks_app/api/serializers.py:37-49 | a key field has a value iff it parsed: the integer sent, a stored board or user |
| TaskSerializers.FieldErrors | tasks_app/api/serializers.py:51-66 | exactly the refused writable fields, each with its field's message |
| TaskSerializers.FieldData | tasks_app/api/serializers.py:51-66 | each of the eight fields has a value iff it parsed, and that value is read from the body: stripped text, the parser's date, the integer key sent |
| TaskSerializers.FieldParsed | tasks_app/api/serializers.py:59-66 | in a full body, a writable field without an error has been parsed |
| TaskSerializers.FullBodyComplete | tasks_app/api/serializers.py:59-66 | a full body without errors gives every field a value |
| TaskSerializers.TextFieldParses | tasks_app/api/serializers.py:31-32 | a present character field holding plain text within its limit parses to that text |
| TaskSerializers.FullBodyTexts | tasks_app/api/serializers.py:31-32 | the four character fields of a full body of plain texts parse to the texts sent |
| TaskSerializers.FullBodyKeys | tasks_app/api/serializers.py:33-49 | the date and the three keys of a full body parse when the date reads and the rows exist |
| TaskSerializers.NoFieldRefused | tasks_app/api/serializers.py:51-66 | no error is reported when none of the eight writable names has one |
| TaskSerializers.ParsedFieldsAccepted | tasks_app/api/serializers.py:51-66 | a full body whose eight fields parse is accepted with exactly the parsed values |
| TaskSerializers.FullBodyAccepted | tasks_app/api/serializers.py:30-66 | a full body of plain texts, a readable date and stored keys is accepted, and the validated fields are exactly the values sent |
| TaskSerializers.ValidateTask | tasks_app/api/serializers.py:51-66 | accepted iff no field is refused; a refusal carries exactly the per-field errors, an acceptance exactly the per-field values; a full body missing any writable field is refused with a required message for each missing field; an accepted full body has every field, with a fitting title and resolving keys |
| TaskSerializers.ValidationIgnoresOtherKeys | tasks_app/api/serializers.py:53-58 | read-only and unknown keys make no difference to validation |
| TaskSerializers.SameFieldsSameErrors | tasks_app/api/serializers.py:51-66 | two bodies whose writable fields validate alike report the same errors |
| TaskSerializers.SameFieldsSameData | tasks_app/api/serializers.py:51-66 | two bodies whose writable fields validate alike give the same validated fields |
| TaskSerializers.SameFieldsSameValidation | tasks_app/api/serializers.py:51-66 | two bodies whose writable fields validate alike validate alike |
| TaskSerializers.NewTask | tasks_app/api/views.py:31-32 | the created row has the validated title, description, status, priority, date and links, the given board, the default status when none was given, empty model-only fields and no author or owner; it is within the model's limits when its title and status fit |
| TaskSerializers.ValidateComment | tasks_app/api/serializers.py:112-117 | content is required; it is accepted exactly when the character field accepts it, as the stripped, non-blank content; otherwise the field's message is reported under content alone |
| Entities.FullName | tasks_app/api/serializers.py:113 | with an empty last name and an already stripped first name the full name is the first name |
| Text.Strip | user_auth_app/api/serializers.py:53 | the result is a slice of the input obtained by removing whitespace only at both ends, and starts and ends with a non-space |
| Text.RemoveSpaces | user_auth_app/api/serializers.py:53 | no space remains, every other character keeps its number of occurrences, and a string without spaces is unchanged |
| Text.RemoveSpacesAppend | user_auth_app/api/serializers.py:53 | removing spaces from a concatenation is removing them from each part; a space alone vanishes and any other character stays |
| Text.Lower | user_auth_app/api/serializers.py:53 | same length, each character lowered, and a string without capitals unchanged |
| Text.LowerAppend | user_auth_app/api/serializers.py:53 | lowering a concatenation is lowering each part |
| Text.StripPadded | user_auth_app/api/serializers.py:53 | stripping a text that starts and ends with a non-space, padded by whitespace on both sides, gives that text |
| Text.Decimal | user_auth_app/api/serializers.py:57 | a non-empty digit string, starting with 0 only for 0, of two or more digits iff the number is at least 10 |
| Text.DecimalValue | user_auth_app/api/serializers.py:57 | reading the decimal digits back gives the number |
| Text.DecimalInjective | user_auth_app/api/serializers.py:57 | different numbers print differently |
| Text.IntToString | tasks_app/api/serializers.py:37-49 | an integer prints as a non-empty text that starts with a minus sign exactly when it is negative |
| Text.IntToStringReadsBack | tasks_app/api/serializers.py:37-49 | the digits after the optional minus sign read back as the integer's magnitude |
| Text.IntToStringInjective | tasks_app/api/serializers.py:37-49 | different integers print differently |
| AuthSerializers.Usernames | user_auth_app/api/serializers.py:56 | exactly the usernames of stored accounts |
| AuthSerializers.RegistrationError | user_auth_app/api/serializers.py:47-51 | mismatched passwords are reported first, even with a taken email; with matching passwords the email message iff the email is taken; no error iff the passwords match and the email is free |
| AuthSerializers.BaseUsername | user_auth_app/api/serializers.py:53 | the base username has no space and no capital letter and is no longer than the full name; a stripped, space-free, lower-case name is its own base |
| AuthSerializers.SpaceFreeWords | user_auth_app/api/serializers.py:53 | removing spaces from two space-free words joined by one space glues the words together |
| AuthSerializers.NameBase | user_auth_app/api/serializers.py:53 | a two-word full name with any whitespace around gives both words lowered and glued ("Ann Lee" gives "annlee") |
| AuthSerializers.OneWordNameBase | user_auth_app/api/serializers.py:53 | a one-word full name with any whitespace around gives the word lowered |
| AuthSerializers.AttemptInjective | user_auth_app/api/serializers.py:54-58 | the loop's attempts are pairwise different usernames |
| AuthSerializers.FirstFreeAttemptUnique | user_auth_app/api/serializers.py:54-58 | there is only one first free attempt |
| AuthSerializers.ChooseUsername | user_auth_app/api/serializers.py:54-58 | the loop ends with a username not taken, which is the base when the base is free, and otherwise the base followed by the smallest k ≥ 1 whose name is free |
| AuthSerializers.NewAccount | user_auth_app/api/serializers.py:60-65 | the account has the given email, the chosen username and the full name as first name; the stored password is the hash of the password; it is active and not a superuser |
| AuthSerializers.CreateAccount | user_auth_app/api/serializers.py:53-66 | the first free username for the base of the full name, and exactly one new account under a fresh key; unique usernames and unique emails are kept |
| AuthSerializers.Register | user_auth_app/api/serializers.py:42-67 | a refusal adds no account; otherwise exactly one account under a fresh key with the first free username; unique usernames and unique emails are kept |
| AuthSerializers.AddAccountKeepsUniqueness | user_auth_app/api/serializers.py:50-66 | an account with a free username and an unused email keeps both columns free of duplicates |
| AuthSerializers.SecondRegistrationRefused | user_auth_app/api/serializers.py:50-51 | registering again with a registered email is refused with the email message |
| AuthSerializers.Authenticate | user_auth_app/api/serializers.py:107 | the one account with the username is returned iff its password checks and it is active; no account with the username gives none |
| AuthSerializers.ValidateLogin | user_auth_app/api/serializers.py:97-114 | a missing or empty email or password gives the missing-credentials message; with one account for the email, it is attached iff its password checks and it is active, and otherwise the answer is the unknown-email message; several accounts with the email is its own failure |
| AuthSerializers.UniqueEmailsLoginNeverAmbiguous | user_auth_app/api/serializers.py:101-105 | while emails are unique, login never fails because several accounts share an email |
| AuthSerializers.RegisteredUserCanLogIn | user_auth_app/api/serializers.py:97-113 | after registering, logging in with the same email and password attaches the new account |
| AuthSerializers.EmailCheck | user_auth_app/api/serializers.py:74-89 | a missing or empty email gives the 400 answer; an unknown email the 404 answer; one account with the email gives exactly its key, the email and its username as fullname |

## Left out

- Persistence: the ORM, query sets, transactions and row locking are replaced by the in-memory maps of `Store.Database`.
- Token issuance and `user_auth_app/api/views.py`: these are framework calls and response wrapping.
- URL routing and admin pages: configuration only.
- HTTP status codes: each outcome is its own datatype constructor instead.
- `boards_app/models.py`: its stored counts are floats without logic.
- `boards_app/api/serializers.py`: a bare field list. The user summary it would nest is the opaque `UserSummary` value.
- `tasks_app/api/serilaizers.py`: a duplicate that nothing imports.
- Migrations: schema history.
- `UserProfileSerializer` and `ReviewerSerializer`: field lists that no modelled view uses.
- The comment model: it is not defined in `tasks_app/models.py`. Its fields are the ones the serializer and the views use.
- Store.Database.DeleteBoard: does not remove the comments of the deleted tasks, because the source defines no `Comment` model, so the `on_delete` rule of its task link is not known; the model keeps the comment table as the views use it.
- The stock update, retrieve, list and destroy actions of the model view sets: only their permissions are modelled.
- AuthSerializers.Register: takes the validated registration fields. EmailField syntax checks and required checks are not modelled.
- AuthSerializers.ValidateLogin: takes the already-typed email and password fields; their field-level checks are not modelled.
- AuthSerializers.Register: the race between the loop's existence checks and the save of a concurrent registration is not modelled.
- AuthSerializers.Authenticate: the hasher run that evens out timing for unknown usernames is not modelled.
- Text.Lower: maps only ASCII and Latin-1 capitals; other scripts' case mapping is not modelled.
- TaskSerializers.ParsePk: refuses a numeric string such as "5", whereas the ORM would convert it to the key 5.
- TaskSerializers.ParseText: floats are not modelled; a JSON number is taken as an integer.
- TaskSerializers.CheckText: text that is both too long and holds a null character gets both messages from the framework's validators; the model reports the length message alone.
- TaskViews.ViewSetPermission: the stock update, retrieve, list and destroy actions behind it are not modelled beyond this permission; the refusal uses the framework's default detail text.
- TaskViews.AssignReviewer: `reviewer_id` is an integer or absent. A string or boolean id, which the ORM lookup would convert or reject, is not modelled.
- AuthSerializers.EmailCheck: the email is a string or absent. A non-string JSON value is not modelled.
- Date handling: the `date` field stamped on every save and the `deadline` field's form validation are not modelled; dates are kept as ISO text.
- TaskModel.WithinLimits: the length limit of the `content` text field holds only for forms, not at the database.
