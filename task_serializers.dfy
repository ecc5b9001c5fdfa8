/** The task and comment serializers (tasks_app/api/serializers.py): which fields a response
    carries, how a PATCH response is trimmed, how comments are counted, and how a request body is
    validated into the fields of a task or a comment. */
module TaskSerializers {
  import opened Text
  import opened Entities
  import opened TaskModel

  /** A JSON value of a request body or a response. `UserSummary` stands for the nested output of
      the minimal user serializer, whose fields are not part of this model. */
  datatype Value = Null | Bool(b: bool) | Int(i: int) | Str(s: string) | UserSummary(id: UserId)

  /** The keys of a `TasksSerializer` response. */
  const ReadableFields: set<string> :=
    {"id", "board", "title", "description", "status", "priority", "assignee", "reviewer", "due_date", "comments_count"}
  /** Keys read from a request body and never written to a response. */
  const WriteOnlyFields: set<string> := {"assignee_id", "reviewer_id"}
  /** Keys written to a response and ignored in a request body. */
  const ReadOnlyFields: set<string> := {"id", "assignee", "reviewer", "comments_count"}
  /** Keys read from a request body: all of them required on create and full update. */
  const WritableFields: set<string> :=
    {"title", "description", "status", "priority", "due_date", "board", "assignee_id", "reviewer_id"}
  /** Keys a PATCH response leaves out. */
  const PatchStripped: set<string> := {"board", "comments_count"}

  /** The field sets partition as declared: every readable key is either read-only or also
      writable, and the write-only keys are exactly the writable keys no response carries. */
  lemma FieldSetsConsistent()
    ensures ReadableFields * WriteOnlyFields == {}
    ensures ReadOnlyFields <= ReadableFields && ReadOnlyFields * WritableFields == {}
    ensures WritableFields - ReadableFields == WriteOnlyFields
    ensures ReadableFields - ReadOnlyFields == WritableFields - WriteOnlyFields
  {
    assert WritableFields - ReadableFields == WriteOnlyFields by {
      assert forall k :: k in WritableFields - ReadableFields ==> k in WriteOnlyFields;
    }
    assert ReadableFields - ReadOnlyFields == WritableFields - WriteOnlyFields by {
      assert forall k :: k in ReadableFields - ReadOnlyFields ==> k in WritableFields - WriteOnlyFields;
      assert forall k :: k in WritableFields - WriteOnlyFields ==> k in ReadableFields - ReadOnlyFields;
    }
  }

  // ---- Responses ----

  /** A read-only nested user: the user's summary, or null when unset. */
  function UserValue(u: Option<UserId>): Value {
    match u
    case Some(id) => UserSummary(id)
    case None => Null
  }

  /** A date field's output: its ISO text, or null when unset. */
  function DateValue(d: Option<string>): Value {
    match d
    case Some(s) => Str(s)
    case None => Null
  }

  /** `get_comments_count(task)`: `task.comments.count()`. */
  function CommentsCount(comments: map<CommentId, Comment>, t: TaskId): (n: nat)
    ensures n <= |comments|
  {
    var mine := CommentsOf(comments, t);
    SubsetSize(mine.Keys, comments.Keys);
    |mine|
  }

  /** Adding one comment adds its key to its own task's comments and to no other task's. */
  lemma CommentKeysAfterAdd(comments: map<CommentId, Comment>, id: CommentId, c: Comment, t: TaskId)
    requires id !in comments
    ensures CommentsOf(comments[id := c], t).Keys == CommentsOf(comments, t).Keys + (if c.task == t then {id} else {})
  {
    var before, after := CommentsOf(comments, t).Keys, CommentsOf(comments[id := c], t).Keys;
    forall k | k in after
      ensures k in before + (if c.task == t then {id} else {})
    {
      if k != id { assert comments[id := c][k] == comments[k]; }
    }
  }

  /** Adding one comment raises the count of its own task by one and leaves every other task's
      count as it was. */
  lemma {:induction false} CommentsCountAfterAdd(comments: map<CommentId, Comment>, id: CommentId, c: Comment, t: TaskId)
    requires id !in comments
    ensures CommentsCount(comments[id := c], t) == CommentsCount(comments, t) + (if c.task == t then 1 else 0)
  {
    CommentKeysAfterAdd(comments, id, c, t);
    var before := CommentsOf(comments, t).Keys;
    assert id !in before;
    assert |CommentsOf(comments[id := c], t)| == |before + (if c.task == t then {id} else {})|;
  }

  /** `super().to_representation(task)` of `TasksSerializer`: the readable fields, the user
      links as nested summaries, and the comment count. */
  function Representation(id: TaskId, t: Task, commentsCount: nat): (data: map<string, Value>)
    ensures data.Keys == ReadableFields
    ensures data.Keys * WriteOnlyFields == {}
    ensures data["id"] == Int(id) && data["board"] == Int(t.board)
    ensures data["assignee"] == UserValue(t.assignee) && data["reviewer"] == UserValue(t.reviewer)
    ensures data["comments_count"] == Int(commentsCount)
    ensures data["title"] == Str(t.title) && data["description"] == Str(t.description)
    ensures data["status"] == Str(t.status) && data["priority"] == Str(t.priority)
    ensures data["due_date"] == DateValue(t.dueDate)
  {
    map[
      "id" := Int(id), "board" := Int(t.board), "title" := Str(t.title),
      "description" := Str(t.description), "status" := Str(t.status), "priority" := Str(t.priority),
      "assignee" := UserValue(t.assignee), "reviewer" := UserValue(t.reviewer),
      "due_date" := DateValue(t.dueDate), "comments_count" := Int(commentsCount)]
  }

  /** `data.pop(key, None)` with the popped value discarded: the key is gone, every other entry
      stays, and a missing key is no error. */
  function Pop(data: map<string, Value>, key: string): (r: map<string, Value>)
    ensures r.Keys == data.Keys - {key}
    ensures forall k :: k in r ==> r[k] == data[k]
  {
    data - {key}
  }

  /** Popping a key that is absent changes nothing, so popping twice is popping once. */
  lemma PopIdempotent(data: map<string, Value>, key: string)
    ensures key !in data ==> Pop(data, key) == data
    ensures Pop(Pop(data, key), key) == Pop(data, key)
  {
  }

  /** `to_representation(task)`: the full representation, with `board` and `comments_count`
      popped when a request is in the context and its method is PATCH. `request` is that
      request's method, or `None` without a request. */
  method ToRepresentation(id: TaskId, t: Task, commentsCount: nat, request: Option<string>)
    returns (data: map<string, Value>)
    ensures request == Some("PATCH") ==> data == Representation(id, t, commentsCount) - PatchStripped
    ensures request != Some("PATCH") ==> data == Representation(id, t, commentsCount)
    ensures "board" in data <==> request != Some("PATCH")
  {
    data := Representation(id, t, commentsCount);
    if request.Some? && request.value == "PATCH" {
      data := Pop(data, "board");
      data := Pop(data, "comments_count");
    }
  }

  /** A PATCH response carries exactly the readable fields minus the two popped ones, and
      trimming it again changes nothing. */
  lemma PatchResponseShape(id: TaskId, t: Task, n: nat)
    ensures (Representation(id, t, n) - PatchStripped).Keys
            == {"id", "title", "description", "status", "priority", "assignee", "reviewer", "due_date"}
    ensures Pop(Pop(Representation(id, t, n) - PatchStripped, "board"), "comments_count")
            == Representation(id, t, n) - PatchStripped
  {
    var full := Representation(id, t, n);
    assert (full - PatchStripped).Keys == full.Keys - PatchStripped;
  }

  /** `TasksSerializerNoBoard(task).data`: the task fields without the board. */
  function NoBoardRepresentation(id: TaskId, t: Task, commentsCount: nat): (data: map<string, Value>)
    ensures "board" !in data
    ensures data.Keys == ReadableFields - {"board"}
    ensures data["comments_count"] == Int(commentsCount)
  {
    map[
      "id" := Int(id), "title" := Str(t.title), "description" := Str(t.description),
      "status" := Str(t.status), "priority" := Str(t.priority),
      "assignee" := UserValue(t.assignee), "reviewer" := UserValue(t.reviewer),
      "due_date" := DateValue(t.dueDate), "comments_count" := Int(commentsCount)]
  }

  /** The board-less serializer agrees with the full one on every other field. */
  lemma NoBoardIsFullWithoutBoard(id: TaskId, t: Task, n: nat)
    ensures NoBoardRepresentation(id, t, n) == Representation(id, t, n) - {"board"}
  {
    var a, b := NoBoardRepresentation(id, t, n), Representation(id, t, n) - {"board"};
    assert a.Keys == b.Keys;
    assert forall k :: k in a ==> a[k] == b[k];
  }

  /** `CommentSerializer(comment).data`: the comment's key and creation time, its `text` under
      `content` and its author's full name under `author`. */
  function CommentRepresentation(id: CommentId, c: Comment, author: User): (data: map<string, Value>)
    ensures data.Keys == {"id", "created_at", "author", "content"}
    ensures data["id"] == Int(id) && data["created_at"] == Str(c.createdAt)
    ensures data["content"] == Str(c.text) && data["author"] == Str(FullName(author))
    ensures "text" !in data
  {
    map["id" := Int(id), "created_at" := Str(c.createdAt), "author" := Str(FullName(author)),
        "content" := Str(c.text)]
  }

  // ---- Request bodies ----

  const RequiredMessage := "This field is required."
  const NullMessage := "This field may not be null."
  const BlankMessage := "This field may not be blank."
  const NotStringMessage := "Not a valid string."
  const NullCharacterMessage := "Null characters are not allowed."
  const DateFormatMessage := "Date has wrong format. Use one of these formats instead: YYYY-MM-DD."

  function TooLongMessage(max: nat): string {
    "Ensure this field has no more than " + Decimal(max) + " characters."
  }

  function MissingPkMessage(pk: int): string {
    "Invalid pk \"" + IntToString(pk) + "\" - object does not exist."
  }

  function IncorrectTypeMessage(typeName: string): string {
    "Incorrect type. Expected pk value, received " + typeName + "."
  }

  /** The result of one field's validation. */
  datatype FieldResult = Absent | Parsed(v: Value) | Rejected(message: string)

  /** The text a character field reads from a value: a string as it is, an integer in decimal;
      no text from any other value. */
  function RawText(v: Value): Option<string> {
    match v
    case Str(s) => Some(s)
    case Int(i) => Some(IntToString(i))
    case _ => None
  }

  /** The checks a character field makes of its trimmed text, in order: not blank, not over
      `maxLength`, no null character. */
  function CheckText(t: string, maxLength: Option<nat>): (r: FieldResult)
    ensures t == "" ==> r == Rejected(BlankMessage)
    ensures t != "" && maxLength.Some? && |t| > maxLength.value ==> r == Rejected(TooLongMessage(maxLength.value))
    ensures t != "" && (maxLength.None? || |t| <= maxLength.value) ==>
              r == (if '\0' in t then Rejected(NullCharacterMessage) else Parsed(Str(t)))
    ensures r.Parsed? ==> r.v == Str(t) && t != "" && '\0' !in t
    ensures r != Absent
  {
    if t == "" then Rejected(BlankMessage)
    else if maxLength.Some? && |t| > maxLength.value then Rejected(TooLongMessage(maxLength.value))
    else if '\0' in t then Rejected(NullCharacterMessage)
    else Parsed(Str(t))
  }

  /** A character field: strings and numbers are taken as text with outer whitespace trimmed.
      Refused, in this order: null, a value that is not text, then what `CheckText` refuses of
      the trimmed text. */
  function ParseText(v: Value, maxLength: Option<nat>): (r: FieldResult)
    ensures v == Null ==> r == Rejected(NullMessage)
    ensures v.Bool? || v.UserSummary? ==> r == Rejected(NotStringMessage)
    ensures RawText(v).Some? ==> r == CheckText(Strip(RawText(v).value), maxLength)
    ensures r.Parsed? ==> && RawText(v).Some? && r.v == Str(Strip(RawText(v).value))
                          && r.v.s != "" && r.v.s == Strip(r.v.s) && '\0' !in r.v.s
    ensures r.Parsed? && v.Str? ==> r.v.s == Strip(v.s)
    ensures r.Parsed? && maxLength.Some? ==> |r.v.s| <= maxLength.value
    ensures r != Absent
  {
    var text := RawText(v);
    if v == Null then Rejected(NullMessage)
    else if text.None? then Rejected(NotStringMessage)
    else
      var t := Strip(text.value);
      StripIsIdempotent(text.value);
      CheckText(t, maxLength)
  }

  /** Stripping a stripped string changes nothing. */
  lemma StripIsIdempotent(s: string)
    ensures Strip(Strip(s)) == Strip(s)
  {
    var t := Strip(s);
    if t != [] {
      assert StripLeft(t) == t;
      assert StripRight(t) == t;
    }
  }

  /** A date field: text that `parseDate` reads as a date is kept in its ISO form; null is refused
      as null, anything else with the format message. */
  function ParseDate(v: Value, parseDate: string -> Option<string>): (r: FieldResult)
    ensures v == Null ==> r == Rejected(NullMessage)
    ensures v.Str? && parseDate(v.s).Some? ==> r == Parsed(Str(parseDate(v.s).value))
    ensures v.Str? && parseDate(v.s).None? ==> r == Rejected(DateFormatMessage)
    ensures !v.Null? && !v.Str? ==> r == Rejected(DateFormatMessage)
    ensures r.Parsed? ==> v.Str? && r.v.Str? && parseDate(v.s) == Some(r.v.s)
    ensures r != Absent
  {
    match v
    case Null => Rejected(NullMessage)
    case Str(s) =>
      (match parseDate(s)
       case Some(iso) => Parsed(Str(iso))
       case None => Rejected(DateFormatMessage))
    case _ => Rejected(DateFormatMessage)
  }

  /** A primary-key field: an integer that is the key of a stored row. An empty string counts as
      null, as relational fields have it; other values are refused by their type's name. */
  function ParsePk(v: Value, keys: set<nat>): (r: FieldResult)
    ensures r.Parsed? <==> v.Int? && v.i >= 0 && v.i in keys
    ensures r.Parsed? ==> r.v == v
    ensures v == Null || v == Str("") ==> r == Rejected(NullMessage)
    ensures v.Int? && !r.Parsed? ==> r == Rejected(MissingPkMessage(v.i))
    ensures v.Bool? ==> r == Rejected(IncorrectTypeMessage("bool"))
    ensures v.Str? && v.s != "" ==> r == Rejected(IncorrectTypeMessage("str"))
    ensures v.UserSummary? ==> r == Rejected(IncorrectTypeMessage("dict"))
    ensures r != Absent
  {
    match v
    case Null => Rejected(NullMessage)
    case Int(i) => if i >= 0 && i in keys then Parsed(v) else Rejected(MissingPkMessage(i))
    case Bool(_) => Rejected(IncorrectTypeMessage("bool"))
    case Str(s) => if s == "" then Rejected(NullMessage) else Rejected(IncorrectTypeMessage("str"))
    case UserSummary(_) => Rejected(IncorrectTypeMessage("dict"))
  }

  /** What the stored tables and the date parser offer the validation of a task body. */
  datatype Context = Context(users: set<UserId>, boards: set<BoardId>, parseDate: string -> Option<string>)

  /** The validation of one writable field of a task body; `partial` is a PATCH, where absent
      fields are left alone instead of being required. */
  function TaskField(name: string, input: map<string, Value>, ctx: Context, partial: bool): (r: FieldResult)
    requires name in WritableFields
    ensures name !in input ==> r == (if partial then Absent else Rejected(RequiredMessage))
    ensures name in input ==> r != Absent
    ensures r.Parsed? && name == "title" ==> r.v.Str? && 0 < |r.v.s| <= TitleMaxLength
    ensures r.Parsed? && name in {"description", "status", "priority", "due_date"} ==> r.v.Str?
    ensures r.Parsed? && name == "board" ==> r.v.Int? && r.v.i >= 0 && r.v.i in ctx.boards
    ensures r.Parsed? && name in {"assignee_id", "reviewer_id"} ==> r.v.Int? && r.v.i >= 0 && r.v.i in ctx.users
    // Which parser reads a present field.
    ensures name in input && name == "title" ==> r == ParseText(input[name], Some(TitleMaxLength))
    ensures name in input && name in {"description", "status", "priority"} ==> r == ParseText(input[name], None)
    ensures name in input && name == "due_date" ==> r == ParseDate(input[name], ctx.parseDate)
    ensures name in input && name == "board" ==> r == ParsePk(input[name], ctx.boards)
    ensures name in input && name in {"assignee_id", "reviewer_id"} ==> r == ParsePk(input[name], ctx.users)
    // What a parsed field holds, in terms of the body.
    ensures r.Parsed? && name in {"title", "description", "status", "priority"} ==>
              name in input && RawText(input[name]).Some? && r.v == Str(Strip(RawText(input[name]).value))
    ensures r.Parsed? && name == "due_date" ==>
              name in input && input[name].Str? && ctx.parseDate(input[name].s) == Some(r.v.s)
    ensures r.Parsed? && name in {"board", "assignee_id", "reviewer_id"} ==> name in input && r.v == input[name]
  {
    if name !in input then (if partial then Absent else Rejected(RequiredMessage))
    else
      var v := input[name];
      if name == "title" then ParseText(v, Some(TitleMaxLength))
      else if name == "description" || name == "status" || name == "priority" then ParseText(v, None)
      else if name == "due_date" then ParseDate(v, ctx.parseDate)
      else if name == "board" then ParsePk(v, ctx.boards)
      else ParsePk(v, ctx.users)
  }

  /** The validated fields of a task body; `None` is a field a PATCH left out. */
  datatype TaskData = TaskData(
    title: Option<string>, description: Option<string>, status: Option<string>,
    priority: Option<string>, dueDate: Option<string>,
    board: Option<BoardId>, assignee: Option<UserId>, reviewer: Option<UserId>)

  datatype TaskValidation = TaskAccepted(data: TaskData) | TaskRejected(errors: map<string, string>)

  /** The value of a parsed character field; `None` when it did not parse. */
  function TextField(name: string, input: map<string, Value>, ctx: Context, partial: bool): (o: Option<string>)
    requires name in {"title", "description", "status", "priority"}
    ensures o.Some? <==> TaskField(name, input, ctx, partial).Parsed?
    ensures o.Some? ==> o == Some(Strip(RawText(input[name]).value))
    ensures o.Some? && name == "title" ==> 0 < |o.value| <= TitleMaxLength
  {
    var r := TaskField(name, input, ctx, partial);
    if r.Parsed? then Some(r.v.s) else None
  }

  /** The value of a parsed `due_date`; `None` when it did not parse. */
  function DueDateField(input: map<string, Value>, ctx: Context, partial: bool): (o: Option<string>)
    ensures o.Some? <==> TaskField("due_date", input, ctx, partial).Parsed?
    ensures o.Some? ==> input["due_date"].Str? && o == ctx.parseDate(input["due_date"].s)
  {
    var r := TaskField("due_date", input, ctx, partial);
    if r.Parsed? then Some(r.v.s) else None
  }

  /** The key of a parsed primary-key field; `None` when it did not parse. */
  function KeyField(name: string, input: map<string, Value>, ctx: Context, partial: bool): (o: Option<nat>)
    requires name in {"board", "assignee_id", "reviewer_id"}
    ensures o.Some? <==> TaskField(name, input, ctx, partial).Parsed?
    ensures o.Some? ==> input[name] == Int(o.value)
    ensures o.Some? ==> o.value in (if name == "board" then ctx.boards else ctx.users)
  {
    var r := TaskField(name, input, ctx, partial);
    if r.Parsed? then Some(r.v.i) else None
  }

  /** The error of each refused writable field. */
  function FieldErrors(input: map<string, Value>, ctx: Context, partial: bool): (errors: map<string, string>)
    ensures errors.Keys <= WritableFields
    ensures forall f :: f in WritableFields ==> (f in errors <==> TaskField(f, input, ctx, partial).Rejected?)
    ensures forall f :: f in errors ==> errors[f] == TaskField(f, input, ctx, partial).message
  {
    map f | f in WritableFields && TaskField(f, input, ctx, partial).Rejected? :: TaskField(f, input, ctx, partial).message
  }

  /** The validated fields, once no field is refused. */
  function FieldData(input: map<string, Value>, ctx: Context, partial: bool): (data: TaskData)
    ensures data.title.Some? ==> 0 < |data.title.value| <= TitleMaxLength
    ensures data.board.Some? ==> data.board.value in ctx.boards
    ensures data.assignee.Some? ==> data.assignee.value in ctx.users
    ensures data.reviewer.Some? ==> data.reviewer.value in ctx.users
    // Each field has a value exactly when it parsed, and that value is read from the body.
    ensures data.title.Some? <==> TaskField("title", input, ctx, partial).Parsed?
    ensures data.description.Some? <==> TaskField("description", input, ctx, partial).Parsed?
    ensures data.status.Some? <==> TaskField("status", input, ctx, partial).Parsed?
    ensures data.priority.Some? <==> TaskField("priority", input, ctx, partial).Parsed?
    ensures data.dueDate.Some? <==> TaskField("due_date", input, ctx, partial).Parsed?
    ensures data.board.Some? <==> TaskField("board", input, ctx, partial).Parsed?
    ensures data.assignee.Some? <==> TaskField("assignee_id", input, ctx, partial).Parsed?
    ensures data.reviewer.Some? <==> TaskField("reviewer_id", input, ctx, partial).Parsed?
    ensures data.title.Some? ==> data.title == Some(Strip(RawText(input["title"]).value))
    ensures data.description.Some? ==> data.description == Some(Strip(RawText(input["description"]).value))
    ensures data.status.Some? ==> data.status == Some(Strip(RawText(input["status"]).value))
    ensures data.priority.Some? ==> data.priority == Some(Strip(RawText(input["priority"]).value))
    ensures data.dueDate.Some? ==> input["due_date"].Str? && data.dueDate == ctx.parseDate(input["due_date"].s)
    ensures data.board.Some? ==> input["board"] == Int(data.board.value)
    ensures data.assignee.Some? ==> input["assignee_id"] == Int(data.assignee.value)
    ensures data.reviewer.Some? ==> input["reviewer_id"] == Int(data.reviewer.value)
  {
    TaskData(
      TextField("title", input, ctx, partial), TextField("description", input, ctx, partial),
      TextField("status", input, ctx, partial), TextField("priority", input, ctx, partial),
      DueDateField(input, ctx, partial), KeyField("board", input, ctx, partial),
      KeyField("assignee_id", input, ctx, partial), KeyField("reviewer_id", input, ctx, partial))
  }

  /** In a full body, a writable field that is not refused has been parsed. */
  lemma FieldParsed(name: string, input: map<string, Value>, ctx: Context)
    requires name in WritableFields && name !in FieldErrors(input, ctx, false)
    ensures TaskField(name, input, ctx, false).Parsed?
  {
  }

  /** A full body none of whose fields is refused gives every field a value. */
  lemma FullBodyComplete(input: map<string, Value>, ctx: Context)
    requires FieldErrors(input, ctx, false) == map[]
    ensures var data := FieldData(input, ctx, false);
            && data.title.Some? && data.description.Some? && data.status.Some?
            && data.priority.Some? && data.dueDate.Some? && data.board.Some?
            && data.assignee.Some? && data.reviewer.Some?
  {
    FieldParsed("title", input, ctx);
    FieldParsed("description", input, ctx);
    FieldParsed("status", input, ctx);
    FieldParsed("priority", input, ctx);
    FieldParsed("due_date", input, ctx);
    FieldParsed("board", input, ctx);
    FieldParsed("assignee_id", input, ctx);
    FieldParsed("reviewer_id", input, ctx);
  }

  /** `TasksSerializer(data=input, partial=partial).is_valid()`: one error per refused field, or
      the validated fields when none is refused. Keys outside the writable fields are ignored. */
  function ValidateTask(input: map<string, Value>, ctx: Context, partial: bool): (r: TaskValidation)
    ensures r.TaskAccepted? <==> FieldErrors(input, ctx, partial) == map[]
    ensures r.TaskRejected? ==> r.errors == FieldErrors(input, ctx, partial)
    ensures r.TaskAccepted? ==> r.data == FieldData(input, ctx, partial)
    ensures r.TaskRejected? ==> r.errors != map[] && r.errors.Keys <= WritableFields
    // A create or full update without any one of the writable fields is refused, naming each
    // missing field.
    ensures !partial && !(WritableFields <= input.Keys) ==>
              r.TaskRejected? && forall f :: f in WritableFields && f !in input ==>
                                   f in r.errors && r.errors[f] == RequiredMessage
    ensures r.TaskAccepted? && !partial ==>
              && r.data.title.Some? && r.data.description.Some? && r.data.status.Some?
              && r.data.priority.Some? && r.data.dueDate.Some? && r.data.board.Some?
              && r.data.assignee.Some? && r.data.reviewer.Some?
    ensures r.TaskAccepted? ==>
              && (r.data.title.Some? ==> 0 < |r.data.title.value| <= TitleMaxLength)
              && (r.data.board.Some? ==> r.data.board.value in ctx.boards)
              && (r.data.assignee.Some? ==> r.data.assignee.value in ctx.users)
              && (r.data.reviewer.Some? ==> r.data.reviewer.value in ctx.users)
  {
    var errors := FieldErrors(input, ctx, partial);
    if errors != map[] then TaskRejected(errors)
    else
      assert !partial ==> WritableFields <= input.Keys by {
        forall f | f in WritableFields && !partial ensures f in input {
          assert f !in errors;
        }
      }
      var data := FieldData(input, ctx, partial);
      assert !partial ==> data.title.Some? && data.description.Some? && data.status.Some?
                          && data.priority.Some? && data.dueDate.Some? && data.board.Some?
                          && data.assignee.Some? && data.reviewer.Some? by {
        if !partial { FullBodyComplete(input, ctx); }
      }
      TaskAccepted(data)
  }

  /** Text a character field keeps as it is: not blank, already trimmed, no null character. */
  predicate PlainText(t: string) {
    t != "" && Strip(t) == t && '\0' !in t
  }

  /** Plain text within the limit is accepted as it is. */
  lemma PlainTextParses(t: string, maxLength: Option<nat>)
    requires PlainText(t) && (maxLength.None? || |t| <= maxLength.value)
    ensures ParseText(Str(t), maxLength) == Parsed(Str(t))
  {
    assert RawText(Str(t)) == Some(t);
    assert ParseText(Str(t), maxLength) == CheckText(Strip(t), maxLength);
    assert CheckText(t, maxLength) == Parsed(Str(t));
  }

  /** The values a full body carries, one per writable field. */
  predicate FullBody(input: map<string, Value>, title: string, description: string, status: string,
                     priority: string, due: string, board: BoardId, assignee: UserId, reviewer: UserId)
  {
    && WritableFields <= input.Keys
    && input["title"] == Str(title) && input["description"] == Str(description)
    && input["status"] == Str(status) && input["priority"] == Str(priority)
    && input["due_date"] == Str(due) && input["board"] == Int(board)
    && input["assignee_id"] == Int(assignee) && input["reviewer_id"] == Int(reviewer)
  }

  /** A present character field holding plain text within its limit parses to that text. */
  lemma TextFieldParses(name: string, input: map<string, Value>, ctx: Context, t: string)
    requires name in {"title", "description", "status", "priority"}
    requires name in input && input[name] == Str(t)
    requires PlainText(t) && (name == "title" ==> |t| <= TitleMaxLength)
    ensures TaskField(name, input, ctx, false) == Parsed(Str(t))
  {
    PlainTextParses(t, if name == "title" then Some(TitleMaxLength) else None);
  }

  /** The four character fields of a full body of plain texts parse to the texts sent. */
  lemma FullBodyTexts(input: map<string, Value>, title: string, description: string, status: string,
                      priority: string, due: string, board: BoardId, assignee: UserId, reviewer: UserId,
                      ctx: Context)
    requires FullBody(input, title, description, status, priority, due, board, assignee, reviewer)
    requires PlainText(title) && |title| <= TitleMaxLength
    requires PlainText(description) && PlainText(status) && PlainText(priority)
    ensures TaskField("title", input, ctx, false) == Parsed(Str(title))
    ensures TaskField("description", input, ctx, false) == Parsed(Str(description))
    ensures TaskField("status", input, ctx, false) == Parsed(Str(status))
    ensures TaskField("priority", input, ctx, false) == Parsed(Str(priority))
  {
    TextFieldParses("title", input, ctx, title);
    TextFieldParses("description", input, ctx, description);
    TextFieldParses("status", input, ctx, status);
    TextFieldParses("priority", input, ctx, priority);
  }

  /** The date and the three keys of a full body parse when the date reads and the rows exist. */
  lemma FullBodyKeys(input: map<string, Value>, title: string, description: string, status: string,
                     priority: string, due: string, board: BoardId, assignee: UserId, reviewer: UserId,
                     ctx: Context)
    requires FullBody(input, title, description, status, priority, due, board, assignee, reviewer)
    requires ctx.parseDate(due).Some?
    requires board in ctx.boards && assignee in ctx.users && reviewer in ctx.users
    ensures TaskField("due_date", input, ctx, false) == Parsed(Str(ctx.parseDate(due).value))
    ensures TaskField("board", input, ctx, false) == Parsed(Int(board))
    ensures TaskField("assignee_id", input, ctx, false) == Parsed(Int(assignee))
    ensures TaskField("reviewer_id", input, ctx, false) == Parsed(Int(reviewer))
  {
  }

  /** The writable fields are the eight names a task body carries. */
  lemma WritableFieldNames(f: string)
    requires f in WritableFields
    ensures f == "title" || f == "description" || f == "status" || f == "priority" || f == "due_date"
            || f == "board" || f == "assignee_id" || f == "reviewer_id"
  {
  }

  /** No error is reported when none of the eight names has one. */
  lemma NoFieldRefused(input: map<string, Value>, ctx: Context, partial: bool)
    requires forall f :: f in {"title", "description", "status", "priority"} ==> f !in FieldErrors(input, ctx, partial)
    requires forall f :: f in {"due_date", "board", "assignee_id", "reviewer_id"} ==> f !in FieldErrors(input, ctx, partial)
    ensures FieldErrors(input, ctx, partial) == map[]
  {
    var errors := FieldErrors(input, ctx, partial);
    forall f | f in errors
      ensures false
    {
      WritableFieldNames(f);
    }
  }

  /** A full body whose eight fields all parse is accepted with the parsed values. */
  lemma ParsedFieldsAccepted(input: map<string, Value>, title: string, description: string, status: string,
                             priority: string, due: string, board: BoardId, assignee: UserId, reviewer: UserId,
                             ctx: Context)
    requires TaskField("title", input, ctx, false) == Parsed(Str(title))
    requires TaskField("description", input, ctx, false) == Parsed(Str(description))
    requires TaskField("status", input, ctx, false) == Parsed(Str(status))
    requires TaskField("priority", input, ctx, false) == Parsed(Str(priority))
    requires TaskField("due_date", input, ctx, false) == Parsed(Str(due))
    requires TaskField("board", input, ctx, false) == Parsed(Int(board))
    requires TaskField("assignee_id", input, ctx, false) == Parsed(Int(assignee))
    requires TaskField("reviewer_id", input, ctx, false) == Parsed(Int(reviewer))
    ensures ValidateTask(input, ctx, false)
            == TaskAccepted(TaskData(Some(title), Some(description), Some(status), Some(priority),
                                     Some(due), Some(board), Some(assignee), Some(reviewer)))
  {
    NoFieldRefused(input, ctx, false);
  }

  /** A full body of plain texts (the title within its limit), a date the parser reads and stored
      keys is accepted, and the validated fields are exactly the values sent. */
  lemma FullBodyAccepted(input: map<string, Value>, title: string, description: string, status: string,
                         priority: string, due: string, board: BoardId, assignee: UserId, reviewer: UserId,
                         ctx: Context)
    requires FullBody(input, title, description, status, priority, due, board, assignee, reviewer)
    requires PlainText(title) && |title| <= TitleMaxLength
    requires PlainText(description) && PlainText(status) && PlainText(priority)
    requires ctx.parseDate(due).Some?
    requires board in ctx.boards && assignee in ctx.users && reviewer in ctx.users
    ensures ValidateTask(input, ctx, false)
            == TaskAccepted(TaskData(Some(title), Some(description), Some(status), Some(priority),
                                     ctx.parseDate(due), Some(board), Some(assignee), Some(reviewer)))
  {
    FullBodyTexts(input, title, description, status, priority, due, board, assignee, reviewer, ctx);
    FullBodyKeys(input, title, description, status, priority, due, board, assignee, reviewer, ctx);
    ParsedFieldsAccepted(input, title, description, status, priority, ctx.parseDate(due).value,
                         board, assignee, reviewer, ctx);
  }

  /** Two bodies whose writable fields validate alike report the same errors. */
  lemma SameFieldsSameErrors(a: map<string, Value>, b: map<string, Value>, ctx: Context, partial: bool)
    requires forall f :: f in WritableFields ==> TaskField(f, a, ctx, partial) == TaskField(f, b, ctx, partial)
    ensures FieldErrors(a, ctx, partial) == FieldErrors(b, ctx, partial)
  {
    var ea, eb := FieldErrors(a, ctx, partial), FieldErrors(b, ctx, partial);
    assert ea.Keys == eb.Keys;
  }

  /** Two bodies whose writable fields validate alike give the same validated fields. */
  lemma SameFieldsSameData(a: map<string, Value>, b: map<string, Value>, ctx: Context, partial: bool)
    requires forall f :: f in WritableFields ==> TaskField(f, a, ctx, partial) == TaskField(f, b, ctx, partial)
    ensures FieldData(a, ctx, partial) == FieldData(b, ctx, partial)
  {
    assert TaskField("title", a, ctx, partial) == TaskField("title", b, ctx, partial);
    assert TaskField("description", a, ctx, partial) == TaskField("description", b, ctx, partial);
    assert TaskField("status", a, ctx, partial) == TaskField("status", b, ctx, partial);
    assert TaskField("priority", a, ctx, partial) == TaskField("priority", b, ctx, partial);
    assert TaskField("due_date", a, ctx, partial) == TaskField("due_date", b, ctx, partial);
    assert TaskField("board", a, ctx, partial) == TaskField("board", b, ctx, partial);
    assert TaskField("assignee_id", a, ctx, partial) == TaskField("assignee_id", b, ctx, partial);
    assert TaskField("reviewer_id", a, ctx, partial) == TaskField("reviewer_id", b, ctx, partial);
  }

  /** Two bodies whose writable fields validate alike validate alike. */
  lemma {:induction false} SameFieldsSameValidation(a: map<string, Value>, b: map<string, Value>, ctx: Context, partial: bool)
    requires forall f :: f in WritableFields ==> TaskField(f, a, ctx, partial) == TaskField(f, b, ctx, partial)
    ensures ValidateTask(a, ctx, partial) == ValidateTask(b, ctx, partial)
  {
    SameFieldsSameErrors(a, b, ctx, partial);
    SameFieldsSameData(a, b, ctx, partial);
  }

  /** Read-only and unknown keys in a body make no difference: validating the body restricted to
      the writable fields gives the same result. */
  lemma {:induction false} ValidationIgnoresOtherKeys(input: map<string, Value>, ctx: Context, partial: bool)
    ensures ValidateTask(input, ctx, partial)
            == ValidateTask(map k | k in input && k in WritableFields :: input[k], ctx, partial)
  {
    var only := map k | k in input && k in WritableFields :: input[k];
    forall f | f in WritableFields
      ensures TaskField(f, input, ctx, partial) == TaskField(f, only, ctx, partial)
    {
    }
    SameFieldsSameValidation(input, only, ctx, partial);
  }

  /** `serializer.save(**extra)` on create: the task row built from the validated fields, every
      field the body does not give taking its model default. */
  function NewTask(data: TaskData, board: BoardId): (t: Task)
    ensures t.board == board
    ensures t.status == data.status.GetOr(DefaultStatus)
    ensures t.title == data.title.GetOr("") && t.description == data.description.GetOr("")
    ensures t.priority == data.priority.GetOr("")
    ensures t.assignee == data.assignee && t.reviewer == data.reviewer && t.dueDate == data.dueDate
    ensures t.author == None && t.owner == None
    // The model fields the body does not carry keep their defaults.
    ensures t.content == "" && t.prio == "" && t.worked == "" && t.deadline == None
    ensures |t.title| <= TitleMaxLength && |t.status| <= StatusMaxLength ==> WithinLimits(t)
  {
    var blank := DefaultTask(board);
    blank.(title := data.title.GetOr(blank.title),
           description := data.description.GetOr(blank.description),
           status := data.status.GetOr(blank.status),
           priority := data.priority.GetOr(blank.priority),
           dueDate := data.dueDate,
           assignee := data.assignee,
           reviewer := data.reviewer)
  }

  datatype CommentValidation = CommentAccepted(text: string) | CommentRejected(errors: map<string, string>)

  /** `CommentSerializer(data=input).is_valid()`: `content` is a required character field that
      becomes the comment's `text`; `author`, `id` and `created_at` are read-only and ignored. */
  function ValidateComment(input: map<string, Value>): (r: CommentValidation)
    ensures "content" !in input ==> r == CommentRejected(map["content" := RequiredMessage])
    ensures r.CommentAccepted? ==> "content" in input && r.text != "" && r.text == Strip(r.text)
    ensures r.CommentAccepted? && input["content"].Str? ==> r.text == Strip(input["content"].s)
    ensures r.CommentRejected? ==> r.errors.Keys == {"content"}
    ensures "content" in input && ParseText(input["content"], None).Parsed? ==>
              r == CommentAccepted(ParseText(input["content"], None).v.s)
    ensures "content" in input && ParseText(input["content"], None).Rejected? ==>
              r == CommentRejected(map["content" := ParseText(input["content"], None).message])
  {
    if "content" !in input then CommentRejected(map["content" := RequiredMessage])
    else
      var field := ParseText(input["content"], None);
      if field.Parsed? then CommentAccepted(field.v.s)
      else if field.Rejected? then CommentRejected(map["content" := field.message])
      else CommentRejected(map["content" := RequiredMessage])
  }
}
