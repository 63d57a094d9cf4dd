/**
 * The controller behind the Slack webhook and the `tasks` resource: the
 * dispatcher that routes a decoded slash command, its four handlers, and
 * the REST verbs over the task table.
 *
 * Each handler that changes the tables is a method on a `Database`, proved
 * against a function that gives the tables and the reply it produces from
 * the tables before; the lemmas about those functions state what the
 * handlers promise.
 */
module TaskController {
  import opened Wrappers
  import opened Fields
  import opened SlackHelper
  import opened TaskModel
  import opened UserModel
  import opened Storage

  /** `TaskError`. `InvalidText` is declared but never thrown. */
  datatype TaskError = InvalidCreator | InvalidText | Generic

  /** What a handler can fail with. */
  datatype Failure =
    | Thrown(error: TaskError)   // a `TaskError`
    | Decoding(field: FieldError) // a payload or body without a required field
    | BadRequest                 // `Abort.badRequest`: the request has no form body
    | NotFound                   // the resource route found no task with that id

  /** A Slack attachment rendering one task; its layout is not modelled. */
  datatype Attachment = Attachment(task: Task)

  function MakeSlackAttachment(t: Task): Attachment
  {
    Attachment(t)
  }

  /** What a handler answers with. */
  datatype Reply =
    | Message(text: string)              // a literal string
    | Attachments(items: seq<Attachment>) // `{"attachments": [...]}`
    | Echo(form: Json)                   // the request's form fields, as JSON
    | Resource(task: Task)               // a task as JSON
    | StatusOK                           // `Response(status: .ok)`

  /** One attachment per task, in order. */
  function Render(ts: seq<Task>): (r: seq<Attachment>)
    ensures |r| == |ts| && forall i :: 0 <= i < |ts| ==> r[i].task == ts[i]
  {
    seq(|ts|, i requires 0 <= i < |ts| => MakeSlackAttachment(ts[i]))
  }

  /** The user a Slack payload creates when no user has its Slack user id yet. */
  function Candidate(cmd: SlashCommand, now: Date): User
  {
    UserFromSlack(SlackUserOf(cmd), now)
  }

  // ---------------------------------------------------------------------
  // The slash-command handlers, as functions of the tables

  /**
   * `getTasks`: the tasks of the user with the payload's Slack user id,
   * without ever creating that user.
   */
  function GetTasks(db: Tables, cmd: SlashCommand): (r: Result<Reply, Failure>)
    ensures r.Err? <==> forall u :: u in db.users ==> u.slackUserID != cmd.userID
    ensures r.Err? ==> r.error == Thrown(Generic)
    ensures r.Ok? ==> r.value.Attachments? &&
                      exists u :: u in db.users && u.slackUserID == cmd.userID &&
                                  (forall t :: Attachment(t) in r.value.items <==>
                                               t in db.tasks && u.id.Some? && t.creatorID == u.id.value) &&
                                  (u.id.Some? ==> |r.value.items| == |TasksBy(db.tasks, u.id.value)|)
  {
    match FindUser(db.users, SlackUserOf(cmd).userID)
    case None => Err(Thrown(Generic))
    case Some(u) =>
      var tasks := if u.id.Some? then TasksBy(db.tasks, u.id.value) else [];
      var items := Render(tasks);
      assert forall t :: Attachment(t) in items <==> t in tasks;
      Ok(Attachments(items))
  }

  /**
   * `addTask`: lookup-or-create the payload's user, then save one new
   * `ToDo` task with the payload's content, owned by that user.
   */
  function AddStep(db: Tables, cmd: SlashCommand, now: Date): (r: (Tables, Result<Reply, Failure>))
    ensures r.1.Ok? ==> |r.0.tasks| == |db.tasks| + 1 && r.0.tasks == db.tasks + [r.0.tasks[|db.tasks|]]
    ensures r.1.Err? ==> r.1.error == Thrown(InvalidCreator) && r.0.tasks == db.tasks
  {
    var (db1, user) := LookupOrCreate(db, Candidate(cmd, now));
    AddAs(db1, user.id, ContentOf(cmd.text), now)
  }

  /** The rest of `addTask` once the user is known: save the new task and render it. */
  function AddAs(db: Tables, userID: Option<nat>, content: string, now: Date): (r: (Tables, Result<Reply, Failure>))
    ensures r.0.users == db.users && r.0.nextUserId == db.nextUserId
    ensures r.1.Err? <==> userID.None?
    ensures userID.None? ==> r == (db, Err(Thrown(InvalidCreator)))
    ensures userID.Some? ==> |r.0.tasks| == |db.tasks| + 1 && r.0.tasks == db.tasks + [r.0.tasks[|db.tasks|]] &&
                             r.0.tasks[|db.tasks|].creatorID == userID.value &&
                             r.0.tasks[|db.tasks|].content == content && r.0.tasks[|db.tasks|].status == ToDo
  {
    match userID
    case None => (db, Err(Thrown(InvalidCreator)))
    case Some(userID) =>
      var (db2, task) := InsertTask(db, NewTask(content, ToDo, userID, now));
      (db2, Ok(Attachments(Render([task]))))
  }

  /**
   * `deleteTask`: lookup-or-create the payload's user, read the content as
   * a task id, and delete that user's task with that id. The answer is
   * "Deleted" whether or not a task matched.
   */
  function DeleteStep(db: Tables, cmd: SlashCommand, now: Date): (r: (Tables, Result<Reply, Failure>))
    ensures |r.0.tasks| <= |db.tasks| && forall t :: t in r.0.tasks ==> t in db.tasks
    ensures r.1.Ok? ==> r.1.value == Message("Deleted")
    ensures r.1.Err? ==> r.1.error == Thrown(InvalidCreator) && r.0.tasks == db.tasks
    ensures ParseInt(ContentOf(cmd.text)).None? ==> r.1.Err?
  {
    var (db1, user) := LookupOrCreate(db, Candidate(cmd, now));
    DeleteAs(db1, user.id, ParseInt(ContentOf(cmd.text)))
  }

  /** The rest of `deleteTask` once the user is known: read the id, then delete. */
  function DeleteAs(db: Tables, userID: Option<nat>, taskID: Option<int>): (r: (Tables, Result<Reply, Failure>))
    ensures r.0.users == db.users && r.0.nextUserId == db.nextUserId && r.0.nextTaskId == db.nextTaskId
    ensures r.1.Err? <==> userID.None? || taskID.None?
    ensures r.1.Err? ==> r == (db, Err(Thrown(InvalidCreator)))
    ensures r.1.Ok? ==> r.1.value == Message("Deleted") &&
                        forall t :: t in r.0.tasks <==> t in db.tasks && !Matches(t, userID.value, taskID.value)
  {
    match userID
    case None => (db, Err(Thrown(InvalidCreator)))
    case Some(userID) =>
      match taskID
      case None => (db, Err(Thrown(InvalidCreator)))
      case Some(taskID) =>
        (db.(tasks := RemoveMatching(db.tasks, userID, taskID)), Ok(Message("Deleted")))
  }

  /** `assignTask`: not implemented; it always fails. */
  function AssignTask(cmd: SlashCommand): (r: Result<Reply, Failure>)
    ensures r.Err? && r.error == Thrown(Generic)
  {
    Err(Thrown(Generic))
  }

  /**
   * `slackReceiver`: "EMPTY" without a form body; otherwise decode the
   * payload and dispatch on its sub-command, echoing the form fields for
   * `Unknown`. The classifier has no `delete`, so `deleteTask` is never
   * dispatched to.
   */
  function Receive(db: Tables, form: Option<Json>, now: Date): (r: (Tables, Result<Reply, Failure>))
    ensures form.None? ==> r == (db, Ok(Message("EMPTY")))
    ensures form.Some? && DecodeSlashCommand(form.value).Err? ==>
              r == (db, Err(Decoding(DecodeSlashCommand(form.value).error)))
    ensures r.0.tasks == db.tasks || (|r.0.tasks| == |db.tasks| + 1 && r.0.tasks == db.tasks + [r.0.tasks[|db.tasks|]])
  {
    match form
    case None => (db, Ok(Message("EMPTY")))
    case Some(json) =>
      match DecodeSlashCommand(json)
      case Err(e) => (db, Err(Decoding(e)))
      case Ok(cmd) =>
        match SubCommandOf(cmd.text)
        case List => (db, GetTasks(db, cmd))
        case Add => AddStep(db, cmd, now)
        case Assign => (db, AssignTask(cmd))
        case Unknown => (db, Ok(Echo(json)))
  }

  // ---------------------------------------------------------------------
  // What the slash-command handlers promise

  /**
   * `addTask` appends exactly one task, in state `ToDo`, holding the
   * payload's content and owned by the user that a lookup by the payload's
   * Slack user id now finds; it answers with that task's attachment.
   */
  lemma AddTaskSpec(db: Tables, cmd: SlashCommand, now: Date)
    requires Consistent(db)
    ensures var (after, r) := AddStep(db, cmd, now);
            Consistent(after) && |after.tasks| == |db.tasks| + 1 &&
            var task := after.tasks[|db.tasks|];
            after.tasks == db.tasks + [task] &&
            task.content == ContentOf(cmd.text) && task.status == ToDo &&
            FindUser(after.users, cmd.userID).Some? &&
            FindUser(after.users, cmd.userID).value.id == Some(task.creatorID) &&
            r == Ok(Attachments([Attachment(task)])) &&
            ((forall u :: u in db.users ==> u.slackUserID != cmd.userID) ==> task.creatorID == db.nextUserId)
  {
    var candidate := Candidate(cmd, now);
    var content := ContentOf(cmd.text);
    LookupOrCreateConsistent(db, candidate);
    var (db1, user) := LookupOrCreate(db, candidate);
    assert AddStep(db, cmd, now) == AddAs(db1, user.id, content, now);
    AddAsSpec(db1, user.id.value, content, now);
    if forall u :: u in db.users ==> u.slackUserID != cmd.userID {
      AbsentUserIsCreated(db, candidate);
    }
  }

  /** Saving the new task for a known user appends exactly that task. */
  lemma AddAsSpec(db: Tables, userID: nat, content: string, now: Date)
    requires Consistent(db)
    ensures var (after, r) := AddAs(db, Some(userID), content, now);
            Consistent(after) && after.users == db.users && |after.tasks| == |db.tasks| + 1 &&
            var task := after.tasks[|db.tasks|];
            after.tasks == db.tasks + [task] &&
            task.content == content && task.status == ToDo && task.creatorID == userID &&
            r == Ok(Attachments([Attachment(task)]))
  {
    var task := NewTask(content, ToDo, userID, now);
    InsertTaskConsistent(db, task);
    var (after, saved) := InsertTask(db, task);
    assert Render([saved]) == [Attachment(saved)];
    assert after.tasks[|db.tasks|] == saved;
  }

  /**
   * Listing right after one task was appended for the user the lookup
   * finds gives just that task, when no earlier task has that creator.
   */
  lemma ListAfterAppend(before: seq<Task>, after: Tables, list: SlashCommand, user: User, saved: Task)
    requires after.tasks == before + [saved]
    requires FindUser(after.users, list.userID) == Some(user)
    requires user.id == Some(saved.creatorID)
    requires forall t :: t in before ==> t.creatorID != saved.creatorID
    ensures GetTasks(after, list) == Ok(Attachments([Attachment(saved)]))
  {
    TasksByAppend(before, saved, saved.creatorID);
    TasksByNone(before, saved.creatorID);
    assert TasksBy(after.tasks, saved.creatorID) == [saved];
    assert Render([saved]) == [Attachment(saved)];
  }

  /**
   * Adding a task for a Slack user never seen before, then listing for the
   * same Slack user id, lists exactly that one task, provided no stored
   * task already names the new user's id as its creator (creator ids are
   * not checked against the user table, and REST `store` takes any).
   */
  lemma AddThenList(db: Tables, add: SlashCommand, list: SlashCommand, now: Date)
    requires Consistent(db)
    requires forall u :: u in db.users ==> u.slackUserID != add.userID
    requires forall t :: t in db.tasks ==> t.creatorID != db.nextUserId
    requires list.userID == add.userID
    ensures var after := AddStep(db, add, now).0;
            |after.tasks| == |db.tasks| + 1 &&
            after.tasks[|db.tasks|].content == ContentOf(add.text) &&
            GetTasks(after, list) == Ok(Attachments([Attachment(after.tasks[|db.tasks|])]))
  {
    AddTaskSpec(db, add, now);
    var after := AddStep(db, add, now).0;
    var task := after.tasks[|db.tasks|];
    ListAfterAppend(db.tasks, after, list, FindUser(after.users, add.userID).value, task);
  }

  /** Listing for a Slack user id that no user has fails and creates no user. */
  lemma ListUnknownUserFails(db: Tables, cmd: SlashCommand, now: Date)
    requires SubCommandOf(cmd.text) == List
    requires forall u :: u in db.users ==> u.slackUserID != cmd.userID
    ensures Receive(db, Some(EncodeSlashCommand(cmd)), now) == (db, Err(Thrown(Generic)))
  {
  }

  /**
   * A content that is not an integer makes `deleteTask` fail with
   * `InvalidCreator`; no task is removed, but the user lookup-or-create has
   * already happened.
   */
  lemma DeleteNonNumeric(db: Tables, cmd: SlashCommand, now: Date)
    requires Consistent(db)
    requires ParseInt(ContentOf(cmd.text)).None?
    ensures var (after, r) := DeleteStep(db, cmd, now);
            r == Err(Thrown(InvalidCreator)) && after.tasks == db.tasks &&
            after == LookupOrCreate(db, Candidate(cmd, now)).0
  {
    LookupOrCreateConsistent(db, Candidate(cmd, now));
  }

  /**
   * Called on the text "delete" and a number, `deleteTask` fails with
   * `invalidCreator` and removes nothing: the classifier gives `unknown`,
   * whose offset 0 leaves "delete" in the content, which is then no integer.
   */
  lemma DeleteTextNeverDeletes(db: Tables, cmd: SlashCommand, now: Date, n: int)
    requires cmd.text == "delete " + ShowInt(n)
    ensures DeleteStep(db, cmd, now).1 == Err(Thrown(InvalidCreator))
    ensures DeleteStep(db, cmd, now).0.tasks == db.tasks
  {
    assert cmd.text == "delete" + [' '] + ShowInt(n);
    DeleteThenArgument(ShowInt(n));
  }

  /**
   * `deleteTask` with an integer content removes exactly the tasks of the
   * payload's user with that id, keeps every other task, and answers
   * "Deleted" even when nothing matched.
   */
  lemma DeleteTaskSpec(db: Tables, cmd: SlashCommand, now: Date)
    requires Consistent(db)
    requires ParseInt(ContentOf(cmd.text)).Some?
    ensures var (after, r) := DeleteStep(db, cmd, now);
            var user := FindUser(after.users, cmd.userID);
            var taskID := ParseInt(ContentOf(cmd.text)).value;
            Consistent(after) && r == Ok(Message("Deleted")) &&
            user.Some? && user.value.id.Some? &&
            forall t :: t in after.tasks <==> t in db.tasks && !Matches(t, user.value.id.value, taskID)
  {
    var candidate := Candidate(cmd, now);
    var parsed := ParseInt(ContentOf(cmd.text));
    LookupOrCreateConsistent(db, candidate);
    var (db1, user) := LookupOrCreate(db, candidate);
    assert DeleteStep(db, cmd, now) == DeleteAs(db1, user.id, parsed);
    DeleteAsSpec(db1, user.id.value, parsed.value);
  }

  /** Deleting for a known user and id keeps the users and drops exactly the matching tasks. */
  lemma DeleteAsSpec(db: Tables, userID: nat, taskID: int)
    requires Consistent(db)
    ensures var (after, r) := DeleteAs(db, Some(userID), Some(taskID));
            Consistent(after) && r == Ok(Message("Deleted")) && after.users == db.users &&
            forall t :: t in after.tasks <==> t in db.tasks && !Matches(t, userID, taskID)
  {
    RemoveMatchingSpec(db.tasks, userID, taskID);
    RemoveMatchingConsistent(db, userID, taskID);
  }

  /** Deleting twice is deleting once: the second delete changes nothing and answers alike. */
  lemma DeleteTwice(db: Tables, cmd: SlashCommand, now: Date, later: Date)
    requires Consistent(db)
    ensures var (once, r1) := DeleteStep(db, cmd, now);
            var (twice, r2) := DeleteStep(once, cmd, later);
            twice == once && r2 == r1
  {
    var (db1, user) := LookupOrCreate(db, Candidate(cmd, now));
    LookupOrCreateConsistent(db, Candidate(cmd, now));
    var once := DeleteStep(db, cmd, now).0;
    assert once.users == db1.users;
    assert FindUser(once.users, cmd.userID) == Some(user);
    match ParseInt(ContentOf(cmd.text))
    case None =>
    case Some(taskID) =>
      RemoveMatchingSpec(db1.tasks, user.id.value, taskID);
  }

  /**
   * Text whose first word is "delete" is not dispatched to `deleteTask`:
   * the receiver echoes the form fields and changes nothing.
   */
  lemma ReceiveDeleteEchoes(db: Tables, json: Json, now: Date)
    requires DecodeSlashCommand(json).Ok?
    requires StartsWithKeyword(DecodeSlashCommand(json).value.text, "delete")
    ensures Receive(db, Some(json), now) == (db, Ok(Echo(json)))
  {
    DeleteIsUnknown(DecodeSlashCommand(json).value.text);
  }

  /**
   * A text that begins with none of the three keywords is `unknown`, and
   * the receiver echoes the form fields and changes nothing.
   */
  lemma ReceiveOtherWordEchoes(db: Tables, json: Json, now: Date)
    requires DecodeSlashCommand(json).Ok?
    requires forall c :: c != Unknown ==> !StartsWithKeyword(DecodeSlashCommand(json).value.text, Keyword(c))
    ensures Receive(db, Some(json), now) == (db, Ok(Echo(json)))
  {
    OtherWordIsUnknown(DecodeSlashCommand(json).value.text);
  }

  /**
   * The receiver's dispatch on a decoded payload: `list` answers as
   * `getTasks` and changes nothing, `add` does what `addTask` does, and
   * `assign` fails with `generic`.
   */
  lemma ReceiveRoutes(db: Tables, json: Json, now: Date)
    requires DecodeSlashCommand(json).Ok?
    ensures var cmd := DecodeSlashCommand(json).value;
            SubCommandOf(cmd.text) == List ==> Receive(db, Some(json), now) == (db, GetTasks(db, cmd))
    ensures var cmd := DecodeSlashCommand(json).value;
            SubCommandOf(cmd.text) == Add ==> Receive(db, Some(json), now) == AddStep(db, cmd, now)
    ensures var cmd := DecodeSlashCommand(json).value;
            SubCommandOf(cmd.text) == Assign ==> Receive(db, Some(json), now) == (db, Err(Thrown(Generic)))
  {
  }

  /**
   * The receiver changes the tables only for `add`: without a form body,
   * with a payload that fails to decode, and for list, assign and unknown
   * sub-commands the tables stay as they were.
   */
  lemma ReceiveChangesOnlyForAdd(db: Tables, form: Option<Json>, now: Date)
    requires form.None? || DecodeSlashCommand(form.value).Err? ||
             SubCommandOf(DecodeSlashCommand(form.value).value.text) != Add
    ensures Receive(db, form, now).0 == db
    ensures form.None? ==> Receive(db, form, now).1 == Ok(Message("EMPTY"))
  {
  }

  // ---------------------------------------------------------------------
  // The REST verbs' queries

  /** `show`: the task with that id, whoever created it. */
  function ShowTask(db: Tables, id: nat): (r: Result<Reply, Failure>)
    ensures r.Ok? <==> exists t :: t in db.tasks && t.id == Some(id)
    ensures r.Ok? ==> r.value.Resource? && r.value.task in db.tasks && r.value.task.id == Some(id)
    ensures r.Err? ==> r.error == NotFound
  {
    match FindTask(db.tasks, id)
    case None => Err(NotFound)
    case Some(t) => Ok(Resource(t))
  }

  /** The form fields of a request as a JSON object: every value a string. */
  function FormRecord(json: Json): Record
  {
    map k | k in json :: Str(json[k])
  }

  /** REST `delete` removes exactly one row, the one with that id. */
  lemma {:induction false} DestroyRemovesOne(ts: seq<Task>, lo: nat, hi: nat, id: nat)
    requires TasksKeyed(ts, lo, hi)
    requires exists t :: t in ts && t.id == Some(id)
    ensures |RemoveById(ts, id)| == |ts| - 1
    ensures forall t :: t in RemoveById(ts, id) <==> t in ts && t.id != Some(id)
  {
    if ts[0].id == Some(id) {
      forall t | t in ts[1..]
        ensures t.id != Some(id)
      {
        TasksKeyedAbove(ts[1..], id + 1, hi, t);
      }
      FilterAll(ts[1..], (t: Task) => t.id != Some(id));
    } else {
      DestroyRemovesOne(ts[1..], ts[0].id.value + 1, hi, id);
    }
  }

  /**
   * REST `update` and `replace` save the loaded task with a new content:
   * the row of that task gets the new content and keeps everything else,
   * and every other row stays as it was.
   */
  lemma {:induction false} ContentChangeOnlyTouchesTarget(ts: seq<Task>, lo: nat, hi: nat, t: Task, content: string)
    requires TasksKeyed(ts, lo, hi) && t in ts
    ensures var r := PutTask(ts, t.(content := content));
            |r| == |ts| &&
            forall i :: 0 <= i < |ts| ==> r[i] == if ts[i] == t then t.(content := content) else ts[i]
  {
    forall i | 0 <= i < |ts| && ts[i].id == t.id
      ensures ts[i] == t
    {
      var j :| 0 <= j < |ts| && ts[j] == t;
      TasksKeyedUnique(ts, lo, hi, i, j);
    }
  }

  // ---------------------------------------------------------------------
  // The handlers on the database

  /** `addTask` on the database. */
  method AddTask(db: Database, cmd: SlashCommand, now: Date) returns (r: Result<Reply, Failure>)
    requires db.Valid()
    modifies db
    ensures db.Valid()
    ensures (db.State(), r) == AddStep(old(db.State()), cmd, now)
  {
    var user := db.CreateUserIfNotExist(Candidate(cmd, now));
    var task := NewTask(ContentOf(cmd.text), ToDo, user.id.value, now);
    var saved := db.SaveNewTask(task);
    r := Ok(Attachments(Render([saved])));
  }

  /**
   * The deleting half of `deleteTask`: query the tasks of this creator
   * with this id, then delete each one by its id.
   */
  method DeleteMatches(db: Database, creatorID: int, taskID: int)
    requires db.Valid()
    modifies db`tasks
    ensures db.Valid()
    ensures db.tasks == RemoveMatching(old(db.tasks), creatorID, taskID)
  {
    ghost var before := db.tasks;
    var matches := TasksMatching(db.tasks, creatorID, taskID);
    assert |matches| > 0 ==> matches[0] in matches;
    var i := 0;
    while i < |matches|
      invariant 0 <= i <= |matches|
      invariant |matches| > 0 ==> matches[0].id.Some?
      invariant db.Valid()
      invariant i == 0 ==> db.tasks == before
      invariant i > 0 ==> db.tasks == RemoveById(before, matches[0].id.value)
    {
      var m := matches[i];
      assert m in matches && matches[0] in matches;
      if i > 0 {
        RemoveByIdTwice(before, m.id.value);
      }
      db.DeleteTaskRow(m.id.value);
      i := i + 1;
    }
    if |matches| == 0 {
      RemoveMatchingNothing(before, creatorID, taskID);
    } else {
      assert matches[0] in matches;
      RemoveByIdOfMatch(before, FirstId, db.nextTaskId, creatorID, matches[0].id.value);
    }
  }

  /** `deleteTask` on the database. */
  method DeleteTask(db: Database, cmd: SlashCommand, now: Date) returns (r: Result<Reply, Failure>)
    requires db.Valid()
    modifies db
    ensures db.Valid()
    ensures (db.State(), r) == DeleteStep(old(db.State()), cmd, now)
  {
    ghost var start := db.State();
    var user := db.CreateUserIfNotExist(Candidate(cmd, now));
    var parsed := ParseInt(ContentOf(cmd.text));
    assert DeleteStep(start, cmd, now) == DeleteAs(db.State(), user.id, parsed);
    r := DeleteFor(db, user.id.value, parsed);
  }

  /** The rest of `deleteTask` on the database, once the user is known. */
  method DeleteFor(db: Database, userID: nat, parsed: Option<int>) returns (r: Result<Reply, Failure>)
    requires db.Valid()
    modifies db
    ensures db.Valid()
    ensures (db.State(), r) == DeleteAs(old(db.State()), Some(userID), parsed)
  {
    if parsed.None? {
      return Err(Thrown(InvalidCreator));
    }
    ghost var before := db.State();
    DeleteMatches(db, userID, parsed.value);
    assert db.State() == before.(tasks := RemoveMatching(before.tasks, userID, parsed.value));
    r := Ok(Message("Deleted"));
  }

  /** `slackReceiver` on the database. */
  method SlackReceiver(db: Database, form: Option<Json>, now: Date) returns (r: Result<Reply, Failure>)
    requires db.Valid()
    modifies db
    ensures db.Valid()
    ensures (db.State(), r) == Receive(old(db.State()), form, now)
  {
    if form.None? {
      return Ok(Message("EMPTY"));
    }
    var json := form.value;
    var decoded := DecodeSlashCommand(json);
    if decoded.Err? {
      return Err(Decoding(decoded.error));
    }
    var cmd := decoded.value;
    match SubCommandOf(cmd.text)
    case List =>
      r := GetTasks(db.State(), cmd);
    case Add =>
      r := AddTask(db, cmd, now);
    case Assign =>
      r := AssignTask(cmd);
    case Unknown =>
      r := Ok(Echo(json));
  }

  /** REST `store`: decode a task from the form body and save it as a new row. */
  method StoreTask(db: Database, body: Option<Json>, now: Date) returns (r: Result<Reply, Failure>)
    requires db.Valid()
    modifies db
    ensures db.Valid()
    ensures body.None? ==> r == Err(BadRequest) && db.State() == old(db.State())
    ensures body.Some? && TaskFromJson(FormRecord(body.value), now).Err? ==>
              r == Err(Decoding(TaskFromJson(FormRecord(body.value), now).error)) && db.State() == old(db.State())
    ensures body.Some? && TaskFromJson(FormRecord(body.value), now).Ok? ==>
              var (after, saved) := InsertTask(old(db.State()), TaskFromJson(FormRecord(body.value), now).value);
              db.State() == after && r == Ok(Resource(saved))
  {
    if body.None? {
      return Err(BadRequest);
    }
    var decoded := TaskFromJson(FormRecord(body.value), now);
    if decoded.Err? {
      return Err(Decoding(decoded.error));
    }
    var saved := db.SaveNewTask(decoded.value);
    r := Ok(Resource(saved));
  }

  /**
   * REST `update` (PATCH): apply the updateable key to the task with that
   * id and save it; no owner check.
   */
  method UpdateTask(db: Database, id: nat, body: Json) returns (r: Result<Reply, Failure>)
    requires db.Valid()
    modifies db`tasks
    ensures db.Valid()
    ensures FindTask(old(db.tasks), id).None? ==> r == Err(NotFound) && db.tasks == old(db.tasks)
    ensures FindTask(old(db.tasks), id).Some? ==>
              var updated := ApplyUpdate(FindTask(old(db.tasks), id).value, FormRecord(body));
              db.tasks == PutTask(old(db.tasks), updated) && r == Ok(Resource(updated))
  {
    var found := FindTask(db.tasks, id);
    if found.None? {
      return Err(NotFound);
    }
    var updated := ApplyUpdate(found.value, FormRecord(body));
    db.SaveExistingTask(updated);
    r := Ok(Resource(updated));
  }

  /**
   * REST `replace` (PUT): decode a whole task from the body, then copy only
   * its content onto the task with that id and save it; no owner check.
   */
  method ReplaceTask(db: Database, id: nat, body: Option<Json>, now: Date) returns (r: Result<Reply, Failure>)
    requires db.Valid()
    modifies db`tasks
    ensures db.Valid()
    ensures FindTask(old(db.tasks), id).None? ==> r == Err(NotFound) && db.tasks == old(db.tasks)
    ensures FindTask(old(db.tasks), id).Some? && body.None? ==> r == Err(BadRequest) && db.tasks == old(db.tasks)
    ensures FindTask(old(db.tasks), id).Some? && body.Some? && TaskFromJson(FormRecord(body.value), now).Err? ==>
              r == Err(Decoding(TaskFromJson(FormRecord(body.value), now).error)) && db.tasks == old(db.tasks)
    ensures FindTask(old(db.tasks), id).Some? && body.Some? && TaskFromJson(FormRecord(body.value), now).Ok? ==>
              var old_task := FindTask(old(db.tasks), id).value;
              var replaced := old_task.(content := TaskFromJson(FormRecord(body.value), now).value.content);
              db.tasks == PutTask(old(db.tasks), replaced) && r == Ok(Resource(replaced))
  {
    var found := FindTask(db.tasks, id);
    if found.None? {
      return Err(NotFound);
    }
    if body.None? {
      return Err(BadRequest);
    }
    var decoded := TaskFromJson(FormRecord(body.value), now);
    if decoded.Err? {
      return Err(Decoding(decoded.error));
    }
    var replaced := found.value.(content := decoded.value.content);
    db.SaveExistingTask(replaced);
    r := Ok(Resource(replaced));
  }

  /** REST `delete`: remove the task with that id; no owner check. */
  method DestroyTask(db: Database, id: nat) returns (r: Result<Reply, Failure>)
    requires db.Valid()
    modifies db`tasks
    ensures db.Valid()
    ensures FindTask(old(db.tasks), id).None? ==> r == Err(NotFound) && db.tasks == old(db.tasks)
    ensures FindTask(old(db.tasks), id).Some? ==> r == Ok(StatusOK) && db.tasks == RemoveById(old(db.tasks), id)
  {
    var found := FindTask(db.tasks, id);
    if found.None? {
      return Err(NotFound);
    }
    db.DeleteTaskRow(id);
    r := Ok(StatusOK);
  }

  /** REST `clear`: remove every task. */
  method ClearTasks(db: Database) returns (r: Result<Reply, Failure>)
    requires db.Valid()
    modifies db`tasks
    ensures db.Valid()
    ensures db.tasks == [] && r == Ok(StatusOK)
  {
    db.DeleteAllTasks();
    r := Ok(StatusOK);
  }
}
