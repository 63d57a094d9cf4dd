/**
 * The Task entity: its status enumeration, its database row and JSON
 * forms, and the one key a request may update.
 */
module TaskModel {
  import opened Wrappers
  import opened Fields

  datatype TaskStatus = ToDo | InProgress | Done

  /** The status's raw string, its case name; no two statuses share one. */
  function RawValue(s: TaskStatus): (r: string)
    ensures (r == "ToDo") == (s == ToDo)
    ensures (r == "InProgress") == (s == InProgress)
    ensures (r == "Done") == (s == Done)
  {
    match s
    case ToDo => "ToDo"
    case InProgress => "InProgress"
    case Done => "Done"
  }

  /**
   * `TaskStatus(rawValue:)`: total. A raw value of some status gives that
   * status (the match is exact, letter case included); every other string
   * gives `ToDo`.
   */
  function StatusFromRaw(raw: string): (s: TaskStatus)
    ensures (exists t :: RawValue(t) == raw) ==> RawValue(s) == raw
    ensures (forall t :: RawValue(t) != raw) ==> s == ToDo
  {
    if raw == "ToDo" then ToDo
    else if raw == "InProgress" then InProgress
    else if raw == "Done" then Done
    else ToDo
  }

  /** Every status reads back from its raw value. */
  lemma StatusRoundTrip(s: TaskStatus)
    ensures StatusFromRaw(RawValue(s)) == s
  {
    assert RawValue(StatusFromRaw(RawValue(s))) == RawValue(s);
  }

  /** A differently cased name is not a raw value: "done" is `ToDo`. */
  lemma StatusIsCaseSensitive(raw: string)
    requires raw == "done"
    ensures StatusFromRaw(raw) == ToDo
  {
    assert raw[0] == 'd';
  }

  /** A stored or decoded task. `id` is set once the task is saved. */
  datatype Task = Task(
    id: Option<nat>,
    content: string,
    status: TaskStatus,
    creatorID: int,
    created: Date,
    lastModified: Date)

  /**
   * `Task(content:status:creatorID:)`: a task not yet saved, whose
   * timestamps are both the current time `now`.
   */
  function NewTask(content: string, status: TaskStatus, creatorID: int, now: Date): (t: Task)
    ensures t.id.None? && t.content == content && t.status == status && t.creatorID == creatorID
    ensures t.created == now && t.lastModified == now
    ensures TaskFromRow(TaskRow(t)) == Ok(t)
  {
    Task(None, content, status, creatorID, now, now)
  }

  const IdKey := "id"
  const ContentKey := "content"
  const StatusKey := "status"
  const CreatorIDKey := "creator_id"
  const CreatedKey := "created"
  const LastModifiedKey := "last_modified"

  /** `makeRow()`: the five stored columns; the id is Fluent's, not the row's. */
  function TaskRow(t: Task): (row: Record)
    ensures row.Keys == {ContentKey, StatusKey, CreatorIDKey, CreatedKey, LastModifiedKey}
    ensures TaskFromRow(row) == Ok(t.(id := None))
  {
    StatusRoundTrip(t.status);
    map[ContentKey := Str(t.content), StatusKey := Str(RawValue(t.status)),
        CreatorIDKey := Num(t.creatorID), CreatedKey := Stamp(t.created),
        LastModifiedKey := Stamp(t.lastModified)]
  }

  /**
   * `init(row:)`: reads content, status, creator id and both timestamps,
   * failing on the first one that is missing or of the wrong kind.
   */
  function TaskFromRow(row: Record): (r: Result<Task, FieldError>)
    ensures r.Ok? ==> r.value.id.None?
    ensures r.Ok? <==> GetString(row, ContentKey).Ok? && GetString(row, StatusKey).Ok? &&
                       GetInt(row, CreatorIDKey).Ok? && GetDate(row, CreatedKey).Ok? &&
                       GetDate(row, LastModifiedKey).Ok?
  {
    match GetString(row, ContentKey)
    case Err(e) => Err(e)
    case Ok(content) =>
      match GetString(row, StatusKey)
      case Err(e) => Err(e)
      case Ok(raw) =>
        match GetInt(row, CreatorIDKey)
        case Err(e) => Err(e)
        case Ok(creatorID) =>
          match GetDate(row, CreatedKey)
          case Err(e) => Err(e)
          case Ok(created) =>
            match GetDate(row, LastModifiedKey)
            case Err(e) => Err(e)
            case Ok(lastModified) =>
              Ok(Task(None, content, StatusFromRaw(raw), creatorID, created, lastModified))
  }

  /**
   * `Task(json:)`: content, status and creator_id are required; a status
   * string that names no status gives `ToDo`; the timestamps are `now`.
   */
  function TaskFromJson(json: Record, now: Date): (r: Result<Task, FieldError>)
    ensures r.Ok? <==> GetString(json, ContentKey).Ok? && GetString(json, StatusKey).Ok? &&
                       GetInt(json, CreatorIDKey).Ok?
    ensures r.Ok? ==> r.value.id.None? && r.value.created == now && r.value.lastModified == now
    ensures r.Ok? ==> r.value.content == json[ContentKey].s &&
                      r.value.status == StatusFromRaw(json[StatusKey].s)
    ensures r.Ok? ==> r.value.creatorID == GetInt(json, CreatorIDKey).value
  {
    match GetString(json, ContentKey)
    case Err(e) => Err(e)
    case Ok(content) =>
      match GetString(json, StatusKey)
      case Err(e) => Err(e)
      case Ok(raw) =>
        match GetInt(json, CreatorIDKey)
        case Err(e) => Err(e)
        case Ok(creatorID) => Ok(NewTask(content, StatusFromRaw(raw), creatorID, now))
  }

  /** An unrecognised status string in the JSON does not fail decoding: it gives `ToDo`. */
  lemma {:induction false} UnknownStatusIsToDo(json: Record, now: Date)
    requires GetString(json, ContentKey).Ok? && GetInt(json, CreatorIDKey).Ok?
    requires StatusKey in json && json[StatusKey].Str?
    requires forall t :: RawValue(t) != json[StatusKey].s
    ensures TaskFromJson(json, now).Ok? && TaskFromJson(json, now).value.status == ToDo
  {
  }

  /** `makeJSON()`: the id (null before saving) and the five fields. */
  function TaskJson(t: Task): (json: Record)
    ensures json.Keys == {IdKey, ContentKey, StatusKey, CreatorIDKey, CreatedKey, LastModifiedKey}
    ensures json[IdKey] == (if t.id.Some? then Num(t.id.value) else Null)
    ensures json[CreatedKey] == Stamp(t.created) && json[LastModifiedKey] == Stamp(t.lastModified)
  {
    map[IdKey := (if t.id.Some? then Num(t.id.value) else Null),
        ContentKey := Str(t.content), StatusKey := Str(RawValue(t.status)),
        CreatorIDKey := Num(t.creatorID), CreatedKey := Stamp(t.created),
        LastModifiedKey := Stamp(t.lastModified)]
  }

  /**
   * Decoding a task's JSON keeps content, status and creator, but not the
   * id, and both timestamps become the decoding time.
   */
  lemma JsonRoundTrip(t: Task, now: Date)
    ensures TaskFromJson(TaskJson(t), now) == Ok(t.(id := None, created := now, lastModified := now))
  {
    StatusRoundTrip(t.status);
  }

  /**
   * The `Updateable` key: when the request holds a string under "content",
   * the setter replaces the task's content; nothing else ever changes.
   */
  function ApplyUpdate(t: Task, body: Record): (r: Task)
    ensures r == t.(content := r.content)
    ensures r.content == (if ContentKey in body && body[ContentKey].Str? then body[ContentKey].s else t.content)
  {
    match GetString(body, ContentKey)
    case Ok(content) => t.(content := content)
    case Err(_) => t
  }
}
