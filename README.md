# Slack task assistant: a Dafny model

lumos-backend is a Vapor server behind a Slack slash command. A payload from
Slack has a `text` such as `add buy milk` or `list`. The server classifies the
first word of that text into a sub-command. It cuts the argument out of the
text, and it then lists, adds or deletes tasks in a table of tasks. Each task
belongs to a local user, who is looked up by Slack user id or created on
first contact. A REST resource over the same task table offers show, store,
update, replace, delete and clear.

This project models that core in Dafny:

- `wrappers.dfy`: `Option` and `Result`.
- `fields.dfy`: what a row or a JSON object holds (`Node`), the typed getters
  the initialisers call, and `String.int`, taken to be Swift's `Int(String)`.
- `slack_helper.dfy`: the `SlackSlashCommand` payload and its JSON. It also
  holds the sub-command classifier (`subCommand`), the argument extraction
  (`content`), and `SlackUser`.
- `task.dfy`: `TaskStatus` and `Task`, with their row and JSON forms and the
  one updateable key.
- `user.dfy`: `User`, its seeding from a Slack identity, and its row and
  JSON forms.
- `storage.dfy`: the two tables as sequences in insertion order, each with an
  auto-increment counter. It holds the Fluent queries the controller runs as
  filters over them, and the invariant `Consistent` that the handlers keep:
  ids ascend and lie below the counter, and no two users share a Slack user
  id. The class `Database` holds the tables. Its methods are
  `createUserIfNotExist`, `save()` of a new task, `save()` of a loaded task,
  `delete()` of a task, and the query delete that clears the table.
- `task_controller.dfy`: the handlers. Each one that changes the tables is
  a method on a `Database`. It is proved to produce the tables and the reply
  that a function of the previous tables gives (`AddStep`, `DeleteStep`,
  `Receive`). The lemmas state what the handlers promise in terms of those
  functions.

Timestamps (`Date()`) are a parameter `now`. They are copied into records and
never computed.

## Model

| member | source | states |
|---|---|---|
| Fields.ParseInt | Sources/App/Controllers/TaskController.swift:71 | `String.int` gives an integer exactly when what follows an optional `+` or `-` is one or more decimal digits whose signed value fits 64 bits, and then it gives that value; "", "-", "+", "+a" and "1a" give none |
| Fields.GetString | Sources/App/Models/TaskAssistant/Task.swift:52-53 | a missing key fails as missing, a value that is not a string fails as the wrong type, and otherwise the string stored there is read |
| Fields.GetInt | Sources/App/Models/TaskAssistant/Task.swift:54 | a missing key fails as missing; a number reads as itself and a string reads as `Int(String)` parses it; anything else fails as the wrong type |
| Fields.GetDate | Sources/App/Models/TaskAssistant/Task.swift:55-56 | a missing key fails as missing, a value that is not a date fails as the wrong type, and otherwise the date stored there is read |
| Fields.ParseShowInt | Sources/App/Controllers/TaskController.swift:71 | every 64-bit integer written in decimal reads back as itself |
| SlackHelper.FirstMissing | Sources/App/Helpers/SlackHelper.swift:80-96 | there is no missing key exactly when every required key is present; otherwise the result is the first missing key in the order the initialiser reads them |
| SlackHelper.DecodeSlashCommand | Sources/App/Helpers/SlackHelper.swift:80-96 | decoding succeeds exactly when token, user_id, user_name, command, text and response_url are all present. A failure names the first one missing. The six are copied, and each of the seven other keys, trigger_id included, gives its value or "" when absent |
| SlackHelper.EncodeSlashCommand | Sources/App/Helpers/SlackHelper.swift:98-114 | decoding the payload's JSON gives back the payload with all 13 fields |
| SlackHelper.DecodeSlackUser | Sources/App/Helpers/SlackHelper.swift:178-184 | a SlackUser decodes exactly when token, user_id and user_name are all present |
| SlackHelper.EncodeSlackUser | Sources/App/Helpers/SlackHelper.swift:186-192 | the JSON has exactly the three keys, and decoding it gives the identity back |
| SlackHelper.SlackUserOf | Sources/App/Helpers/SlackHelper.swift:154-156 | `slackUser()` is the identity that the payload's JSON decodes to as a SlackUser: token, user id and user name |
| SlackHelper.Components | Sources/App/Helpers/SlackHelper.swift:117 | the split has at least one piece and no piece contains a separator. The first piece is the text's prefix up to the first separator, or the whole text |
| SlackHelper.LowerAscii | Sources/App/Helpers/SlackHelper.swift:125 | lower-casing keeps the length and leaves no letter A–Z: each becomes the letter 32 code points on, and every other character is kept |
| SlackHelper.SubCommandOf | Sources/App/Helpers/SlackHelper.swift:116-135 | a sub-command other than `unknown` is chosen only when the text begins with its keyword, in any case, followed by a separator or the end |
| SlackHelper.SubCommandIff | Sources/App/Helpers/SlackHelper.swift:116-135 | the text gives list/add/assign exactly when it begins with that keyword in any letter case, followed by a separator or the end of the text |
| SlackHelper.FirstComponentOfKeyword | Sources/App/Helpers/SlackHelper.swift:117-123 | for a text that begins with a keyword and a separator, the first piece of the split is exactly the keyword's span |
| SlackHelper.OtherWordIsUnknown | Sources/App/Helpers/SlackHelper.swift:132-133 | a text that begins with none of the three keywords is `unknown` |
| SlackHelper.LeadingBlankIsUnknown | Sources/App/Helpers/SlackHelper.swift:117-134 | empty text and text starting with a separator are `unknown`, since their first piece is "" |
| SlackHelper.SubCommandIgnoresCase | Sources/App/Helpers/SlackHelper.swift:125 | two texts that are equal up to letter case get the same sub-command |
| SlackHelper.DeleteIsUnknown | Sources/App/Helpers/SlackHelper.swift:17-19 | there is no delete sub-command: text beginning with "delete" in any case is `unknown` |
| SlackHelper.TrimLeft | Sources/App/Helpers/SlackHelper.swift:151 | the result is a suffix of the input, all that was cut is trim characters (space, tab, line feed, carriage return), and it does not start with one |
| SlackHelper.TrimRight | Sources/App/Helpers/SlackHelper.swift:151 | the result is a prefix of the input, all that was cut is trim characters (space, tab, line feed, carriage return), and it does not end with one |
| SlackHelper.Trim | Sources/App/Helpers/SlackHelper.swift:151 | `trim()` gives a slice of the input with none of the trim characters (space, tab, line feed, carriage return) at either end, and everything cut off is one of them |
| SlackHelper.TrimIdempotent | Sources/App/Helpers/SlackHelper.swift:151 | trimming twice is trimming once |
| SlackHelper.ContentOf | Sources/App/Helpers/SlackHelper.swift:137-152 | `content` has none of the trim characters (space, tab, line feed, carriage return) at either end. For list/add/assign it is the trimmed text after the keyword, because each offset equals its keyword's length; for `unknown` it is the whole text trimmed |
| SlackHelper.KeywordThenRest | Sources/App/Helpers/SlackHelper.swift:116-152 | a keyword followed by nothing, or by a separator and anything, selects that sub-command, and its content is the rest trimmed |
| SlackHelper.KeywordSpaceArgument | Sources/App/Helpers/SlackHelper.swift:137-152 | a keyword, one space and an argument without trim characters (space, tab, line feed, carriage return) at its ends give exactly that argument as content |
| SlackHelper.AddExample | Sources/App/Helpers/SlackHelper.swift:137-152 | "add buy milk" is `add` with content "buy milk" |
| SlackHelper.ListExample | Sources/App/Helpers/SlackHelper.swift:137-152 | "list" is `list` with empty content |
| SlackHelper.AssignExample | Sources/App/Helpers/SlackHelper.swift:137-152 | "assign 3 bob" is `assign` with content "3 bob" |
| SlackHelper.CaseExample | Sources/App/Helpers/SlackHelper.swift:125-127 | "LIST" and "List" are both `list` |
| SlackHelper.DeleteExample | Sources/App/Helpers/SlackHelper.swift:125-152 | "delete 3" is `unknown`, and its content is the whole text |
| SlackHelper.DeleteThenArgument | Sources/App/Helpers/SlackHelper.swift:116-152 | "delete", a space and any argument not ending in a trim character is `unknown`; offset 0 makes the content the whole text, which `String.int` does not read as an integer |
| TaskModel.RawValue | Sources/App/Models/TaskAssistant/Task.swift:5-6 | each status's raw value is its case name: "ToDo", "InProgress" or "Done", one per status |
| TaskModel.StatusFromRaw | Sources/App/Models/TaskAssistant/Task.swift:8-15 | the status parser is total. A status's raw value gives that status, and any other string gives `ToDo` |
| TaskModel.StatusRoundTrip | Sources/App/Models/TaskAssistant/Task.swift:5-16 | every status reads back from its raw value |
| TaskModel.StatusIsCaseSensitive | Sources/App/Models/TaskAssistant/Task.swift:9-13 | "done" is not a raw value and gives `ToDo` |
| TaskModel.NewTask | Sources/App/Models/TaskAssistant/Task.swift:39-45 | a new task has no id, the given content, status and creator, both timestamps now, and is exactly what its own row reads back as |
| TaskModel.TaskRow | Sources/App/Models/TaskAssistant/Task.swift:60-68 | the row has the five columns, and reading it back gives content, status, creator id and both timestamps unchanged |
| TaskModel.TaskFromRow | Sources/App/Models/TaskAssistant/Task.swift:51-57 | reading a row succeeds exactly when all five columns read as their types, and it gives no id |
| TaskModel.TaskFromJson | Sources/App/Models/TaskAssistant/Task.swift:93-99 | decoding succeeds exactly when content, status and creator_id read. The task has the given content, the parsed status and the creator id that creator_id reads as (a number, or a string `Int(String)` accepts), no id, and both timestamps set to now |
| TaskModel.UnknownStatusIsToDo | Sources/App/Models/TaskAssistant/Task.swift:93-99 | an unrecognised status string does not fail decoding; it gives `ToDo` |
| TaskModel.TaskJson | Sources/App/Models/TaskAssistant/Task.swift:101-110 | the JSON has the id and the five fields as keys; the id is the saved id or null, and created and last_modified are the task's timestamps |
| TaskModel.JsonRoundTrip | Sources/App/Models/TaskAssistant/Task.swift:93-110 | decoding a task's JSON keeps content, status and creator. It drops the id, and the timestamps become the decoding time |
| TaskModel.ApplyUpdate | Sources/App/Models/TaskAssistant/Task.swift:124-131 | the only updateable key replaces `content` when the request has a string there. Every other field is unchanged |
| UserModel.UserFromSlack | Sources/App/Models/TaskAssistant/User.swift:38-40 | a new user carries the Slack identity field for field (user id, name, token), has no id, and is stamped now |
| UserModel.UserRow | Sources/App/Models/TaskAssistant/User.swift:55-63 | the row has the five columns, and reading it back gives all five stored fields |
| UserModel.UserFromRecord | Sources/App/Models/TaskAssistant/User.swift:46-52 | reading a row or JSON succeeds exactly when all five fields read as their types, and it gives no id |
| UserModel.UserJson | Sources/App/Models/TaskAssistant/User.swift:110-119 | the JSON has the id and the five fields as keys; the id is the saved id or null, and decoding gives the user without its id |
| Storage.FindUser | Sources/App/Models/TaskAssistant/User.swift:68-70 | the query finds nothing exactly when no user has that Slack user id; otherwise it finds the first one in table order |
| Storage.FindUserAppended | Sources/App/Models/TaskAssistant/User.swift:74-77 | after appending a user whose Slack id no one had, the query finds that user |
| Storage.LookupOrCreate | Sources/App/Models/TaskAssistant/User.swift:67-78 | the user returned has the candidate's Slack user id, and the task table is untouched |
| Storage.ExistingUserIsKept | Sources/App/Models/TaskAssistant/User.swift:68-72 | an existing user is returned as stored, name and token not refreshed, and no table changes |
| Storage.AbsentUserIsCreated | Sources/App/Models/TaskAssistant/User.swift:74-77 | with no such user, the user table grows by exactly the returned user, which is the candidate under the next id |
| Storage.LookupOrCreateConsistent | Sources/App/Models/TaskAssistant/User.swift:67-78 | lookup-or-create keeps the tables consistent. It returns a saved user, which a lookup by its Slack user id now finds |
| Storage.LookupOrCreateTwice | Sources/App/Models/TaskAssistant/User.swift:67-78 | two lookups-or-creates for the same Slack user id return the same user and add at most one user |
| Storage.Database.CreateUserIfNotExist | Sources/App/Models/TaskAssistant/User.swift:67-78 | the method changes the tables and returns the user as lookup-or-create does; the tables stay consistent and the user has an id |
| Storage.Database.constructor | Sources/App/Models/TaskAssistant/Task.swift:74-84 | the prepared database starts with two empty tables whose counters start at the first id, and is consistent |
| Storage.Filter | Sources/App/Controllers/TaskController.swift:39 | a query's result holds exactly the rows of the table that the condition accepts, each as many times as the table holds it, and is no longer than the table |
| Storage.FilterIdempotent | Sources/App/Controllers/TaskController.swift:75-78 | running a query on its own result changes nothing |
| Storage.TasksBy | Sources/App/Controllers/TaskController.swift:39 | listing by creator holds exactly the rows with that creator id, each as many times as the table holds it, and is no longer than the table |
| Storage.TasksMatching | Sources/App/Controllers/TaskController.swift:75-78 | the delete query holds exactly the rows with that creator id and that id |
| Storage.RemoveMatching | Sources/App/Controllers/TaskController.swift:80-82 | deleting the query's rows keeps exactly the rows that do not have both that creator id and that id |
| Storage.RemoveById | Sources/App/Controllers/TaskController.swift:118 | `task.delete()` keeps exactly the rows with another id |
| Storage.TasksByAppend | Sources/App/Controllers/TaskController.swift:39 | after one row is appended, listing by creator gives what it gave before, then the new row if it has that creator |
| Storage.RemoveMatchingSpec | Sources/App/Controllers/TaskController.swift:75-82 | deleting the selected rows removes exactly the rows of that creator and id and keeps all others; doing it again changes nothing |
| Storage.RemoveMatchingNothing | Sources/App/Controllers/TaskController.swift:75-82 | when nothing matches, the table is unchanged |
| Storage.RemoveByIdOfMatch | Sources/App/Controllers/TaskController.swift:75-82 | in a consistent table, deleting by id the row that matches creator and id removes exactly the selection, because ids are unique |
| Storage.InsertTask | Sources/App/Controllers/TaskController.swift:56 | saving a new task gives it the next id and leaves the user table untouched |
| Storage.InsertTaskConsistent | Sources/App/Controllers/TaskController.swift:56 | saving a new task appends exactly that task and keeps the tables consistent |
| Storage.Database.SaveNewTask | Sources/App/Controllers/TaskController.swift:56 | the method saves as `InsertTask` does and keeps the tables consistent |
| Storage.FindTask | Sources/App/Controllers/TaskController.swift:111-113 | finding by id fails exactly when no row has that id; otherwise it gives a row of the table with that id |
| Storage.PutTask | Sources/App/Controllers/TaskController.swift:136 | saving a loaded task overwrites the row with its id and leaves every other row as it was; no row is added |
| Storage.Database.SaveExistingTask | Sources/App/Controllers/TaskController.swift:136 | the method saves as `PutTask` does and keeps the tables consistent |
| Storage.Database.DeleteTaskRow | Sources/App/Controllers/TaskController.swift:118 | the method deletes the row with that id and keeps the tables consistent |
| Storage.Database.DeleteAllTasks | Sources/App/Controllers/TaskController.swift:125 | the method empties the task table and keeps the tables consistent |
| TaskController.GetTasks | Sources/App/Controllers/TaskController.swift:32-45 | listing fails with `generic` exactly when no user has the Slack user id. Otherwise it answers with attachments for exactly the tasks whose creator id is that user's id, one attachment per listed row |
| TaskController.AssignTask | Sources/App/Controllers/TaskController.swift:87-89 | `assignTask` always fails with `generic` |
| TaskController.AddStep | Sources/App/Controllers/TaskController.swift:47-62 | `addTask` either appends exactly one task after the existing ones and succeeds, or fails with `invalidCreator` and adds none |
| TaskController.AddAs | Sources/App/Controllers/TaskController.swift:50-61 | with no user id it fails with `invalidCreator` and changes nothing; otherwise it appends one `ToDo` task with the content and that creator, leaving users alone |
| TaskController.DeleteStep | Sources/App/Controllers/TaskController.swift:64-85 | `deleteTask` never adds a task; success answers "Deleted"; failure is `invalidCreator` and removes nothing, and a content that is no integer always fails |
| TaskController.DeleteAs | Sources/App/Controllers/TaskController.swift:67-84 | with no user id or no task id it fails with `invalidCreator` and changes nothing; otherwise it keeps users and counters, keeps exactly the tasks that do not match, and answers "Deleted" |
| TaskController.DeleteTextNeverDeletes | Sources/App/Controllers/TaskController.swift:64-73 | `deleteTask` on "delete" and a number fails with `invalidCreator` and removes nothing, because the content keeps the word "delete" |
| TaskController.Receive | Sources/App/Controllers/TaskController.swift:11-29 | no form body answers "EMPTY"; an undecodable payload fails with its decoding error and changes nothing; in every case the receiver at most appends one task and never removes one |
| TaskController.AddTaskSpec | Sources/App/Controllers/TaskController.swift:47-62 | adding appends exactly one `ToDo` task, with the payload's content and owned by the user the Slack id now finds. That user gets the next user id when the Slack id was new. It answers with that task's attachment and keeps the tables consistent |
| TaskController.AddAsSpec | Sources/App/Controllers/TaskController.swift:54-61 | once the user is known, adding appends exactly one `ToDo` task with the given content and that user as creator, leaves the users alone, and answers with the task's attachment |
| TaskController.AddThenList | Sources/App/Controllers/TaskController.swift:32-62 | a new Slack user who adds a task and then lists gets exactly that task, when no stored task already names the new user's id as creator |
| TaskController.ListAfterAppend | Sources/App/Controllers/TaskController.swift:32-45 | listing right after one task was appended for the user the lookup finds gives just that task, when no earlier task has that creator |
| TaskController.ListUnknownUserFails | Sources/App/Controllers/TaskController.swift:18-20 | a list request from an unknown Slack user fails with `generic` and changes no table |
| TaskController.DeleteNonNumeric | Sources/App/Controllers/TaskController.swift:64-73 | a non-integer content fails with `invalidCreator` and removes no task, but the user lookup-or-create has already happened |
| TaskController.DeleteTaskSpec | Sources/App/Controllers/TaskController.swift:64-85 | an integer content removes exactly that user's tasks with that id and keeps all others. It answers "Deleted" whether or not anything matched |
| TaskController.DeleteAsSpec | Sources/App/Controllers/TaskController.swift:75-84 | once the user and id are known, deleting keeps the users, drops exactly the matching tasks, keeps the tables consistent and answers "Deleted" |
| TaskController.DeleteTwice | Sources/App/Controllers/TaskController.swift:64-85 | repeating a delete changes nothing and gives the same answer |
| TaskController.ReceiveDeleteEchoes | Sources/App/Controllers/TaskController.swift:18-28 | a text starting with "delete" is not dispatched to `deleteTask`: the form fields are echoed and nothing changes |
| TaskController.ReceiveRoutes | Sources/App/Controllers/TaskController.swift:18-26 | for a decoded payload, `list` answers as `getTasks` and changes nothing, `add` changes the tables and answers as `addTask`, and `assign` fails with `generic` and changes nothing |
| TaskController.ReceiveOtherWordEchoes | Sources/App/Controllers/TaskController.swift:27-28 | a decoded payload whose text begins with none of the three keywords is echoed back as its form fields, and nothing changes |
| TaskController.ReceiveChangesOnlyForAdd | Sources/App/Controllers/TaskController.swift:11-29 | without a form body the answer is "EMPTY". No tables change unless the payload decodes and its sub-command is `add` |
| TaskController.ShowTask | Sources/App/Controllers/TaskController.swift:111-113 | `show` succeeds exactly when some task has the id, whoever created it, and answers with that task |
| TaskController.DestroyRemovesOne | Sources/App/Controllers/TaskController.swift:117-120 | deleting an existing task by id removes exactly one row, and keeps every row with another id |
| TaskController.ContentChangeOnlyTouchesTarget | Sources/App/Controllers/TaskController.swift:131-155 | saving a loaded task with new content changes only that row's content; every other row stays as it was |
| TaskController.DeleteMatches | Sources/App/Controllers/TaskController.swift:75-82 | querying the rows of that creator and id, then deleting each by its id, leaves exactly the table without those rows |
| TaskController.AddTask | Sources/App/Controllers/TaskController.swift:47-62 | the handler changes the tables and answers as `AddStep` says, keeping them consistent |
| TaskController.DeleteTask | Sources/App/Controllers/TaskController.swift:64-85 | the handler changes the tables and answers as `DeleteStep` says, keeping them consistent |
| TaskController.DeleteFor | Sources/App/Controllers/TaskController.swift:71-84 | once the user is known, the handler fails with `invalidCreator` on a non-integer content and otherwise deletes as `DeleteAs` says, keeping the tables consistent |
| TaskController.SlackReceiver | Sources/App/Controllers/TaskController.swift:11-29 | the receiver changes the tables and answers as `Receive` says, keeping them consistent |
| TaskController.StoreTask | Sources/App/Controllers/TaskController.swift:103-107 | without a form body, `store` fails with a bad request; a body that does not decode fails with the decoding error. Neither changes anything. Otherwise the decoded task is saved under the next id and returned |
| TaskController.UpdateTask | Sources/App/Controllers/TaskController.swift:131-138 | `update` fails with not found when no task has the id. Otherwise it applies the updateable key to that task, saves it and returns it. There is no owner check |
| TaskController.ReplaceTask | Sources/App/Controllers/TaskController.swift:143-155 | `replace` fails on a missing task, a missing body or an undecodable body, changing nothing. Otherwise it copies only the new content onto the task and saves it. There is no owner check |
| TaskController.DestroyTask | Sources/App/Controllers/TaskController.swift:117-120 | `delete` fails with not found when no task has the id. Otherwise it removes that row. There is no owner check |
| TaskController.ClearTasks | Sources/App/Controllers/TaskController.swift:124-127 | `clear` empties the task table |

## Left out

- Vapor's HTTP layer is left out: routing, form-URL decoding into JSON, the JSON encoder, and `Response`. A form body is a `map<string, string>` that may be absent. A reply is a value of `Reply`, and a thrown error is a value of `Failure`.
- Fluent's query builder, drivers, `Preparation` and `revert` are left out. The schema code is commented out in the source. The tables are sequences with one counter each, and the queries are filters over them.
- `makeSlackAttachment` is not part of this model. An attachment is an opaque function of its task.
- `Date()` is the parameter `now`. Serialising a date is a `Stamp` node and is not modelled further.
- The `print` logging in `createUserIfNotExist` is left out.
- UserController.swift and Routes.swift are not part of this model.
- Concurrency is left out. Requests are handled one at a time, so the race between two requests that both create the same Slack user is not modelled.
- REST `index` is left out. It returns the whole task table as JSON, so there is nothing to state beyond the table itself.
- The REST routes' parsing of the id in the path is left out. The verbs take the id as a natural number, and a missing task is `NotFound`.
- The `user.id?.int` guards in `addTask` and `deleteTask` cannot fail, because a saved user always has an id. The specification functions keep the guards as branches. The methods rely on `CreateUserIfNotExist` proving that the id is present.
- The dispatcher's `.delete` case is left out. `SlackSubCommand` has no `delete` case, so that branch names a case the enumeration does not declare and can never be taken. The classifier is modelled as written, so `Receive` never reaches `deleteTask`. `DeleteTask` is modelled as a handler that can be called directly, but even then a text such as "delete 3" fails with `invalidCreator`: it classifies as `unknown`, whose offset 0 leaves the whole text as content, and "delete 3" is no integer (`DeleteTextNeverDeletes`).
- trigger_id defaults to "" when absent, as the initialiser does. It is not treated as required.
- SlackHelper.Trim: `trim()` is an extension that is not part of this model. It is taken to remove spaces, tabs, line feeds and carriage returns from both ends.
- SlackHelper.LowerAscii: `lowercased()` is modelled for the ASCII letters only. Every other character is kept. No keyword can be produced by lowering a non-ASCII character, except through U+212A (KELVIN SIGN), which no keyword contains.
- SlackHelper.ContentOf: Swift indexes `encodedOffset` in UTF-16 code units. The model indexes Dafny characters. The two agree on every text whose first word is a keyword, because the keywords are ASCII.
- Fields.ParseInt: the `String.int` extension is not part of this model. It is taken to be Swift's `Int(String)`: an optional sign, decimal digits only, and a 64-bit range.
- Fields.GetInt: a number stored in a row reads as an integer, and a string reads through `Int(String)`. Other conversions that Node performs, such as from a double or a bool, are left out.
- Fields.GetString: only a stored string reads as a `String`. Node's conversion of a number or a bool to a string is left out, so such a value fails as the wrong type.
