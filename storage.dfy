/**
 * The two tables behind Fluent's queries, as sequences in insertion order
 * with an auto-increment counter each, the queries the controllers run on
 * them, and the `Database` object whose `save()` and `delete()` change them.
 */
module Storage {
  import opened Wrappers
  import opened TaskModel
  import opened UserModel

  datatype Tables = Tables(users: seq<User>, tasks: seq<Task>, nextUserId: nat, nextTaskId: nat)

  /** The first id each table hands out. */
  const FirstId: nat := 1

  // ---------------------------------------------------------------------
  // Keys

  /** Every user has an id in [lo, hi), and the ids ascend in table order. */
  predicate UsersKeyed(us: seq<User>, lo: nat, hi: nat)
  {
    us == [] ||
    (us[0].id.Some? && lo <= us[0].id.value < hi && UsersKeyed(us[1..], us[0].id.value + 1, hi))
  }

  /** Every task has an id in [lo, hi), and the ids ascend in table order. */
  predicate TasksKeyed(ts: seq<Task>, lo: nat, hi: nat)
  {
    ts == [] ||
    (ts[0].id.Some? && lo <= ts[0].id.value < hi && TasksKeyed(ts[1..], ts[0].id.value + 1, hi))
  }

  /** No two users share a Slack user id. */
  predicate DistinctSlackIDs(us: seq<User>)
  {
    forall i, j :: 0 <= i < j < |us| ==> us[i].slackUserID != us[j].slackUserID
  }

  /**
   * What requests handled one at a time keep true: every row has an id
   * below its table's counter, no id is used twice, and no Slack user id
   * has two users.
   */
  predicate Consistent(db: Tables)
  {
    FirstId <= db.nextUserId && FirstId <= db.nextTaskId &&
    UsersKeyed(db.users, FirstId, db.nextUserId) &&
    TasksKeyed(db.tasks, FirstId, db.nextTaskId) &&
    DistinctSlackIDs(db.users)
  }

  lemma {:induction false} TasksKeyedAt(ts: seq<Task>, lo: nat, hi: nat, i: nat, j: nat)
    requires TasksKeyed(ts, lo, hi) && i < j < |ts|
    ensures ts[i].id.Some? && ts[j].id.Some?
    ensures lo <= ts[i].id.value < ts[j].id.value < hi
  {
    if i == 0 {
      if j > 1 {
        TasksKeyedAt(ts[1..], ts[0].id.value + 1, hi, 0, j - 1);
      }
    } else {
      TasksKeyedAt(ts[1..], ts[0].id.value + 1, hi, i - 1, j - 1);
    }
  }

  /** In a keyed task table, the rows are told apart by their ids. */
  lemma TasksKeyedUnique(ts: seq<Task>, lo: nat, hi: nat, i: nat, j: nat)
    requires TasksKeyed(ts, lo, hi) && i < |ts| && j < |ts| && ts[i].id == ts[j].id
    ensures i == j
  {
    if i < j {
      TasksKeyedAt(ts, lo, hi, i, j);
    } else if j < i {
      TasksKeyedAt(ts, lo, hi, j, i);
    }
  }

  /** Every row of a keyed table has an id no smaller than the lower bound. */
  lemma {:induction false} TasksKeyedAbove(ts: seq<Task>, lo: nat, hi: nat, t: Task)
    requires TasksKeyed(ts, lo, hi) && t in ts
    ensures t.id.Some? && lo <= t.id.value
  {
    if ts[0] != t {
      TasksKeyedAbove(ts[1..], ts[0].id.value + 1, hi, t);
    }
  }

  lemma {:induction false} UsersKeyedAppend(us: seq<User>, lo: nat, hi: nat, u: User)
    requires UsersKeyed(us, lo, hi) && lo <= hi && u.id == Some(hi)
    ensures UsersKeyed(us + [u], lo, hi + 1)
  {
    if us != [] {
      assert (us + [u])[1..] == us[1..] + [u];
      UsersKeyedAppend(us[1..], us[0].id.value + 1, hi, u);
    }
  }

  lemma {:induction false} UsersKeyedHaveIds(us: seq<User>, lo: nat, hi: nat, u: User)
    requires UsersKeyed(us, lo, hi) && u in us
    ensures u.id.Some? && lo <= u.id.value < hi
  {
    if us[0] != u {
      UsersKeyedHaveIds(us[1..], us[0].id.value + 1, hi, u);
    }
  }

  lemma {:induction false} TasksKeyedAppend(ts: seq<Task>, lo: nat, hi: nat, t: Task)
    requires TasksKeyed(ts, lo, hi) && lo <= hi && t.id == Some(hi)
    ensures TasksKeyed(ts + [t], lo, hi + 1)
  {
    if ts != [] {
      assert (ts + [t])[1..] == ts[1..] + [t];
      TasksKeyedAppend(ts[1..], ts[0].id.value + 1, hi, t);
    }
  }

  // ---------------------------------------------------------------------
  // The user table

  /**
   * `User.makeQuery().filter(slackUserID, .equals, id).first()`: the first
   * user, in table order, whose Slack user id is exactly `slackUserID`.
   */
  function FindUser(us: seq<User>, slackUserID: string): (r: Option<User>)
    ensures r.None? <==> forall u :: u in us ==> u.slackUserID != slackUserID
    ensures r.Some? ==> exists i :: 0 <= i < |us| && us[i] == r.value &&
                                   r.value.slackUserID == slackUserID &&
                                   forall j :: 0 <= j < i ==> us[j].slackUserID != slackUserID
  {
    if us == [] then None
    else if us[0].slackUserID == slackUserID then Some(us[0])
    else
      var r := FindUser(us[1..], slackUserID);
      assert forall u :: u in us ==> u == us[0] || u in us[1..];
      r
  }

  /** A user appended to a table that had none with its Slack user id is the one found. */
  lemma {:induction false} FindUserAppended(us: seq<User>, u: User)
    requires FindUser(us, u.slackUserID).None?
    ensures FindUser(us + [u], u.slackUserID) == Some(u)
  {
    if us != [] {
      assert (us + [u])[1..] == us[1..] + [u];
      FindUserAppended(us[1..], u);
    }
  }

  /**
   * `createUserIfNotExist()`: the stored user with the candidate's Slack
   * user id if there is one, with the tables unchanged; otherwise the
   * candidate saved under the next user id.
   */
  function LookupOrCreate(db: Tables, candidate: User): (r: (Tables, User))
    ensures r.1.slackUserID == candidate.slackUserID
    ensures r.0.tasks == db.tasks && r.0.nextTaskId == db.nextTaskId
  {
    match FindUser(db.users, candidate.slackUserID)
    case Some(u) => (db, u)
    case None =>
      var u := candidate.(id := Some(db.nextUserId));
      (db.(users := db.users + [u], nextUserId := db.nextUserId + 1), u)
  }

  /**
   * An existing user is returned as stored: the name and token of the new
   * payload do not refresh it, and no table changes.
   */
  lemma ExistingUserIsKept(db: Tables, candidate: User, existing: User)
    requires existing in db.users && existing.slackUserID == candidate.slackUserID
    ensures LookupOrCreate(db, candidate).0 == db
    ensures LookupOrCreate(db, candidate).1 in db.users
  {
  }

  /** With no user of that Slack id, the user table grows by exactly the returned user. */
  lemma AbsentUserIsCreated(db: Tables, candidate: User)
    requires forall u :: u in db.users ==> u.slackUserID != candidate.slackUserID
    ensures var (after, u) := LookupOrCreate(db, candidate);
            after.users == db.users + [u] && u == candidate.(id := Some(db.nextUserId))
  {
  }

  /**
   * Lookup-or-create keeps the tables consistent, returns a saved user,
   * and that user is the one a lookup by its Slack user id now finds.
   */
  lemma LookupOrCreateConsistent(db: Tables, candidate: User)
    requires Consistent(db)
    ensures var (after, u) := LookupOrCreate(db, candidate);
            Consistent(after) && u.id.Some? && u.id.value < after.nextUserId &&
            FindUser(after.users, candidate.slackUserID) == Some(u)
  {
    var (after, u) := LookupOrCreate(db, candidate);
    match FindUser(db.users, candidate.slackUserID)
    case Some(found) =>
      UsersKeyedHaveIds(db.users, FirstId, db.nextUserId, found);
    case None =>
      UsersKeyedAppend(db.users, FirstId, db.nextUserId, u);
      FindUserAppended(db.users, u);
      assert forall i :: 0 <= i < |db.users| ==> db.users[i] in db.users;
  }

  /**
   * Two lookups-or-creates in a row for the same Slack user id return the
   * same user and add at most one user between them.
   */
  lemma LookupOrCreateTwice(db: Tables, first: User, second: User)
    requires Consistent(db)
    requires first.slackUserID == second.slackUserID
    ensures var (mid, u1) := LookupOrCreate(db, first);
            var (after, u2) := LookupOrCreate(mid, second);
            after == mid && u2 == u1 && |after.users| <= |db.users| + 1
  {
    LookupOrCreateConsistent(db, first);
  }

  // ---------------------------------------------------------------------
  // The task table

  /** The rows of `ts` that `keep` accepts, in table order. */
  function Filter(ts: seq<Task>, keep: Task -> bool): (r: seq<Task>)
    ensures |r| <= |ts|
    ensures forall t :: t in r <==> t in ts && keep(t)
    ensures forall t :: multiset(r)[t] == if keep(t) then multiset(ts)[t] else 0
  {
    if ts == [] then []
    else
      var rest := Filter(ts[1..], keep);
      assert forall t :: t in ts <==> t == ts[0] || t in ts[1..];
      assert ts == [ts[0]] + ts[1..];
      assert multiset(ts) == multiset([ts[0]]) + multiset(ts[1..]);
      if keep(ts[0]) then [ts[0]] + rest else rest
  }

  /** A filter that accepts every row returns the table itself. */
  lemma {:induction false} FilterAll(ts: seq<Task>, keep: Task -> bool)
    requires forall t :: t in ts ==> keep(t)
    ensures Filter(ts, keep) == ts
  {
    if ts != [] {
      assert forall t :: t in ts[1..] ==> t in ts;
      FilterAll(ts[1..], keep);
    }
  }

  /** Two filters that agree on every row of the table select the same rows. */
  lemma {:induction false} FilterAgree(ts: seq<Task>, keep1: Task -> bool, keep2: Task -> bool)
    requires forall t :: t in ts ==> keep1(t) == keep2(t)
    ensures Filter(ts, keep1) == Filter(ts, keep2)
  {
    if ts != [] {
      assert forall t :: t in ts[1..] ==> t in ts;
      FilterAgree(ts[1..], keep1, keep2);
    }
  }

  /** Filtering twice with the same filter is filtering once. */
  lemma FilterIdempotent(ts: seq<Task>, keep: Task -> bool)
    ensures Filter(Filter(ts, keep), keep) == Filter(ts, keep)
  {
    FilterAll(Filter(ts, keep), keep);
  }

  /** A filter over two tables put end to end is the two filters end to end. */
  lemma {:induction false} FilterConcat(a: seq<Task>, b: seq<Task>, keep: Task -> bool)
    ensures Filter(a + b, keep) == Filter(a, keep) + Filter(b, keep)
  {
    if a == [] {
      assert a + b == b;
    } else {
      assert (a + b)[0] == a[0] && (a + b)[1..] == a[1..] + b;
      FilterConcat(a[1..], b, keep);
    }
  }

  /** Dropping rows keeps a task table keyed. */
  lemma {:induction false} FilterKeyed(ts: seq<Task>, keep: Task -> bool, lo: nat, hi: nat)
    requires TasksKeyed(ts, lo, hi)
    ensures TasksKeyed(Filter(ts, keep), lo, hi)
  {
    if ts != [] {
      var next := ts[0].id.value + 1;
      FilterKeyed(ts[1..], keep, next, hi);
      var rest := Filter(ts[1..], keep);
      if rest != [] {
        assert TasksKeyed(rest[1..], rest[0].id.value + 1, hi);
      }
    }
  }

  /** `Task.makeQuery().filter(creatorID, .equals, id).all()` */
  function TasksBy(ts: seq<Task>, creatorID: int): (r: seq<Task>)
    ensures |r| <= |ts|
    ensures forall t :: t in r <==> t in ts && t.creatorID == creatorID
    ensures forall t :: multiset(r)[t] == if t.creatorID == creatorID then multiset(ts)[t] else 0
  {
    Filter(ts, (t: Task) => t.creatorID == creatorID)
  }

  /**
   * Listing after appending one row lists what was listed before, then the
   * new row if it has that creator.
   */
  lemma TasksByAppend(ts: seq<Task>, t: Task, creatorID: int)
    ensures TasksBy(ts + [t], creatorID) == TasksBy(ts, creatorID) + (if t.creatorID == creatorID then [t] else [])
  {
    FilterConcat(ts, [t], (t: Task) => t.creatorID == creatorID);
  }

  /** A creator with no row lists nothing. */
  lemma {:induction false} TasksByNone(ts: seq<Task>, creatorID: int)
    requires forall t :: t in ts ==> t.creatorID != creatorID
    ensures TasksBy(ts, creatorID) == []
  {
    if ts != [] {
      assert ts[0] in ts && forall t :: t in ts[1..] ==> t in ts;
      TasksByNone(ts[1..], creatorID);
    }
  }

  /** The row that the slash-command `delete` selects: this creator and this id. */
  predicate Matches(t: Task, creatorID: int, taskID: int)
  {
    t.creatorID == creatorID && t.id.Some? && t.id.value == taskID
  }

  /** The query `filter(creatorID, .equals, c).filter(id, .equals, k).all()`. */
  function TasksMatching(ts: seq<Task>, creatorID: int, taskID: int): (r: seq<Task>)
    ensures |r| <= |ts|
    ensures forall t :: t in r <==> t in ts && Matches(t, creatorID, taskID)
  {
    Filter(ts, (t: Task) => Matches(t, creatorID, taskID))
  }

  /** The table after deleting every row the query above selects. */
  function RemoveMatching(ts: seq<Task>, creatorID: int, taskID: int): (r: seq<Task>)
    ensures |r| <= |ts|
    ensures forall t :: t in r <==> t in ts && !Matches(t, creatorID, taskID)
  {
    Filter(ts, (t: Task) => !Matches(t, creatorID, taskID))
  }

  /** `task.delete()`: the table without the row of this id. */
  function RemoveById(ts: seq<Task>, id: nat): (r: seq<Task>)
    ensures |r| <= |ts|
    ensures forall t :: t in r <==> t in ts && t.id != Some(id)
  {
    Filter(ts, (t: Task) => t.id != Some(id))
  }

  /** Deleting by the same id twice is deleting once. */
  lemma RemoveByIdTwice(ts: seq<Task>, id: nat)
    ensures RemoveById(RemoveById(ts, id), id) == RemoveById(ts, id)
  {
    FilterIdempotent(ts, (t: Task) => t.id != Some(id));
  }

  /**
   * Deleting the selected rows removes exactly the rows of that creator and
   * id; every other row stays, in order.
   */
  lemma RemoveMatchingSpec(ts: seq<Task>, creatorID: int, taskID: int)
    ensures forall t :: t in RemoveMatching(ts, creatorID, taskID) <==> t in ts && !Matches(t, creatorID, taskID)
    ensures RemoveMatching(RemoveMatching(ts, creatorID, taskID), creatorID, taskID) == RemoveMatching(ts, creatorID, taskID)
  {
    FilterIdempotent(ts, (t: Task) => !Matches(t, creatorID, taskID));
  }

  /** Deleting the selected rows keeps the tables consistent. */
  lemma RemoveMatchingConsistent(db: Tables, creatorID: int, taskID: int)
    requires Consistent(db)
    ensures Consistent(db.(tasks := RemoveMatching(db.tasks, creatorID, taskID)))
  {
    FilterKeyed(db.tasks, (t: Task) => !Matches(t, creatorID, taskID), FirstId, db.nextTaskId);
  }

  /** When no row matches, deleting the selection changes nothing. */
  lemma RemoveMatchingNothing(ts: seq<Task>, creatorID: int, taskID: int)
    requires TasksMatching(ts, creatorID, taskID) == []
    ensures RemoveMatching(ts, creatorID, taskID) == ts
  {
    FilterAll(ts, (t: Task) => !Matches(t, creatorID, taskID));
  }

  /**
   * In a keyed table, deleting by id the row that matches creator and id is
   * deleting the whole selection: no other row has that id.
   */
  lemma RemoveByIdOfMatch(ts: seq<Task>, lo: nat, hi: nat, creatorID: int, taskID: nat)
    requires TasksKeyed(ts, lo, hi)
    requires exists m :: m in ts && Matches(m, creatorID, taskID)
    ensures RemoveById(ts, taskID) == RemoveMatching(ts, creatorID, taskID)
  {
    var m :| m in ts && Matches(m, creatorID, taskID);
    forall t | t in ts
      ensures (t.id != Some(taskID)) == !Matches(t, creatorID, taskID)
    {
      if t.id == Some(taskID) {
        var i :| 0 <= i < |ts| && ts[i] == t;
        var j :| 0 <= j < |ts| && ts[j] == m;
        TasksKeyedUnique(ts, lo, hi, i, j);
      }
    }
    FilterAgree(ts, (t: Task) => t.id != Some(taskID), (t: Task) => !Matches(t, creatorID, taskID));
  }

  /**
   * A saved task appended under the next task id; this is `save()` of a task
   * that has no id yet.
   */
  function InsertTask(db: Tables, t: Task): (r: (Tables, Task))
    ensures r.1 == t.(id := Some(db.nextTaskId))
    ensures r.0.users == db.users && r.0.nextUserId == db.nextUserId
  {
    var saved := t.(id := Some(db.nextTaskId));
    (db.(tasks := db.tasks + [saved], nextTaskId := db.nextTaskId + 1), saved)
  }

  lemma InsertTaskConsistent(db: Tables, t: Task)
    requires Consistent(db)
    ensures Consistent(InsertTask(db, t).0)
    ensures InsertTask(db, t).0.tasks == db.tasks + [InsertTask(db, t).1]
  {
    TasksKeyedAppend(db.tasks, FirstId, db.nextTaskId, InsertTask(db, t).1);
  }

  /** `Task.find(id)`: the row with this id. */
  function FindTask(ts: seq<Task>, id: nat): (r: Option<Task>)
    ensures r.None? <==> forall t :: t in ts ==> t.id != Some(id)
    ensures r.Some? ==> r.value in ts && r.value.id == Some(id)
  {
    if ts == [] then None
    else if ts[0].id == Some(id) then Some(ts[0])
    else
      var r := FindTask(ts[1..], id);
      assert forall t :: t in ts <==> t == ts[0] || t in ts[1..];
      r
  }

  /**
   * `save()` of a task that already has an id: the row with that id is
   * overwritten, every other row stays as it was, and no row is added.
   */
  function PutTask(ts: seq<Task>, t: Task): (r: seq<Task>)
    ensures |r| == |ts|
    ensures forall i :: 0 <= i < |ts| ==> r[i] == if ts[i].id == t.id then t else ts[i]
  {
    if ts == [] then []
    else [if ts[0].id == t.id then t else ts[0]] + PutTask(ts[1..], t)
  }

  /** Overwriting a row with a task of the same id keeps the table keyed. */
  lemma {:induction false} PutTaskKeyed(ts: seq<Task>, t: Task, lo: nat, hi: nat)
    requires TasksKeyed(ts, lo, hi)
    ensures TasksKeyed(PutTask(ts, t), lo, hi)
  {
    if ts != [] {
      PutTaskKeyed(ts[1..], t, ts[0].id.value + 1, hi);
      assert PutTask(ts, t)[1..] == PutTask(ts[1..], t);
    }
  }

  // ---------------------------------------------------------------------
  // The database object

  /** The database the models are saved to and deleted from. */
  class Database {
    var users: seq<User>
    var tasks: seq<Task>
    var nextUserId: nat
    var nextTaskId: nat

    function State(): Tables
      reads this
    {
      Tables(users, tasks, nextUserId, nextTaskId)
    }

    ghost predicate Valid()
      reads this
    {
      Consistent(State())
    }

    /** Two empty tables. */
    constructor ()
      ensures Valid()
      ensures users == [] && tasks == [] && nextUserId == FirstId && nextTaskId == FirstId
    {
      users, tasks := [], [];
      nextUserId, nextTaskId := FirstId, FirstId;
    }

    /**
     * `createUserIfNotExist()`: look the candidate's Slack user id up, and
     * save the candidate if no user has it.
     */
    method CreateUserIfNotExist(candidate: User) returns (u: User)
      requires Valid()
      modifies this
      ensures Valid()
      ensures (State(), u) == LookupOrCreate(old(State()), candidate)
      ensures u.id.Some?
    {
      LookupOrCreateConsistent(State(), candidate);
      var found := FindUser(users, candidate.slackUserID);
      if found.Some? {
        u := found.value;
      } else {
        u := candidate.(id := Some(nextUserId));
        users := users + [u];
        nextUserId := nextUserId + 1;
      }
    }

    /** `save()` of a new task: it gets the next task id. */
    method SaveNewTask(t: Task) returns (saved: Task)
      requires Valid()
      modifies this
      ensures Valid()
      ensures (State(), saved) == InsertTask(old(State()), t)
    {
      InsertTaskConsistent(State(), t);
      saved := t.(id := Some(nextTaskId));
      tasks := tasks + [saved];
      nextTaskId := nextTaskId + 1;
    }

    /** `save()` of a task that was loaded from the table. */
    method SaveExistingTask(t: Task)
      requires Valid()
      modifies this`tasks
      ensures Valid()
      ensures tasks == PutTask(old(tasks), t)
    {
      PutTaskKeyed(tasks, t, FirstId, nextTaskId);
      tasks := PutTask(tasks, t);
    }

    /** `delete()` of the task with this id. */
    method DeleteTaskRow(id: nat)
      requires Valid()
      modifies this`tasks
      ensures Valid()
      ensures tasks == RemoveById(old(tasks), id)
    {
      FilterKeyed(tasks, (t: Task) => t.id != Some(id), FirstId, nextTaskId);
      tasks := RemoveById(tasks, id);
    }

    /** `Task.makeQuery().delete()`: every task row goes. */
    method DeleteAllTasks()
      requires Valid()
      modifies this`tasks
      ensures Valid()
      ensures tasks == []
    {
      tasks := [];
    }
  }
}
