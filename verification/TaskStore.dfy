/** The on-device store used when the remote API cannot be reached: a
    directory of users, the signed-in user, and per user three lists (the
    active tasks, the archive, called "trash" by the app, and the persisted
    reminder list). Every list operation reads the whole list, changes it,
    and writes it back under the signed-in user's email. */
module TaskStore {
  import opened JsValues
  import opened Text
  import opened Lists
  import opened Reminders

  /** The result objects `{success: true, task}`, `{success: true}`,
      `{success: true, message}` and `{success: false, error}`. */
  datatype Payload = Nothing | One(item: Record) | Note(message: string)
  datatype Reply = Success(payload: Payload) | Failure(error: string)

  // ---------------------------------------------------------------------
  // Task identity

  /** `t.id === taskId || t.id === parseInt(taskId)`. Only a task with an
      `id` field can match; a string or number id matches itself. */
  predicate IdMatches(t: Record, taskId: Value)
    ensures IdMatches(t, taskId) ==> "id" in t
    ensures Get(t, "id") == Some(taskId) && (taskId.Str? || taskId.Num?) ==> IdMatches(t, taskId)
  {
    var id := Get(t, "id");
    StrictEq(id, Some(taskId)) || (id.Some? && id.value.Num? && ParseInt(taskId) == Some(id.value.n))
  }

  /** A task whose id is a number is found both by that number and by its
      decimal text, which is what the `parseInt` half of the test is for. */
  lemma IdMatchesDecimal(t: Record, n: nat)
    requires Get(t, "id") == Some(Num(n))
    ensures IdMatches(t, Num(n))
    ensures IdMatches(t, Str(Decimal(n)))
  {
    ParseDecimal(n);
  }

  function ById(taskId: Value): Record -> bool {
    t => IdMatches(t, taskId)
  }

  /** `tasks.findIndex(...)` with the id test above. */
  function TaskIndex(tasks: seq<Record>, taskId: Value): Option<nat> {
    FirstMatch(tasks, ById(taskId))
  }

  /** The task createTaskLocal stores: the given fields, then an `id` made
      from the clock and a `created_at` stamp (both override given ones). */
  function NewTask(task: Record, now: nat, createdAt: string): Record {
    Spread(task, map["id" := Str(Decimal(now)), "created_at" := Str(createdAt)])
  }

  /** The copy archiveTaskLocal moves to the archive. */
  function ArchivedCopy(t: Record, archivedAt: string): Record {
    Spread(t, map["archived" := Bool(true), "archived_at" := Str(archivedAt)])
  }

  /** The copy restoreTaskLocal moves back: the two archive fields deleted. */
  function RestoredCopy(t: Record): Record {
    t - {"archived", "archived_at"}
  }

  /** Two locally created tasks get the same id exactly when they were
      created in the same millisecond. */
  lemma NewTaskIdsDistinct(a: Record, m: nat, x: string, b: Record, n: nat, y: string)
    ensures Get(NewTask(a, m, x), "id") == Get(NewTask(b, n, y), "id") <==> m == n
  {
    if Get(NewTask(a, m, x), "id") == Get(NewTask(b, n, y), "id") {
      DecimalInjective(m, n);
    }
  }

  /** A new task answers to its id string, but not to the clock value as a
      number (a string id is never `===` a number); when no earlier task
      answers to that string the lookup finds the new task at the end. */
  lemma {:induction false} NewTaskAddressable(active: seq<Record>, task: Record, now: nat, createdAt: string)
    requires TaskIndex(active, Str(Decimal(now))).None?
    ensures IdMatches(NewTask(task, now, createdAt), Str(Decimal(now)))
    ensures !IdMatches(NewTask(task, now, createdAt), Num(now))
    ensures TaskIndex(active + [NewTask(task, now, createdAt)], Str(Decimal(now))) == Some(|active|)
  {
    var t := NewTask(task, now, createdAt);
    assert Get(t, "id") == Some(Str(Decimal(now)));
    assert ById(Str(Decimal(now)))(t);
    FirstMatchAppend(active, t, ById(Str(Decimal(now))));
  }

  // ---------------------------------------------------------------------
  // The active/archive transitions, as functions of the two lists

  datatype Bins = Bins(active: seq<Record>, trash: seq<Record>)
  datatype Step = Step(bins: Bins, reply: Reply)

  /** createTaskLocal: append the new task. */
  function CreateStep(b: Bins, task: Record, now: nat, createdAt: string): (s: Step)
    ensures s.reply == Success(One(NewTask(task, now, createdAt)))
    ensures s.bins.active == b.active + [NewTask(task, now, createdAt)] && s.bins.trash == b.trash
  {
    var t := NewTask(task, now, createdAt);
    Step(Bins(b.active + [t], b.trash), Success(One(t)))
  }

  /** updateTaskLocal: merge `updates` over the first task with the id. */
  function UpdateStep(b: Bins, taskId: Value, updates: Record): (s: Step)
    ensures TaskIndex(b.active, taskId).None? ==> s == Step(b, Failure("Task not found"))
    ensures TaskIndex(b.active, taskId).Some? ==>
      var i := TaskIndex(b.active, taskId).value;
      && s.reply == Success(One(Spread(b.active[i], updates)))
      && |s.bins.active| == |b.active| && s.bins.trash == b.trash
      && s.bins.active[i] == Spread(b.active[i], updates)
      && forall j :: 0 <= j < |b.active| && j != i ==> s.bins.active[j] == b.active[j]
  {
    match TaskIndex(b.active, taskId)
    case None => Step(b, Failure("Task not found"))
    case Some(i) =>
      var t := Spread(b.active[i], updates);
      Step(Bins(b.active[i := t], b.trash), Success(One(t)))
  }

  /** deleteTaskLocal: remove the first active task with the id. Only the
      active list is searched. */
  function DeleteStep(b: Bins, taskId: Value): (s: Step)
    ensures TaskIndex(b.active, taskId).None? ==> s == Step(b, Failure("Task not found"))
    ensures TaskIndex(b.active, taskId).Some? ==>
      var i := TaskIndex(b.active, taskId).value;
      && s.reply == Success(Nothing)
      && s.bins.active == RemoveAt(b.active, i) && s.bins.trash == b.trash
      && multiset(s.bins.active) + multiset{b.active[i]} == multiset(b.active)
  {
    match TaskIndex(b.active, taskId)
    case None => Step(b, Failure("Task not found"))
    case Some(i) => Step(Bins(RemoveAt(b.active, i), b.trash), Success(Nothing))
  }

  /** archiveTaskLocal: move the first active task with the id to the end
      of the archive, marked as archived. No task is lost or duplicated. */
  function ArchiveStep(b: Bins, taskId: Value, archivedAt: string): (s: Step)
    ensures TaskIndex(b.active, taskId).None? ==> s == Step(b, Failure("Task not found"))
    ensures TaskIndex(b.active, taskId).Some? ==>
      var i := TaskIndex(b.active, taskId).value;
      var moved := ArchivedCopy(b.active[i], archivedAt);
      && s.reply == Success(One(moved))
      && s.bins.active == RemoveAt(b.active, i)
      && s.bins.trash == b.trash + [moved]
      && |s.bins.active| + |s.bins.trash| == |b.active| + |b.trash|
      && Get(moved, "archived") == Some(Bool(true))
      && Get(moved, "archived_at") == Some(Str(archivedAt))
  {
    match TaskIndex(b.active, taskId)
    case None => Step(b, Failure("Task not found"))
    case Some(i) =>
      var moved := ArchivedCopy(b.active[i], archivedAt);
      Step(Bins(RemoveAt(b.active, i), b.trash + [moved]), Success(One(moved)))
  }

  /** restoreTaskLocal: move the first archived task with the id to the end
      of the active list, without its archive fields. */
  function RestoreStep(b: Bins, taskId: Value): (s: Step)
    ensures TaskIndex(b.trash, taskId).None? ==> s == Step(b, Failure("Task not found in archive"))
    ensures TaskIndex(b.trash, taskId).Some? ==>
      var i := TaskIndex(b.trash, taskId).value;
      var back := RestoredCopy(b.trash[i]);
      && s.reply == Success(One(back))
      && s.bins.active == b.active + [back]
      && s.bins.trash == RemoveAt(b.trash, i)
      && |s.bins.active| + |s.bins.trash| == |b.active| + |b.trash|
      && "archived" !in back && "archived_at" !in back
  {
    match TaskIndex(b.trash, taskId)
    case None => Step(b, Failure("Task not found in archive"))
    case Some(i) =>
      var back := RestoredCopy(b.trash[i]);
      Step(Bins(b.active + [back], RemoveAt(b.trash, i)), Success(One(back)))
  }

  /** Restoring what was just archived gives back the original task, with
      every field it had, at the end of the active list, and leaves the
      archive as it was, provided the task carried no archive fields of
      its own and no earlier archive entry answers to the same id. */
  lemma {:induction false} ArchiveThenRestore(b: Bins, taskId: Value, archivedAt: string)
    requires TaskIndex(b.active, taskId).Some?
    requires TaskIndex(b.trash, taskId).None?
    requires var t := b.active[TaskIndex(b.active, taskId).value]; "archived" !in t && "archived_at" !in t
    ensures var i := TaskIndex(b.active, taskId).value;
      RestoreStep(ArchiveStep(b, taskId, archivedAt).bins, taskId) ==
        Step(Bins(RemoveAt(b.active, i) + [b.active[i]], b.trash), Success(One(b.active[i])))
  {
    var i := TaskIndex(b.active, taskId).value;
    var t := b.active[i];
    var moved := ArchivedCopy(t, archivedAt);
    var a := ArchiveStep(b, taskId, archivedAt).bins;
    assert a.trash == b.trash + [moved];
    assert Get(moved, "id") == Get(t, "id");
    assert ById(taskId)(t);
    assert ById(taskId)(moved);
    FirstMatchAppend(b.trash, moved, ById(taskId));
    assert TaskIndex(a.trash, taskId) == Some(|b.trash|);
    assert RestoredCopy(moved) == t;
    assert RemoveAt(a.trash, |b.trash|) == b.trash;
  }

  /** Deleting from the archive page goes through deleteTaskLocal, which
      searches only the active list: a task that is only in the archive is
      reported missing and stays in the archive. */
  lemma ArchivedTaskCannotBeDeleted(b: Bins, taskId: Value)
    requires TaskIndex(b.active, taskId).None?
    requires TaskIndex(b.trash, taskId).Some?
    ensures DeleteStep(b, taskId) == Step(b, Failure("Task not found"))
    ensures b.trash[TaskIndex(b.trash, taskId).value] in DeleteStep(b, taskId).bins.trash
  {
  }

  /** A concrete case: one archived task with id "1", nothing active. */
  lemma ArchivedTaskCannotBeDeletedExample()
    ensures var t := map["id" := Str("1")];
      DeleteStep(Bins([], [t]), Str("1")) == Step(Bins([], [t]), Failure("Task not found"))
  {
  }

  /** Permanent deletion as the archive page means it: remove the first
      archived task with the id from the archive. */
  function PurgeStep(b: Bins, taskId: Value): (s: Step)
    ensures TaskIndex(b.trash, taskId).None? ==> s == Step(b, Failure("Task not found in archive"))
    ensures TaskIndex(b.trash, taskId).Some? ==>
      var i := TaskIndex(b.trash, taskId).value;
      && s.reply == Success(Nothing)
      && s.bins.active == b.active
      && s.bins.trash == RemoveAt(b.trash, i)
  {
    match TaskIndex(b.trash, taskId)
    case None => Step(b, Failure("Task not found in archive"))
    case Some(i) => Step(Bins(b.active, RemoveAt(b.trash, i)), Success(Nothing))
  }

  /** Archiving a task and then purging it removes it from both lists and
      leaves everything else as it was. */
  lemma {:induction false} ArchiveThenPurge(b: Bins, taskId: Value, archivedAt: string)
    requires TaskIndex(b.active, taskId).Some?
    requires TaskIndex(b.trash, taskId).None?
    ensures var i := TaskIndex(b.active, taskId).value;
      PurgeStep(ArchiveStep(b, taskId, archivedAt).bins, taskId) ==
        Step(Bins(RemoveAt(b.active, i), b.trash), Success(Nothing))
  {
    var i := TaskIndex(b.active, taskId).value;
    var moved := ArchivedCopy(b.active[i], archivedAt);
    var a := ArchiveStep(b, taskId, archivedAt).bins;
    assert Get(moved, "id") == Get(b.active[i], "id");
    assert ById(taskId)(b.active[i]);
    assert ById(taskId)(moved);
    FirstMatchAppend(b.trash, moved, ById(taskId));
    assert RemoveAt(a.trash, |b.trash|) == b.trash;
  }

  // ---------------------------------------------------------------------
  // Users

  /** `user.email === email` */
  function ByEmail(email: Option<Value>): Record -> bool {
    u => StrictEq(Get(u, "email"), email)
  }

  function UserIndex(users: seq<Record>, email: Option<Value>): Option<nat> {
    FirstMatch(users, ByEmail(email))
  }

  /** findUserByEmail: the first user whose email is exactly `email`. */
  function FindUser(users: seq<Record>, email: Option<Value>): (r: Option<Record>)
    ensures r.Some? <==> exists j :: 0 <= j < |users| && StrictEq(Get(users[j], "email"), email)
    ensures r.Some? ==> StrictEq(Get(r.value, "email"), email)
    ensures r.Some? ==>
      exists j :: (0 <= j < |users| && users[j] == r.value &&
                   forall k :: 0 <= k < j ==> !StrictEq(Get(users[k], "email"), email))
  {
    match UserIndex(users, email)
    case None =>
      assert forall j :: 0 <= j < |users| ==> !ByEmail(email)(users[j]);
      None
    case Some(i) =>
      assert ByEmail(email)(users[i]);
      Some(users[i])
  }

  /** The record registerUserLocal stores. */
  function NewUser(userData: Record, now: nat, createdAt: string): Record {
    Spread(userData, map["id" := Str(Decimal(now)), "createdAt" := Str(createdAt),
                         "hasSeenTutorial" := Bool(false)])
  }

  /** loginUserLocal's answer: the email is lower-cased, then looked up;
      the stored password must be identical. */
  function LoginReply(users: seq<Record>, email: string, password: Value): (r: Reply)
    ensures r == Failure("User not found") <==> FindUser(users, Some(Str(Lower(email)))).None?
    ensures r.Success? <==>
      var u := FindUser(users, Some(Str(Lower(email))));
      u.Some? && StrictEq(Get(u.value, "pass"), Some(password))
    ensures r.Success? ==> r == Success(One(FindUser(users, Some(Str(Lower(email)))).value))
    ensures r.Failure? ==> r.error in {"User not found", "Invalid password"}
  {
    match FindUser(users, Some(Str(Lower(email))))
    case None => Failure("User not found")
    case Some(u) =>
      if !StrictEq(Get(u, "pass"), Some(password)) then Failure("Invalid password")
      else Success(One(u))
  }

  /** updateUserLocal's effect on the directory. */
  function UsersAfterUpdate(users: seq<Record>, email: Option<Value>, updated: Record): (r: seq<Record>)
    ensures |r| == |users|
    ensures UserIndex(users, email).None? ==> r == users
    ensures UserIndex(users, email).Some? ==>
      var i := UserIndex(users, email).value;
      && r[i] == Spread(users[i], updated)
      && forall j :: 0 <= j < |users| && j != i ==> r[j] == users[j]
  {
    match UserIndex(users, email)
    case None => users
    case Some(i) => users[i := Spread(users[i], updated)]
  }

  /** A user registered locally (with an email not yet in the directory
      and already lower-case) can then log in locally with the same
      password. */
  lemma {:induction false} RegisterThenLogin(users: seq<Record>, userData: Record, now: nat, createdAt: string, email: string, pass: string)
    requires Get(userData, "email") == Some(Str(email)) && Lower(email) == email
    requires Get(userData, "pass") == Some(Str(pass))
    requires UserIndex(users, Some(Str(email))).None?
    ensures LoginReply(users + [NewUser(userData, now, createdAt)], email, Str(pass)) ==
      Success(One(NewUser(userData, now, createdAt)))
  {
    var u := NewUser(userData, now, createdAt);
    assert Get(u, "email") == Some(Str(email));
    assert Get(u, "pass") == Some(Str(pass));
    assert ByEmail(Some(Str(email)))(u);
    FirstMatchAppend(users, u, ByEmail(Some(Str(email))));
    assert UserIndex(users + [u], Some(Str(email))) == Some(|users|);
  }

  /** After a successful local password change, logging in with the new
      password succeeds: the record is found at the same place and carries
      the new password. */
  lemma {:induction false} ChangedPasswordLogsIn(users: seq<Record>, user: Record, email: string, newPass: string)
    requires Get(user, "email") == Some(Str(email)) && Lower(email) == email
    requires UserIndex(users, Some(Str(email))).Some?
    ensures var updated := user["pass" := Str(newPass)];
      LoginReply(UsersAfterUpdate(users, Some(Str(email)), updated), email, Str(newPass)).Success?
  {
    var updated := user["pass" := Str(newPass)];
    var i := UserIndex(users, Some(Str(email))).value;
    var after := UsersAfterUpdate(users, Some(Str(email)), updated);
    var p := ByEmail(Some(Str(email)));
    assert Get(after[i], "email") == Some(Str(email));
    assert Get(after[i], "pass") == Some(Str(newPass));
    assert p(after[i]);
    assert forall j :: 0 <= j < i ==> after[j] == users[j] && !p(after[j]);
    FirstMatchIsFirst(after, p, i);
  }

  // ---------------------------------------------------------------------
  // Storage

  /** The storage key suffix of a user: its email, when it is a non-empty
      string (the task, archive and reminder getters read nothing for a
      user without one). */
  function OwnerOf(u: Option<Record>): (r: Option<string>)
    ensures r.Some? ==> u.Some? && Get(u.value, "email") == Some(Str(r.value)) && r.value != ""
    ensures u.None? || !Truthy(Get(u.value, "email")) ==> r.None?
    ensures u.Some? && Truthy(Get(u.value, "email")) && Get(u.value, "email").value.Str? ==> r.Some?
  {
    if u.Some? then KeyOf(Get(u.value, "email")) else None
  }

  /** The storage key suffix an email value gives: the email itself when
      it is a non-empty string. */
  function KeyOf(email: Option<Value>): (r: Option<string>)
    ensures r.Some? ==> email == Some(Str(r.value)) && r.value != ""
    ensures email.Some? && email.value.Str? && Truthy(email) ==> r.Some?
  {
    if email.Some? && email.value.Str? && email.value.s != "" then Some(email.value.s) else None
  }

  /** Reading a per-user list: an absent key or no owner reads as []. */
  function Lookup<T>(m: map<string, seq<T>>, owner: Option<string>): seq<T> {
    if owner.Some? && owner.value in m then m[owner.value] else []
  }

  /** Writing a per-user list: nothing is written without an owner. */
  function Put<T>(m: map<string, seq<T>>, owner: Option<string>, xs: seq<T>): (r: map<string, seq<T>>)
    ensures owner.None? ==> r == m
    ensures r.Keys == m.Keys + (if owner.Some? then {owner.value} else {})
    ensures owner.Some? ==> Lookup(r, owner) == xs
    ensures forall k :: k in m && (owner.None? || k != owner.value) ==> r[k] == m[k]
  {
    if owner.Some? then m[owner.value := xs] else m
  }

  /** initUserData's effect on one of the three list maps: an empty list
      under the key, unless one is already stored there. */
  function WithEmptyList<T>(m: map<string, seq<T>>, key: Option<string>): (r: map<string, seq<T>>)
    ensures r.Keys == m.Keys + (if key.Some? then {key.value} else {})
    ensures forall k :: k in m ==> r[k] == m[k]
    ensures key.Some? ==> Lookup(r, key) == Lookup(m, key)
  {
    if key.Some? && key.value !in m then m[key.value := []] else m
  }

  /** Everything the app keeps on the device for the task and user store. */
  class LocalStore {
    var users: seq<Record>
    var currentUser: Option<Record>
    var taskLists: map<string, seq<Record>>
    var trashLists: map<string, seq<Record>>
    var reminderLists: map<string, seq<ReminderEntry>>

    constructor ()
      ensures users == [] && currentUser.None?
      ensures taskLists == map[] && trashLists == map[] && reminderLists == map[]
    {
      users := [];
      currentUser := None;
      taskLists := map[];
      trashLists := map[];
      reminderLists := map[];
    }

    function Owner(): Option<string>
      reads this
    {
      OwnerOf(currentUser)
    }

    /** getUserTasks: the signed-in user's stored list; [] without a user
        with an email, or when nothing is stored for it. */
    function ActiveTasks(): (r: seq<Record>)
      reads this
      ensures currentUser.None? || !Truthy(Get(currentUser.value, "email")) ==> r == []
      ensures Owner().Some? && Owner().value in taskLists ==> r == taskLists[Owner().value]
      ensures r != [] ==> Owner().Some? && Owner().value in taskLists
    {
      Lookup(taskLists, Owner())
    }

    /** getUserTrash */
    function Trash(): (r: seq<Record>)
      reads this
      ensures currentUser.None? || !Truthy(Get(currentUser.value, "email")) ==> r == []
      ensures Owner().Some? && Owner().value in trashLists ==> r == trashLists[Owner().value]
      ensures r != [] ==> Owner().Some? && Owner().value in trashLists
    {
      Lookup(trashLists, Owner())
    }

    /** getUserReminders */
    function SavedReminders(): (r: seq<ReminderEntry>)
      reads this
      ensures currentUser.None? || !Truthy(Get(currentUser.value, "email")) ==> r == []
      ensures Owner().Some? && Owner().value in reminderLists ==> r == reminderLists[Owner().value]
      ensures r != [] ==> Owner().Some? && Owner().value in reminderLists
    {
      Lookup(reminderLists, Owner())
    }

    function CurrentBins(): Bins
      reads this
    {
      Bins(ActiveTasks(), Trash())
    }

    /** saveUserTasks: a read right after a write sees the write. */
    method SaveUserTasks(tasks: seq<Record>)
      modifies this`taskLists
      ensures taskLists == Put(old(taskLists), Owner(), tasks)
      ensures Owner().Some? ==> ActiveTasks() == tasks
    {
      if Owner().Some? {
        taskLists := taskLists[Owner().value := tasks];
      }
    }

    /** saveUserTrash */
    method SaveUserTrash(trash: seq<Record>)
      modifies this`trashLists
      ensures trashLists == Put(old(trashLists), Owner(), trash)
      ensures Owner().Some? ==> Trash() == trash
    {
      if Owner().Some? {
        trashLists := trashLists[Owner().value := trash];
      }
    }

    /** saveUserReminders */
    method SaveUserReminders(reminders: seq<ReminderEntry>)
      modifies this`reminderLists
      ensures reminderLists == Put(old(reminderLists), Owner(), reminders)
    {
      if Owner().Some? {
        reminderLists := reminderLists[Owner().value := reminders];
      }
    }

    /** createTaskLocal. Without a signed-in owner the new task is
        reported as created but is not written anywhere. */
    method CreateTaskLocal(task: Record, now: nat, createdAt: string) returns (r: Reply)
      modifies this`taskLists
      ensures var s := CreateStep(old(CurrentBins()), task, now, createdAt);
        r == s.reply && taskLists == Put(old(taskLists), Owner(), s.bins.active)
    {
      var tasks := ActiveTasks();
      var newTask := NewTask(task, now, createdAt);
      tasks := tasks + [newTask];
      SaveUserTasks(tasks);
      r := Success(One(newTask));
    }

    /** updateTaskLocal */
    method UpdateTaskLocal(taskId: Value, updates: Record) returns (r: Reply)
      modifies this`taskLists
      ensures var s := UpdateStep(old(CurrentBins()), taskId, updates);
        r == s.reply && taskLists == (if r.Failure? then old(taskLists) else Put(old(taskLists), Owner(), s.bins.active))
    {
      var tasks := ActiveTasks();
      var index := FindIndex(tasks, ById(taskId));
      if index == -1 {
        return Failure("Task not found");
      }
      tasks := tasks[index := Spread(tasks[index], updates)];
      SaveUserTasks(tasks);
      r := Success(One(tasks[index]));
    }

    /** deleteTaskLocal */
    method DeleteTaskLocal(taskId: Value) returns (r: Reply)
      modifies this`taskLists
      ensures var s := DeleteStep(old(CurrentBins()), taskId);
        r == s.reply && taskLists == (if r.Failure? then old(taskLists) else Put(old(taskLists), Owner(), s.bins.active))
    {
      var tasks := ActiveTasks();
      var index := FindIndex(tasks, ById(taskId));
      if index == -1 {
        return Failure("Task not found");
      }
      tasks := RemoveAt(tasks, index);
      SaveUserTasks(tasks);
      r := Success(Nothing);
    }

    /** archiveTaskLocal */
    method ArchiveTaskLocal(taskId: Value, archivedAt: string) returns (r: Reply)
      modifies this`taskLists, this`trashLists
      ensures var s := ArchiveStep(old(CurrentBins()), taskId, archivedAt);
        && r == s.reply
        && taskLists == (if r.Failure? then old(taskLists) else Put(old(taskLists), Owner(), s.bins.active))
        && trashLists == (if r.Failure? then old(trashLists) else Put(old(trashLists), Owner(), s.bins.trash))
    {
      var tasks := ActiveTasks();
      var index := FindIndex(tasks, ById(taskId));
      if index == -1 {
        return Failure("Task not found");
      }
      var taskToArchive := ArchivedCopy(tasks[index], archivedAt);
      var trash := Trash();
      trash := trash + [taskToArchive];
      SaveUserTrash(trash);
      tasks := RemoveAt(tasks, index);
      SaveUserTasks(tasks);
      r := Success(One(taskToArchive));
    }

    /** restoreTaskLocal */
    method RestoreTaskLocal(taskId: Value) returns (r: Reply)
      modifies this`taskLists, this`trashLists
      ensures var s := RestoreStep(old(CurrentBins()), taskId);
        && r == s.reply
        && taskLists == (if r.Failure? then old(taskLists) else Put(old(taskLists), Owner(), s.bins.active))
        && trashLists == (if r.Failure? then old(trashLists) else Put(old(trashLists), Owner(), s.bins.trash))
    {
      var trash := Trash();
      var index := FindIndex(trash, ById(taskId));
      if index == -1 {
        return Failure("Task not found in archive");
      }
      var taskToRestore := RestoredCopy(trash[index]);
      var tasks := ActiveTasks();
      tasks := tasks + [taskToRestore];
      SaveUserTasks(tasks);
      trash := RemoveAt(trash, index);
      SaveUserTrash(trash);
      r := Success(One(taskToRestore));
    }

    /** persistReminders: rebuild the saved reminder list from the active
        tasks, one entry per task with a truthy reminder instant. */
    method PersistReminders()
      modifies this`reminderLists
      ensures reminderLists == Put(old(reminderLists), Owner(), Derived(ActiveTasks()))
    {
      var tasks := ActiveTasks();
      var rems: seq<ReminderEntry> := [];
      var i := 0;
      while i < |tasks|
        invariant 0 <= i <= |tasks|
        invariant rems == Derived(tasks[..i])
        invariant reminderLists == old(reminderLists)
      {
        DerivedStep(tasks, i);
        var t := tasks[i];
        var at := ReminderAtOf(t);
        if at.Some? {
          rems := rems + [ReminderEntry(i, Get(t, "title"), at.value)];
        }
        i := i + 1;
      }
      assert tasks[..i] == tasks;
      assert rems == Derived(ActiveTasks());
      SaveUserReminders(rems);
    }

    /** initUserData: create the empty per-user lists when absent. */
    method InitUserData(email: Option<Value>)
      modifies this`taskLists, this`trashLists, this`reminderLists
      ensures taskLists == WithEmptyList(old(taskLists), KeyOf(email))
      ensures trashLists == WithEmptyList(old(trashLists), KeyOf(email))
      ensures reminderLists == WithEmptyList(old(reminderLists), KeyOf(email))
    {
      if email.Some? && email.value.Str? && email.value.s != "" {
        var key := email.value.s;
        if key !in taskLists { taskLists := taskLists[key := []]; }
        if key !in trashLists { trashLists := trashLists[key := []]; }
        if key !in reminderLists { reminderLists := reminderLists[key := []]; }
      }
    }

    /** saveUser: append to the directory, sign the user in, create the
        user's lists. */
    method SaveUser(user: Record)
      modifies this
      ensures users == old(users) + [user]
      ensures currentUser == Some(user)
      ensures taskLists == WithEmptyList(old(taskLists), Owner())
      ensures trashLists == WithEmptyList(old(trashLists), Owner())
      ensures reminderLists == WithEmptyList(old(reminderLists), Owner())
    {
      users := users + [user];
      currentUser := Some(user);
      InitUserData(Get(user, "email"));
    }

    /** findUserByEmail: a stored user with exactly that email, or none
        when no stored user has it. */
    function FindUserByEmail(email: Option<Value>): (r: Option<Record>)
      reads this
      ensures r.Some? ==> r.value in users && StrictEq(Get(r.value, "email"), email)
      ensures r.None? ==> forall j :: 0 <= j < |users| ==> !StrictEq(Get(users[j], "email"), email)
    {
      FindUser(users, email)
    }

    /** registerUserLocal: refuse an email already in the directory,
        otherwise store and sign in the new user. */
    method RegisterUserLocal(userData: Record, now: nat, createdAt: string) returns (r: Reply)
      modifies this
      ensures old(FindUser(users, Get(userData, "email"))).Some? ==>
        r == Failure("User already exists") && users == old(users) && currentUser == old(currentUser)
        && taskLists == old(taskLists) && trashLists == old(trashLists) && reminderLists == old(reminderLists)
      ensures old(FindUser(users, Get(userData, "email"))).None? ==>
        var u := NewUser(userData, now, createdAt);
        && r == Success(One(u)) && users == old(users) + [u] && currentUser == Some(u)
        && taskLists == WithEmptyList(old(taskLists), OwnerOf(Some(u)))
        && trashLists == WithEmptyList(old(trashLists), OwnerOf(Some(u)))
        && reminderLists == WithEmptyList(old(reminderLists), OwnerOf(Some(u)))
    {
      if FindUserByEmail(Get(userData, "email")).Some? {
        return Failure("User already exists");
      }
      var user := NewUser(userData, now, createdAt);
      SaveUser(user);
      r := Success(One(user));
    }

    /** loginUserLocal: on success the found user becomes the current user. */
    method LoginUserLocal(email: string, password: Value) returns (r: Reply)
      modifies this`currentUser
      ensures r == LoginReply(users, email, password)
      ensures currentUser == if r.Success? then Some(r.payload.item) else old(currentUser)
    {
      var user := FindUserByEmail(Some(Str(Lower(email))));
      if user.None? {
        return Failure("User not found");
      }
      if !StrictEq(Get(user.value, "pass"), Some(password)) {
        return Failure("Invalid password");
      }
      currentUser := user;
      r := Success(One(user.value));
    }

    /** updateUserLocal: merge `updated` over the first user with the
        email; refresh the current user when it has that email. */
    method UpdateUserLocal(email: Option<Value>, updated: Record) returns (found: bool)
      modifies this`users, this`currentUser
      ensures found <==> UserIndex(old(users), email).Some?
      ensures users == UsersAfterUpdate(old(users), email, updated)
      ensures currentUser ==
        if found && old(currentUser).Some? && StrictEq(Get(old(currentUser).value, "email"), email)
        then Some(users[UserIndex(old(users), email).value]) else old(currentUser)
    {
      var index := FindIndex(users, ByEmail(email));
      if index == -1 {
        return false;
      }
      users := users[index := Spread(users[index], updated)];
      if currentUser.Some? && StrictEq(Get(currentUser.value, "email"), email) {
        currentUser := Some(users[index]);
      }
      found := true;
    }

    /** changePasswordLocal: the current user must be signed in and give
        the stored password; the new one is stored on the current user
        and merged into the directory. */
    method ChangePasswordLocal(currentPassword: Value, newPassword: Value) returns (r: Reply)
      modifies this`users, this`currentUser
      ensures old(currentUser).None? ==>
        r == Failure("User not logged in") && users == old(users) && currentUser == old(currentUser)
      ensures old(currentUser).Some? && !StrictEq(Get(old(currentUser).value, "pass"), Some(currentPassword)) ==>
        r == Failure("Current password is incorrect") && users == old(users) && currentUser == old(currentUser)
      ensures old(currentUser).Some? && StrictEq(Get(old(currentUser).value, "pass"), Some(currentPassword)) ==>
        var u := old(currentUser).value["pass" := newPassword];
        var email := Get(u, "email");
        && r == Success(Note("Password changed successfully"))
        && users == UsersAfterUpdate(old(users), email, u)
        && currentUser == Some(if UserIndex(old(users), email).Some?
                               then Spread(old(users)[UserIndex(old(users), email).value], u) else u)
        && Get(currentUser.value, "pass") == Some(newPassword)
        && (UserIndex(old(users), email).Some? ==>
              Get(users[UserIndex(old(users), email).value], "pass") == Some(newPassword))
    {
      if currentUser.None? {
        return Failure("User not logged in");
      }
      var user := currentUser.value;
      if !StrictEq(Get(user, "pass"), Some(currentPassword)) {
        return Failure("Current password is incorrect");
      }
      user := user["pass" := newPassword];
      currentUser := Some(user);
      var _ := UpdateUserLocal(Get(user, "email"), user);
      r := Success(Note("Password changed successfully"));
    }
  }
}
