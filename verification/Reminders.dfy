/** Reminders: the offset chosen in the task form, the reminder list
    derived from the active tasks, and the set of armed one-shot timers
    that is cleared and rebuilt after every change to the task list.
    Time is integer milliseconds since the epoch. */
module Reminders {
  import opened JsValues
  import opened Text

  const MinuteMs: int := 60 * 1000

  // ---------------------------------------------------------------------
  // The task form (saveTask)

  /** What the task form holds when it is saved. */
  datatype Form = Form(
    title: string, description: string, date: string, time: string,
    priority: string, remind: string, custom: string)

  /** The reminder offset in minutes picked by the form: the three presets,
      or the custom field when it parses (radix 10) to a non-zero number;
      anything else means no reminder. */
  function ReminderOffset(remind: string, custom: string): (r: Option<int>)
    ensures remind == "5" ==> r == Some(5)
    ensures remind == "10" ==> r == Some(10)
    ensures remind == "30" ==> r == Some(30)
    ensures remind !in {"5", "10", "30", "custom"} ==> r.None?
    ensures remind == "custom" ==>
      (r.Some? <==> custom != "" && ParseIntStr(custom).Some? && ParseIntStr(custom).value != 0)
    ensures remind == "custom" && r.Some? ==> Some(r.value) == ParseIntStr(custom)
    ensures r.Some? ==> r.value != 0
  {
    var customMin := if custom != "" then ParseIntStr(custom) else None;
    if remind == "5" then Some(5)
    else if remind == "10" then Some(10)
    else if remind == "30" then Some(30)
    else if remind == "custom" && customMin.Some? && customMin.value != 0 then customMin
    else None
  }

  /** The task object saveTask builds, given the form, the task's own date
      and time as a millisecond timestamp, and the human-readable rendering
      of the reminder time. None when a required field is empty (the form
      then alerts and saves nothing). When a reminder is set it fires
      `offset` minutes before the task, and the reminder list picks it up
      exactly when that instant is not the epoch itself (0 is falsy). */
  function TaskObject(f: Form, taskTime: int, human: string): (r: Option<Record>)
    ensures r.None? <==>
      Trim(f.title) == "" || Trim(f.description) == "" || f.date == "" || f.time == "" || f.priority == ""
    ensures r.Some? ==> Get(r.value, "title") == Some(Str(Trim(f.title)))
    ensures r.Some? ==> ReminderAtOf(r.value) == ReminderInstant(ReminderOffset(f.remind, f.custom), taskTime)
  {
    var title := Trim(f.title);
    var description := Trim(f.description);
    if title == "" || description == "" || f.date == "" || f.time == "" || f.priority == "" then None
    else
      var reminder := ReminderField(ReminderOffset(f.remind, f.custom), taskTime, human);
      Some(TaskRecord(title, description, f.date, f.time, f.priority, reminder))
  }

  /** The `taskObj` literal. */
  function TaskRecord(title: string, description: string, date: string, time: string,
                      priority: string, reminder: Value): (t: Record)
    ensures Get(t, "title") == Some(Str(title))
    ensures Get(t, "reminder") == Some(reminder)
  {
    map["title" := Str(title), "description" := Str(description),
        "date" := Str(date), "time" := Str(time),
        "priority" := Str(priority), "reminder" := reminder]
  }

  /** When the reminder fires: `offset` minutes before the task; none
      without an offset, and none either (as the reminder list reads it)
      when that instant is the epoch itself, since 0 is falsy. */
  function ReminderInstant(off: Option<int>, taskTime: int): (r: Option<Value>)
    ensures r.Some? <==> off.Some? && taskTime != off.value * MinuteMs
    ensures r.Some? ==> r.value == Num(taskTime - off.value * MinuteMs)
  {
    if off.Some? && taskTime - off.value * MinuteMs != 0 then Some(Num(taskTime - off.value * MinuteMs))
    else None
  }

  /** The `reminder` field of the saved task: an object when there is an
      offset, `null` otherwise. */
  function ReminderField(off: Option<int>, taskTime: int, human: string): (v: Value)
    ensures off.None? ==> v == Null
    ensures forall t: Record :: Get(t, "reminder") == Some(v) ==> ReminderAtOf(t) == ReminderInstant(off, taskTime)
  {
    if off.Some? then
      var m := map["reminderAt" := Num(taskTime - off.value * MinuteMs),
                   "reminderAtHuman" := Str(human),
                   "offsetMin" := Num(off.value)];
      assert Get(m, "reminderAt") == Some(Num(taskTime - off.value * MinuteMs));
      Obj(m)
    else Null
  }

  // ---------------------------------------------------------------------
  // The persisted reminder list (persistReminders)

  /** `t.reminder && t.reminder.reminderAt`: the reminder instant of a task
      when it has one that is truthy. Only an object has a `reminderAt`. */
  function ReminderAtOf(t: Record): (r: Option<Value>)
    ensures r.Some? ==> Truthy(r)
    ensures var rem := Get(t, "reminder");
      r.Some? ==> (rem.Some? && rem.value.Obj? && r == Get(rem.value.fields, "reminderAt"))
    ensures var rem := Get(t, "reminder");
      (rem.Some? && rem.value.Obj? && Truthy(Get(rem.value.fields, "reminderAt"))) ==>
        r == Get(rem.value.fields, "reminderAt")
  {
    match Get(t, "reminder")
    case Some(Obj(m)) => if Truthy(Get(m, "reminderAt")) then Get(m, "reminderAt") else None
    case _ => None
  }

  datatype ReminderEntry = ReminderEntry(index: nat, title: Option<Value>, reminderAt: Value)

  /** The entry persistReminders records for position `i`, if any. */
  function EntryAt(tasks: seq<Record>, i: nat): seq<ReminderEntry>
    requires i < |tasks|
  {
    var at := ReminderAtOf(tasks[i]);
    if at.Some? then [ReminderEntry(i, Get(tasks[i], "title"), at.value)] else []
  }

  /** The reminder list of a task list: one entry per task with a truthy
      reminder instant, in task order. */
  function Derived(tasks: seq<Record>): seq<ReminderEntry>
  {
    if tasks == [] then []
    else Derived(tasks[..|tasks| - 1]) + EntryAt(tasks, |tasks| - 1)
  }

  lemma DerivedStep(tasks: seq<Record>, i: nat)
    requires i < |tasks|
    ensures Derived(tasks[..i + 1]) == Derived(tasks[..i]) + EntryAt(tasks, i)
  {
    assert tasks[..i + 1][..i] == tasks[..i];
    assert tasks[..i + 1][i] == tasks[i];
  }

  lemma EntryAtPrefix(tasks: seq<Record>, n: nat, i: nat)
    requires i < n <= |tasks|
    ensures EntryAt(tasks[..n], i) == EntryAt(tasks, i)
  {
    assert tasks[..n][i] == tasks[i];
  }

  /** Every derived entry carries the position, title and instant of its
      task; positions strictly increase; and a position appears exactly
      when that task has a reminder. */
  lemma DerivedExactly(tasks: seq<Record>)
    ensures forall k :: 0 <= k < |Derived(tasks)| ==>
      var e := Derived(tasks)[k];
      && e.index < |tasks|
      && ReminderAtOf(tasks[e.index]) == Some(e.reminderAt)
      && e.title == Get(tasks[e.index], "title")
    ensures forall k, l :: 0 <= k < l < |Derived(tasks)| ==> Derived(tasks)[k].index < Derived(tasks)[l].index
    ensures forall i :: 0 <= i < |tasks| ==>
      (ReminderAtOf(tasks[i]).Some? <==> exists k :: 0 <= k < |Derived(tasks)| && Derived(tasks)[k].index == i)
  {
    DerivedEntries(tasks);
    DerivedIncreasing(tasks);
    DerivedCovers(tasks);
  }

  /** Each derived entry describes the task at its position. */
  lemma {:induction false} DerivedEntries(tasks: seq<Record>)
    ensures forall k :: 0 <= k < |Derived(tasks)| ==>
      var e := Derived(tasks)[k];
      && e.index < |tasks|
      && ReminderAtOf(tasks[e.index]) == Some(e.reminderAt)
      && e.title == Get(tasks[e.index], "title")
  {
    if tasks != [] {
      var n := |tasks| - 1;
      var front := tasks[..n];
      DerivedEntries(front);
      var d0 := Derived(front);
      assert Derived(tasks) == d0 + EntryAt(tasks, n);
      assert forall k :: 0 <= k < |d0| ==> front[d0[k].index] == tasks[d0[k].index];
    }
  }

  /** Derived positions strictly increase. */
  lemma {:induction false} DerivedIncreasing(tasks: seq<Record>)
    ensures forall k, l :: 0 <= k < l < |Derived(tasks)| ==> Derived(tasks)[k].index < Derived(tasks)[l].index
  {
    if tasks != [] {
      var n := |tasks| - 1;
      var front := tasks[..n];
      DerivedIncreasing(front);
      DerivedEntries(front);
      var d0 := Derived(front);
      assert Derived(tasks) == d0 + EntryAt(tasks, n);
      assert forall k :: 0 <= k < |d0| ==> d0[k].index < n;
    }
  }

  /** A position appears exactly when its task has a reminder. */
  lemma DerivedCovers(tasks: seq<Record>)
    ensures forall i :: 0 <= i < |tasks| ==>
      (ReminderAtOf(tasks[i]).Some? <==> exists k :: 0 <= k < |Derived(tasks)| && Derived(tasks)[k].index == i)
  {
    DerivedEntries(tasks);
    var d := Derived(tasks);
    forall i | 0 <= i < |tasks| && ReminderAtOf(tasks[i]).Some?
      ensures exists k :: 0 <= k < |d| && d[k].index == i
    {
      DerivedHas(tasks, i);
    }
    forall i, k | 0 <= i < |tasks| && 0 <= k < |d| && d[k].index == i
      ensures ReminderAtOf(tasks[i]).Some?
    {
      assert ReminderAtOf(tasks[d[k].index]) == Some(d[k].reminderAt);
    }
  }

  /** A task with a reminder has an entry. */
  lemma {:induction false} DerivedHas(tasks: seq<Record>, i: nat)
    requires i < |tasks| && ReminderAtOf(tasks[i]).Some?
    ensures exists k :: 0 <= k < |Derived(tasks)| && Derived(tasks)[k].index == i
  {
    var n := |tasks| - 1;
    var front := tasks[..n];
    var d := Derived(tasks);
    var d0 := Derived(front);
    assert d == d0 + EntryAt(tasks, n);
    if i < n {
      assert front[i] == tasks[i];
      DerivedHas(front, i);
      var k :| 0 <= k < |d0| && d0[k].index == i;
      assert d[k] == d0[k];
    } else {
      assert d[|d0|].index == i;
    }
  }

  // ---------------------------------------------------------------------
  // Armed timers (scheduleAllReminders)

  /** What an armed timer will announce: the task's position, its title
      and the reminder instant. */
  datatype Alarm = Alarm(index: nat, title: Option<Value>, fireAt: int)

  /** A timer as the scheduler records it: `{id, index}`, together with
      the alarm its callback captured. */
  datatype Timer = Timer(id: nat, alarm: Alarm)

  /** The alarm scheduleAllReminders arms for position `i` at time `now`:
      only a numeric instant strictly in the future. */
  function DueAt(tasks: seq<Record>, i: nat, now: int): seq<Alarm>
    requires i < |tasks|
  {
    match ReminderAtOf(tasks[i])
    case Some(Num(at)) => if at - now > 0 then [Alarm(i, Get(tasks[i], "title"), at)] else []
    case _ => []
  }

  /** The alarms armed for a task list at time `now`, in task order. */
  function Due(tasks: seq<Record>, now: int): seq<Alarm>
  {
    if tasks == [] then []
    else Due(tasks[..|tasks| - 1], now) + DueAt(tasks, |tasks| - 1, now)
  }

  /** The future part of a persisted reminder list. */
  function Upcoming(entries: seq<ReminderEntry>, now: int): seq<Alarm>
  {
    if entries == [] then []
    else
      var e := entries[|entries| - 1];
      Upcoming(entries[..|entries| - 1], now) +
        (match e.reminderAt
         case Num(at) => if at - now > 0 then [Alarm(e.index, e.title, at)] else []
         case _ => [])
  }

  /** The timers armed at `now` are exactly the persisted reminders whose
      instant is still ahead: scheduling and persisting agree. */
  lemma {:induction false} DueIsUpcomingDerived(tasks: seq<Record>, now: int)
    ensures Due(tasks, now) == Upcoming(Derived(tasks), now)
  {
    if tasks != [] {
      var n := |tasks| - 1;
      DueIsUpcomingDerived(tasks[..n], now);
      var d := Derived(tasks);
      var e := EntryAt(tasks, n);
      assert d == Derived(tasks[..n]) + e;
      if e == [] {
        assert d == Derived(tasks[..n]);
      } else {
        assert d[..|d| - 1] == Derived(tasks[..n]);
        assert d[|d| - 1] == e[0];
      }
    }
  }

  lemma DueStep(tasks: seq<Record>, i: nat, now: int)
    requires i < |tasks|
    ensures Due(tasks[..i + 1], now) == Due(tasks[..i], now) + DueAt(tasks, i, now)
  {
    assert tasks[..i + 1][..i] == tasks[..i];
    assert tasks[..i + 1][i] == tasks[i];
  }

  predicate Increasing(ts: seq<Timer>) {
    forall k, l :: 0 <= k < l < |ts| ==> ts[k].id < ts[l].id
  }

  /** Handles increase along the list and all lie in [low, high). */
  predicate HandlesIn(ts: seq<Timer>, low: nat, high: nat) {
    Increasing(ts) && forall k :: 0 <= k < |ts| ==> low <= ts[k].id < high
  }

  /** Arming a timer with a handle above all earlier ones keeps the
      handles increasing and appends its alarm. */
  lemma Arm(ts: seq<Timer>, t: Timer, low: nat)
    requires HandlesIn(ts, low, t.id) && low <= t.id
    ensures HandlesIn(ts + [t], low, t.id + 1)
    ensures Alarms(ts + [t]) == Alarms(ts) + [t.alarm]
  {
  }

  function Alarms(ts: seq<Timer>): (r: seq<Alarm>)
    ensures |r| == |ts|
    ensures forall k :: 0 <= k < |ts| ==> r[k] == ts[k].alarm
  {
    seq(|ts|, k requires 0 <= k < |ts| => ts[k].alarm)
  }

  /** The page's armed reminder timers (`reminderTimers`) and the source of
      fresh timer handles. */
  class Scheduler {
    var timers: seq<Timer>
    var nextId: nat

    /** Handles are distinct, increasing and all issued already. */
    ghost predicate Valid()
      reads this
    {
      HandlesIn(timers, 0, nextId)
    }

    constructor ()
      ensures Valid() && timers == []
    {
      timers := [];
      nextId := 1;
    }

    /** clearAllTimers: every armed timer is cancelled. */
    method ClearAllTimers()
      modifies this`timers
      ensures timers == []
    {
      timers := [];
    }

    /** scheduleAllReminders: cancel everything, then arm one timer per
      task whose numeric reminder instant is still ahead of `now`. No timer
      armed before survives: every handle is new. */
    method ScheduleAll(tasks: seq<Record>, now: int)
      requires Valid()
      modifies this
      ensures Valid()
      ensures Alarms(timers) == Due(tasks, now)
      ensures nextId >= old(nextId)
      ensures forall k :: 0 <= k < |timers| ==> old(nextId) <= timers[k].id
    {
      ClearAllTimers();
      var i := 0;
      while i < |tasks|
        invariant 0 <= i <= |tasks|
        invariant nextId >= old(nextId)
        invariant HandlesIn(timers, old(nextId), nextId)
        invariant Alarms(timers) == Due(tasks[..i], now)
      {
        DueStep(tasks, i, now);
        var at := ReminderAtOf(tasks[i]);
        if at.Some? && at.value.Num? && at.value.n - now > 0 {
          var t := Timer(nextId, Alarm(i, Get(tasks[i], "title"), at.value.n));
          Arm(timers, t, old(nextId));
          timers := timers + [t];
          nextId := nextId + 1;
        }
        i := i + 1;
      }
      assert tasks[..i] == tasks;
    }

    /** A timer's callback: if the handle is still armed, it announces its
      alarm and removes its own record; a cancelled handle never fires. */
    method Fire(id: nat) returns (alert: Option<Alarm>)
      requires Valid()
      modifies this`timers
      ensures Valid()
      ensures alert.Some? <==> exists k :: 0 <= k < |old(timers)| && old(timers)[k].id == id
      ensures alert.Some? ==> exists k :: 0 <= k < |old(timers)| && old(timers)[k] == Timer(id, alert.value)
      ensures forall t :: t in timers <==> t in old(timers) && t.id != id
      ensures |timers| <= |old(timers)|
    {
      alert := None;
      var i := 0;
      while i < |timers|
        invariant 0 <= i <= |timers|
        invariant forall k :: 0 <= k < i ==> timers[k].id != id
      {
        if timers[i].id == id {
          alert := Some(timers[i].alarm);
          break;
        }
        i := i + 1;
      }
      timers := Keep(timers, id);
    }
  }

  /** `timers.filter(x => x.id !== id)` on a list with distinct handles. */
  function Keep(ts: seq<Timer>, id: nat): (r: seq<Timer>)
    requires forall k, l :: 0 <= k < l < |ts| ==> ts[k].id < ts[l].id
    ensures forall t :: t in r <==> t in ts && t.id != id
    ensures |r| <= |ts|
    ensures forall k, l :: 0 <= k < l < |r| ==> r[k].id < r[l].id
    ensures forall k :: 0 <= k < |r| ==> exists j :: 0 <= j < |ts| && r[k] == ts[j]
  {
    if ts == [] then []
    else
      var rest := Keep(ts[..|ts| - 1], id);
      assert forall k :: 0 <= k < |rest| ==> exists j :: 0 <= j < |ts| - 1 && rest[k] == ts[j];
      if ts[|ts| - 1].id != id then rest + [ts[|ts| - 1]] else rest
  }
}
