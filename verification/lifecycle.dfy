/** The reminder lifecycle as a closed state machine: the database is the
    state and the three entry points (the create view, the send_reminder
    job, the cancel view) are the transitions. */
module Lifecycle {
  import opened Common
  import opened Models
  import opened Store
  import opened Services
  import opened Tasks
  import opened Views

  /** One transition, with every input the environment supplies. */
  datatype Step =
    | CreateStep(req: Request, reminderTime: Timestamp, now: Timestamp, taskId: string)
    | FireStep(userId: int, reminderId: int, now: Timestamp)
    | CancelStep(req: Request, now: Timestamp, state: JobState)

  /** The database after one transition; a job that raised wrote nothing. */
  function Next(db: Db, step: Step): (next: Db)
    requires ValidDb(db)
    ensures ValidDb(next)
    ensures next.users == db.users
    ensures db.reminders.rows.Keys <= next.reminders.rows.Keys
  {
    match step
    case CreateStep(req, reminderTime, now, taskId) => CreateReminderView(db, req, reminderTime, now, taskId).db
    case FireStep(userId, reminderId, now) =>
      (match SendReminder(db, userId, reminderId, now)
       case Ok(fired) => fired
       case Err(_) => db)
    case CancelStep(req, now, state) => DeleteReminderView(db, req, now, state).db
  }

  /** The database after a sequence of transitions. */
  function Run(db: Db, steps: seq<Step>): (last: Db)
    requires ValidDb(db)
    ensures ValidDb(last)
    decreases |steps|
  {
    if steps == [] then db else Run(Next(db, steps[0]), steps[1..])
  }

  /** A soft-deleted reminder is frozen: no transition changes any of its
      columns, so in particular deleted_on is never cleared. */
  lemma DeletedIsFrozen(db: Db, step: Step, id: int)
    requires ValidDb(db) && id in db.reminders.rows && !db.reminders.rows[id].Active()
    ensures id in Next(db, step).reminders.rows
    ensures Next(db, step).reminders.rows[id] == db.reminders.rows[id]
  {
  }

  /** No transition takes a reminder back to "created" once it is sent or
      deleted; a sent one is either still sent or deleted after it. */
  lemma NoReturnToCreated(db: Db, step: Step, id: int)
    requires ValidDb(db) && id in db.reminders.rows
    requires StatusOf(db.reminders.rows[id]) != Created
    ensures StatusOf(Next(db, step).reminders.rows[id]) != Created
    ensures StatusOf(db.reminders.rows[id]) == Deleted ==> StatusOf(Next(db, step).reminders.rows[id]) == Deleted
  {
  }

  /** Over any run, a deleted reminder keeps every column, and a reminder
      that left "created" never comes back to it. */
  lemma {:induction false} RunKeepsTerminalStates(db: Db, steps: seq<Step>, id: int)
    requires ValidDb(db) && id in db.reminders.rows
    ensures id in Run(db, steps).reminders.rows
    ensures !db.reminders.rows[id].Active() ==> Run(db, steps).reminders.rows[id] == db.reminders.rows[id]
    ensures StatusOf(db.reminders.rows[id]) != Created ==> StatusOf(Run(db, steps).reminders.rows[id]) != Created
    decreases |steps|
  {
    if steps != [] {
      var next := Next(db, steps[0]);
      if !db.reminders.rows[id].Active() {
        DeletedIsFrozen(db, steps[0], id);
      }
      if StatusOf(db.reminders.rows[id]) != Created {
        NoReturnToCreated(db, steps[0], id);
      }
      RunKeepsTerminalStates(next, steps[1..], id);
    }
  }

  /** The job the create view schedules finds its reminder when it fires
      straight away, even when attaching the task id failed. */
  lemma ScheduledJobFindsItsReminder(db: Db, req: Request, reminderTime: Timestamp, now: Timestamp, taskId: string, later: Timestamp)
    requires ValidDb(db) && CreateReminderView(db, req, reminderTime, now, taskId).scheduled.Some?
    ensures var o := CreateReminderView(db, req, reminderTime, now, taskId);
            var job := o.scheduled.value;
            && SendReminder(o.db, job.userId, job.reminderId, later).Ok?
            && StatusOf(SendReminder(o.db, job.userId, job.reminderId, later).value.reminders.rows[job.reminderId]) == Sent
  {
  }

  /** The task id the create view attaches is the one a later cancel
      revokes, while the job has not started. */
  lemma CancelRevokesAttachedJob(db: Db, req: Request, reminderTime: Timestamp, now: Timestamp, taskId: string, later: Timestamp, state: JobState)
    requires ValidDb(db) && CreateReminderView(db, req, reminderTime, now, taskId).reply == Done
    requires |taskId| <= TaskIdMaxLength && state !in {Success, Failure, Started}
    ensures var o := CreateReminderView(db, req, reminderTime, now, taskId);
            var job := o.scheduled.value;
            var cancel := Request(map["userId" := job.userId, "recordId" := job.reminderId], map[]);
            && DeleteReminderView(o.db, cancel, later, state).reply == Done
            && DeleteReminderView(o.db, cancel, later, state).revoked == Some(taskId)
  {
  }

  /** A cancel that committed before the job fired wins the race: the job's
      lookup fails and the reminder stays deleted. */
  lemma CancelThenFire(db: Db, req: Request, now: Timestamp, state: JobState, later: Timestamp)
    requires ValidDb(db)
    requires DeleteReminderView(db, req, now, state).reply == Done
    ensures var cancelled := DeleteReminderView(db, req, now, state).db;
            var userId := Number(req, "userId", DefaultUserId);
            var id := Number(req, "recordId", DefaultRecordId);
            && id in cancelled.reminders.rows
            && StatusOf(cancelled.reminders.rows[id]) == Deleted
            && SendReminder(cancelled, userId, id, later) == Err(DoesNotExist)
  {
  }

  /** A cancel after the reminder is deleted fails at the lookup, before the
      job state is consulted, and changes nothing. */
  lemma CancelTwice(db: Db, req: Request, now: Timestamp, state: JobState, later: Timestamp, state': JobState)
    requires ValidDb(db)
    requires DeleteReminderView(db, req, now, state).reply == Done
    ensures var cancelled := DeleteReminderView(db, req, now, state).db;
            DeleteReminderView(cancelled, req, later, state') == Outcome(cancelled, ServerError(DoesNotExist), None, None)
  {
  }

  /** The cancel view does not treat "sent" as terminal: when the scheduler
      reports a sent reminder's job as anything but finished or running
      (for instance once its result has expired and it reads as pending),
      the reminder is soft-deleted and the job revoked. */
  lemma SentReminderCanBeCancelled(db: Db, req: Request, now: Timestamp)
    requires ValidDb(db)
    requires var userId := Number(req, "userId", DefaultUserId);
             var id := Number(req, "recordId", DefaultRecordId);
             && id in Records(ReminderService(userId), db.reminders)
             && StatusOf(db.reminders.rows[id]) == Sent
             && db.reminders.rows[id].fields.notificationTaskId.Some?
    ensures var o := DeleteReminderView(db, req, now, Pending);
            var id := Number(req, "recordId", DefaultRecordId);
            && o.reply == Done && o.revoked.Some?
            && StatusOf(o.db.reminders.rows[id]) == Deleted
  {
  }

  /** The database of the walk-through below: user 1 and no reminders. */
  function OneUser(): (db: Db)
    ensures ValidDb(db)
  {
    Db(Table(map[1 := Row(1, None, 0, 0, None, UserFields("Ann"))], 2), Table(map[], 1))
  }

  /** The reminder the walk-through creates. */
  function PayRent(): Row<ReminderFields> {
    Row(1, Some(1), 10, 10, None, ReminderFields(false, "Pay rent", Some("job-abc"), 100))
  }

  /** The reminder once its job has fired. */
  function PayRentSent(): Row<ReminderFields> {
    PayRent().(updatedOn := 100, fields := PayRent().fields.(isSent := true))
  }

  /** Walk-through: create "Pay rent" for user 1 (id 1, job "job-abc"), list
      it as created, fire the job, list it as sent, and a cancel that finds
      the job finished is refused as complete. */
  lemma CreateFireCancelWalkthrough()
    ensures var created := CreateReminderView(OneUser(), Request(map[], map["message" := "Pay rent"]), 100, 10, "job-abc");
            && created.reply == Done
            && created.scheduled == Some(Job("job-abc", 1, 1, 100))
            && GetRemindersView(created.db, Request(map["page" := 1], map[])) == Ok([Entry(10, 10, "Pay rent", "created")])
            && SendReminder(created.db, 1, 1, 100).Ok?
            && var fired := SendReminder(created.db, 1, 1, 100).value;
            && GetRemindersView(fired, Request(map["page" := 1], map[])) == Ok([Entry(10, 100, "Pay rent", "sent")])
            && DeleteReminderView(fired, Request(map["recordId" := 1], map[]), 200, Success).reply == ReminderComplete
  {
    WalkthroughCreate();
    var created := CreateReminderView(OneUser(), Request(map[], map["message" := "Pay rent"]), 100, 10, "job-abc");
    ListsSingleReminder(created.db, PayRent());
    WalkthroughFire(created.db);
    var fired := SendReminder(created.db, 1, 1, 100).value;
    ListsSingleReminder(fired, PayRentSent());
    WalkthroughCancel(fired);
  }

  lemma WalkthroughCreate()
    ensures var created := CreateReminderView(OneUser(), Request(map[], map["message" := "Pay rent"]), 100, 10, "job-abc");
            && created.reply == Done
            && created.scheduled == Some(Job("job-abc", 1, 1, 100))
            && created.db == OneUser().(reminders := Table(map[1 := PayRent()], 2))
  {
  }

  lemma WalkthroughFire(db: Db)
    requires db == OneUser().(reminders := Table(map[1 := PayRent()], 2))
    ensures ValidDb(db)
    ensures SendReminder(db, 1, 1, 100) == Ok(db.(reminders := Table(map[1 := PayRentSent()], 2)))
  {
    assert 1 in Records(ReminderService(1), db.reminders);
    var fired := SendReminder(db, 1, 1, 100).value;
    assert fired.reminders.rows == map[1 := PayRentSent()];
  }

  lemma WalkthroughCancel(db: Db)
    requires db == OneUser().(reminders := Table(map[1 := PayRentSent()], 2))
    ensures ValidDb(db)
    ensures DeleteReminderView(db, Request(map["recordId" := 1], map[]), 200, Success).reply == ReminderComplete
  {
    assert 1 in Records(ReminderService(1), db.reminders);
  }

  /** Page 1 of user 1's listing when the only reminder is `row`, id 1. */
  lemma ListsSingleReminder(db: Db, row: Row<ReminderFields>)
    requires ValidDb(db) && db.reminders == Table(map[1 := row], 2) && row.id == 1 && row.userId == Some(1)
    ensures GetRemindersView(db, Request(map["page" := 1], map[])) ==
            Ok([Entry(row.createdOn, row.updatedOn, row.fields.message, StatusOf(row).Label())])
  {
    var req := Request(map["page" := 1], map[]);
    assert ListQueryOf(req) == ListQuery(1, 100, 1, "id");
    var scope := AllRecords(ReminderService(1), db.reminders);
    assert scope == map[1 := row];
    OrderedSingleton(row, 1, 2);
    assert FilteredRecords(ReminderService(1), db.reminders, 100, 1) == Ok([row]);
    var listed := FilteredReminders(db.reminders, 1, 100, 1).value;
    assert |listed| == 1 && listed[0] == Listed(row, StatusOf(row));
    assert GetRemindersView(db, req).Ok?;
    var entries := GetRemindersView(db, req).value;
    assert |entries| == 1;
    assert entries[0] == Entry(row.createdOn, row.updatedOn, row.fields.message, StatusOf(row).Label());
    assert entries == [entries[0]];
  }
}
