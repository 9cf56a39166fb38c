/** The decision logic of the three API views: request defaults, listing,
    the create flow (create, schedule, attach the job handle) and the cancel
    flow (look up, ask the scheduler, then refuse or soft-delete and revoke).
    HTTP parsing, responses and the scheduler itself are left out: the job
    handle and the job state are inputs, scheduling and revoking are
    outputs. */
module Views {
  import opened Common
  import opened Models
  import opened Store
  import opened Services

  /** A request's parameters: those the view passes through int(), and those
      it passes through str(). */
  datatype Request = Request(numbers: map<string, int>, texts: map<string, string>)

  const DefaultUserId: int := 1
  const DefaultPerPage: int := 100
  const DefaultPage: int := 0
  const DefaultSortBy: string := "id"
  const DefaultRecordId: int := -1

  /** str(None): what a missing text parameter becomes. */
  const MissingText: string := "None"

  function Number(req: Request, key: string, default: int): int {
    if key in req.numbers then req.numbers[key] else default
  }

  function Text(req: Request, key: string, default: string): string {
    if key in req.texts then req.texts[key] else default
  }

  /** The listing parameters GetRemindersView reads. */
  datatype ListQuery = ListQuery(userId: int, perPage: int, page: int, sortBy: string)

  function ListQueryOf(req: Request): ListQuery {
    ListQuery(
      Number(req, "userId", DefaultUserId),
      Number(req, "perPage", DefaultPerPage),
      Number(req, "page", DefaultPage),
      Text(req, "sortBy", DefaultSortBy))
  }

  /** One element of the listing response: the four columns `.values` picks. */
  datatype Entry = Entry(createdOn: Timestamp, updatedOn: Timestamp, message: string, status: string)

  /** GetRemindersView.get: entry i shows row i of the store's page. The
      sortBy parameter is read but the ordering is fixed to id in this
      model. */
  function GetRemindersView(db: Db, req: Request): (r: Result<seq<Entry>>)
    requires ValidDb(db)
    ensures var q := ListQueryOf(req);
            r.Err? <==> 1 <= q.page && q.perPage == 0
    ensures ListQueryOf(req).page < 1 ==> r == Ok([])
    ensures r.Ok? ==> forall i :: 0 <= i < |r.value| ==> r.value[i].status in {"created", "sent", "deleted"}
    ensures var q := ListQueryOf(req);
            var rows := FilteredRecords(ReminderService(q.userId), db.reminders, q.perPage, q.page);
            r.Ok? ==>
              && rows.Ok? && |r.value| == |rows.value|
              && forall i :: 0 <= i < |r.value| ==>
                   var row := rows.value[i];
                   r.value[i] == Entry(row.createdOn, row.updatedOn, row.fields.message, StatusOf(row).Label())
  {
    var q := ListQueryOf(req);
    var listed :- FilteredReminders(db.reminders, q.userId, q.perPage, q.page);
    Ok(seq(|listed|, i requires 0 <= i < |listed| =>
      var row := listed[i].row;
      Entry(row.createdOn, row.updatedOn, row.fields.message, listed[i].status.Label())))
  }

  /** A job handed to the scheduler: send_reminder(user_id, record_id) at
      `eta`, under the task id the scheduler assigned. */
  datatype Job = Job(taskId: string, userId: int, reminderId: int, eta: Timestamp)

  /** How a view ended: normally, with one of the two cancel refusals, or
      with an uncaught exception. */
  datatype Reply = Done | ReminderComplete | ReminderInProgress | ServerError(error: Error)

  /** What a view leaves behind: the database after every step that
      committed, its reply, and the scheduler requests it made. */
  datatype Outcome = Outcome(db: Db, reply: Reply, scheduled: Option<Job>, revoked: Option<string>)

  /** CreateReminderView.post at `now`. `reminderTime` is the parsed
      reminderTime parameter and `taskId` the id the scheduler gives the job.
      Each service call commits on its own, so a failure to attach the
      handle leaves the reminder stored (with a null task id) and the job
      scheduled. */
  function CreateReminderView(db: Db, req: Request, reminderTime: Timestamp, now: Timestamp, taskId: string)
    : (o: Outcome)
    requires ValidDb(db)
    ensures ValidDb(o.db) && o.db.users == db.users
    ensures o.revoked == None
    ensures var userId := Number(req, "user_id", DefaultUserId);
            !ActiveUser(db.users, userId) ==> o == Outcome(db, ServerError(DoesNotExist), None, None)
    ensures var userId := Number(req, "user_id", DefaultUserId);
            var message := Text(req, "message", MissingText);
            o.scheduled.Some? <==> ActiveUser(db.users, userId) && Varchar(message, MessageMaxLength).Some?
    ensures var userId := Number(req, "user_id", DefaultUserId);
            var message := Text(req, "message", MissingText);
            ActiveUser(db.users, userId) && Varchar(message, MessageMaxLength).None? ==>
              o == Outcome(db, ServerError(ValueTooLong), None, None)
    ensures o.scheduled.Some? ==>
              && var job := o.scheduled.value;
              && job.taskId == taskId && job.eta == reminderTime
              && job.userId == Number(req, "user_id", DefaultUserId)
              && job.reminderId == db.reminders.nextId
              && job.reminderId !in db.reminders.rows
              && o.db.reminders.rows.Keys == db.reminders.rows.Keys + {job.reminderId}
              && o.db.reminders.nextId == db.reminders.nextId + 1
              && var row := o.db.reminders.rows[job.reminderId];
              && row.userId == Some(job.userId)
              && row.createdOn == now && row.updatedOn == now
              && StatusOf(row) == Created
              && row.fields.message == Varchar(Text(req, "message", MissingText), MessageMaxLength).value
              && row.fields.reminderTime == reminderTime
              && (o.reply == Done <==> Varchar(taskId, TaskIdMaxLength).Some?)
              && (o.reply == Done ==> row.fields.notificationTaskId == Some(Varchar(taskId, TaskIdMaxLength).value))
              && (o.reply != Done ==> o.reply == ServerError(ValueTooLong) && row.fields.notificationTaskId == None)
    ensures forall id :: id in db.reminders.rows ==>
              id in o.db.reminders.rows && o.db.reminders.rows[id] == db.reminders.rows[id]
  {
    var userId := Number(req, "user_id", DefaultUserId);
    var message := Text(req, "message", MissingText);
    match CreateReminder(db, userId, message, reminderTime, now)
    case Err(e) => Outcome(db, ServerError(e), None, None)
    case Ok(created) =>
      var stored := db.(reminders := created.table);
      var job := Job(taskId, userId, created.id, reminderTime);
      match UpdateNotificationTaskId(stored.reminders, userId, created.id, taskId, now)
      case Err(e) => Outcome(stored, ServerError(e), Some(job), None)
      case Ok(reminders) => Outcome(stored.(reminders := reminders), Done, Some(job), None)
  }

  /** The states the scheduler reports for a job. */
  datatype JobState = Pending | Received | Started | Success | Failure | Retry | Revoked

  /** DeleteReminderView.post at `now`, where `state` is what the scheduler
      reports for the reminder's task. A job that finished is refused as
      complete, a running one as in progress; otherwise the reminder is
      soft-deleted and then the job revoked. */
  function DeleteReminderView(db: Db, req: Request, now: Timestamp, state: JobState): (o: Outcome)
    requires ValidDb(db)
    ensures ValidDb(o.db) && o.db.users == db.users && o.scheduled == None
    ensures var userId := Number(req, "userId", DefaultUserId);
            var id := Number(req, "recordId", DefaultRecordId);
            id !in Records(ReminderService(userId), db.reminders) ==>
              o == Outcome(db, ServerError(DoesNotExist), None, None)
    ensures o.reply != Done ==> o.db == db && o.revoked == None
    ensures var userId := Number(req, "userId", DefaultUserId);
            var id := Number(req, "recordId", DefaultRecordId);
            id in Records(ReminderService(userId), db.reminders) ==>
              var row := db.reminders.rows[id];
              && (row.fields.notificationTaskId == None ==> o.reply == ServerError(NoTaskId))
              && (row.fields.notificationTaskId != None ==>
                    && (state in {Success, Failure} ==> o.reply == ReminderComplete)
                    && (state == Started ==> o.reply == ReminderInProgress)
                    && (state !in {Success, Failure, Started} ==>
                          && o.reply == Done
                          && o.revoked == row.fields.notificationTaskId
                          && o.db.reminders.nextId == db.reminders.nextId
                          && o.db.reminders.rows == db.reminders.rows[id := row.(updatedOn := now, deletedOn := Some(now))]))
  {
    var userId := Number(req, "userId", DefaultUserId);
    var id := Number(req, "recordId", DefaultRecordId);
    var service := ReminderService(userId);
    match GetById(service, db.reminders, id)
    case Err(e) => Outcome(db, ServerError(e), None, None)
    case Ok(record) =>
      match record.fields.notificationTaskId
      case None => Outcome(db, ServerError(NoTaskId), None, None)
      case Some(taskId) =>
        if state == Success || state == Failure then Outcome(db, ReminderComplete, None, None)
        else if state == Started then Outcome(db, ReminderInProgress, None, None)
        else
          match Delete(service, db.reminders, id, now)
          case Err(e) => Outcome(db, ServerError(e), None, None)
          case Ok(reminders) => Outcome(db.(reminders := reminders), Done, None, Some(taskId))
  }

  /** A request without parameters lists user 1, 100 per page, page 0,
      ordered by id; and page 0 is always empty. */
  lemma DefaultListingIsEmpty(db: Db)
    requires ValidDb(db)
    ensures ListQueryOf(Request(map[], map[])) == ListQuery(1, 100, 0, "id")
    ensures GetRemindersView(db, Request(map[], map[])) == Ok([])
  {
  }

  /** The create view reads the owner from "user_id", the other two views
      from "userId": a create request that only names "userId" creates the
      reminder for user 1. */
  lemma CreateIgnoresUserIdKey(db: Db, owner: int, message: string, reminderTime: Timestamp, now: Timestamp, taskId: string)
    requires ValidDb(db)
    ensures var req := Request(map["userId" := owner], map["message" := message]);
            var o := CreateReminderView(db, req, reminderTime, now, taskId);
            o.scheduled.Some? ==> o.scheduled.value.userId == DefaultUserId
  {
  }

  /** A message one space longer than its column is not refused: the space
      is cut off on save, and the reminder is created and scheduled. */
  lemma TrailingSpaceIsCut(db: Db, message: string, reminderTime: Timestamp, now: Timestamp, taskId: string)
    requires ValidDb(db) && ActiveUser(db.users, DefaultUserId)
    requires |message| == MessageMaxLength && |taskId| <= TaskIdMaxLength
    ensures var o := CreateReminderView(db, Request(map[], map["message" := message + " "]), reminderTime, now, taskId);
            && o.reply == Done && o.scheduled.Some?
            && o.db.reminders.rows[o.scheduled.value.reminderId].fields.message == message
  {
  }

  /** A cancel request without recordId looks up id -1, which the id
      sequence never hands out, so it fails and changes nothing. */
  lemma CancelWithoutRecordIdFails(db: Db, req: Request, now: Timestamp, state: JobState)
    requires ValidDb(db) && "recordId" !in req.numbers
    ensures DeleteReminderView(db, req, now, state) == Outcome(db, ServerError(DoesNotExist), None, None)
  {
  }
}
