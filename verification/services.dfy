/** ReminderService: the generic store specialised to the reminders table,
    with its status annotation and its two single-field updates, plus the
    database both services work on. */
module Services {
  import opened Common
  import opened Models
  import opened Store

  const ReminderEntity: Entity<ReminderFields> := Entity(false, ReminderFits, CastReminder)

  /** ReminderService(user_id). */
  function ReminderService(userId: int): Service<ReminderFields> {
    Service(userId, ReminderEntity)
  }

  /** The database: both tables. */
  datatype Db = Db(users: Table<UserFields>, reminders: Table<ReminderFields>)

  /** Each table is valid and every reminder's user_id refers to a stored
      user (the foreign key; users are only ever soft-deleted). */
  ghost predicate ValidDb(db: Db) {
    && Valid(UserEntity, db.users)
    && Valid(ReminderEntity, db.reminders)
    && forall id :: id in db.reminders.rows ==> ReferencesUser(db, db.reminders.rows[id])
  }

  predicate ReferencesUser(db: Db, row: Row<ReminderFields>) {
    row.userId.Some? && row.userId.value in db.users.rows
  }

  /** The values of the annotated `status` column, "unknown" included. */
  datatype Status = Created | Sent | Deleted | Unknown {
    function Label(): string {
      match this
      case Created => "created"
      case Sent => "sent"
      case Deleted => "deleted"
      case Unknown => "unknown"
    }
  }

  /** _filter_records' Case expression: its When clauses in order, with the
      default after them. The default is never reached: deletion dominates
      the sent flag, and the sent flag decides the rest. */
  function StatusOf(row: Row<ReminderFields>): (s: Status)
    ensures s != Unknown
    ensures s == Deleted <==> row.deletedOn.Some?
    ensures s == Sent <==> row.deletedOn.None? && row.fields.isSent
    ensures s == Created <==> row.deletedOn.None? && !row.fields.isSent
  {
    if row.deletedOn.Some? then Deleted
    else if row.deletedOn.None? && row.fields.isSent then Sent
    else if row.deletedOn.None? && !row.fields.isSent then Created
    else Unknown
  }

  /** create_record on ReminderService with the columns the create view
      passes: only message and reminder_time, the rest at their defaults.
      The message goes through its column's cast, so trailing spaces past
      the limit are cut off silently. */
  function CreateReminder(db: Db, userId: int, message: string, reminderTime: Timestamp, ts: Timestamp)
    : (r: Result<NewRecord<ReminderFields>>)
    requires ValidDb(db)
    ensures !ActiveUser(db.users, userId) ==> r == Err(DoesNotExist)
    ensures ActiveUser(db.users, userId) ==> (r.Ok? <==> Varchar(message, MessageMaxLength).Some?)
    ensures ActiveUser(db.users, userId) && r.Err? ==> r.error == ValueTooLong
    ensures r.Err? ==> r.error in {DoesNotExist, ValueTooLong}
    ensures r.Ok? ==>
              && r.value.id == db.reminders.nextId && r.value.id !in db.reminders.rows
              && r.value.id in r.value.table.rows
              && var row := r.value.table.rows[r.value.id];
              && row.userId == Some(userId) && row.createdOn == ts && row.updatedOn == ts
              && StatusOf(row) == Created
              && row.fields.message == Varchar(message, MessageMaxLength).value
              && row.fields.reminderTime == reminderTime
              && row.fields.notificationTaskId == None
              && r.value.table == Table(db.reminders.rows[r.value.id := row], db.reminders.nextId + 1)
    ensures r.Ok? ==> ValidDb(db.(reminders := r.value.table))
  {
    Create(ReminderService(userId), db.reminders, db.users, NewReminderFields(message, reminderTime), ts)
  }

  /** update_send_status: is_sent := true on an active reminder. */
  function UpdateSendStatus(t: Table<ReminderFields>, userId: int, id: int, ts: Timestamp)
    : (r: Result<Table<ReminderFields>>)
    requires Valid(ReminderEntity, t)
    ensures r.Ok? <==> id in Records(ReminderService(userId), t)
    ensures r.Err? ==> r.error == DoesNotExist
    ensures r.Ok? ==> Valid(ReminderEntity, r.value) && r.value.nextId == t.nextId
    ensures r.Ok? ==> r.value.rows == t.rows[id := t.rows[id].(updatedOn := ts, fields := t.rows[id].fields.(isSent := true))]
  {
    Update(ReminderService(userId), t, id, SetFields((f: ReminderFields) => f.(isSent := true)), ts)
  }

  /** update_notification_task_id: records the job handle on an active
      reminder, through its column's cast. */
  function UpdateNotificationTaskId(t: Table<ReminderFields>, userId: int, id: int, taskId: string, ts: Timestamp)
    : (r: Result<Table<ReminderFields>>)
    requires Valid(ReminderEntity, t)
    ensures id !in Records(ReminderService(userId), t) ==> r == Err(DoesNotExist)
    ensures id in Records(ReminderService(userId), t) ==> (r.Ok? <==> Varchar(taskId, TaskIdMaxLength).Some?)
    ensures id in Records(ReminderService(userId), t) && r.Err? ==> r.error == ValueTooLong
    ensures r.Err? ==> r.error in {DoesNotExist, ValueTooLong}
    ensures r.Ok? ==> Valid(ReminderEntity, r.value) && r.value.nextId == t.nextId
    ensures r.Ok? ==>
              var stored := Varchar(taskId, TaskIdMaxLength).value;
              r.value.rows == t.rows[id := t.rows[id].(updatedOn := ts, fields := t.rows[id].fields.(notificationTaskId := Some(stored)))]
  {
    Update(ReminderService(userId), t, id, SetFields((f: ReminderFields) => f.(notificationTaskId := Some(taskId))), ts)
  }

  /** A listed reminder: the row with its annotated status. */
  datatype Listed = Listed(row: Row<ReminderFields>, status: Status)

  /** get_filtered_records on ReminderService. The annotation adds a column
      row by row, so annotating before or after paging lists the same rows:
      entry i is row i of the store's page with its status. */
  function FilteredReminders(t: Table<ReminderFields>, userId: int, perPage: int, page: int)
    : (r: Result<seq<Listed>>)
    requires Valid(ReminderEntity, t)
    ensures r.Err? <==> 1 <= page && perPage == 0
    ensures page < 1 ==> r == Ok([])
    ensures r.Ok? ==> forall i :: 0 <= i < |r.value| ==>
              && r.value[i].status == StatusOf(r.value[i].row)
              && r.value[i].row.id in t.rows && t.rows[r.value[i].row.id] == r.value[i].row
              && r.value[i].row.userId == Some(userId)
    ensures r.Ok? ==> forall i, j :: 0 <= i < j < |r.value| ==> r.value[i].row.id < r.value[j].row.id
    ensures var rows := FilteredRecords(ReminderService(userId), t, perPage, page);
            && (r.Ok? <==> rows.Ok?)
            && (r.Ok? ==> |r.value| == |rows.value| && forall i :: 0 <= i < |r.value| ==> r.value[i].row == rows.value[i])
  {
    var rows :- FilteredRecords(ReminderService(userId), t, perPage, page);
    Ok(seq(|rows|, i requires 0 <= i < |rows| => Listed(rows[i], StatusOf(rows[i]))))
  }
}
