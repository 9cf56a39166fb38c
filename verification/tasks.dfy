/** The send_reminder background job: fetch the reminder, then mark it sent.
    The logged message is not modelled. */
module Tasks {
  import opened Common
  import opened Models
  import opened Store
  import opened Services

  /** send_reminder(user_id, reminder_id) run at `now`. The lookup raises
      for a reminder that was soft-deleted or belongs to someone else, and
      nothing is written then. */
  function SendReminder(db: Db, userId: int, reminderId: int, now: Timestamp): (r: Result<Db>)
    requires ValidDb(db)
    ensures r.Ok? <==> reminderId in Records(ReminderService(userId), db.reminders)
    ensures r.Err? ==> r.error == DoesNotExist
    ensures r.Ok? ==> ValidDb(r.value) && r.value.users == db.users
    ensures r.Ok? ==>
              && r.value.reminders.nextId == db.reminders.nextId
              && r.value.reminders.rows.Keys == db.reminders.rows.Keys
              && forall id :: id in db.reminders.rows && id != reminderId ==>
                   r.value.reminders.rows[id] == db.reminders.rows[id]
    ensures r.Ok? ==>
              var before := db.reminders.rows[reminderId];
              var after := r.value.reminders.rows[reminderId];
              && after.fields.isSent
              && after.updatedOn == now
              && after.deletedOn == before.deletedOn == None
              && after.id == before.id && after.userId == before.userId && after.createdOn == before.createdOn
              && after.fields.message == before.fields.message
              && after.fields.notificationTaskId == before.fields.notificationTaskId
              && after.fields.reminderTime == before.fields.reminderTime
  {
    var reminder :- GetById(ReminderService(userId), db.reminders, reminderId);
    match UpdateSendStatus(db.reminders, userId, reminderId, now)
    case Err(e) => Err(e)
    case Ok(reminders) => Ok(db.(reminders := reminders))
  }

  /** A sent reminder has status "sent". */
  lemma SendReminderMarksSent(db: Db, userId: int, reminderId: int, now: Timestamp)
    requires ValidDb(db) && SendReminder(db, userId, reminderId, now).Ok?
    ensures StatusOf(SendReminder(db, userId, reminderId, now).value.reminders.rows[reminderId]) == Sent
  {
  }

  /** Firing twice leaves the reminder sent both times; only updated_on
      moves. */
  lemma SendReminderTwice(db: Db, userId: int, reminderId: int, now: Timestamp, later: Timestamp)
    requires ValidDb(db) && SendReminder(db, userId, reminderId, now).Ok?
    ensures var once := SendReminder(db, userId, reminderId, now).value;
            && SendReminder(once, userId, reminderId, later).Ok?
            && var twice := SendReminder(once, userId, reminderId, later).value;
            && StatusOf(once.reminders.rows[reminderId]) == Sent
            && StatusOf(twice.reminders.rows[reminderId]) == Sent
            && twice.reminders.rows[reminderId] == once.reminders.rows[reminderId].(updatedOn := later)
  {
  }

  /** Firing a soft-deleted reminder fails at the lookup and leaves it
      deleted: a cancel that got in first wins. */
  lemma SendReminderAfterDelete(db: Db, userId: int, reminderId: int, now: Timestamp)
    requires ValidDb(db) && reminderId in db.reminders.rows
    requires StatusOf(db.reminders.rows[reminderId]) == Deleted
    ensures SendReminder(db, userId, reminderId, now) == Err(DoesNotExist)
  {
  }
}
