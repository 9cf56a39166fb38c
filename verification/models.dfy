/** The column sets of the two tables: BaseModel's bookkeeping columns, which
    every row has, and the per-model columns of User and Reminder. */
module Models {
  import opened Common

  /** Instants are abstract: only equality between them matters here. */
  type Timestamp = int

  const FullNameMaxLength: nat := 63
  const MessageMaxLength: nat := 255
  const TaskIdMaxLength: nat := 63

  /** One row of a table. `id`, `createdOn` and `updatedOn` are required;
      `deletedOn` is the nullable soft-delete marker. `userId` is the user_id
      foreign key: absent on the users table itself, present on every other
      table. `fields` holds the model's own columns. */
  datatype Row<F> = Row(
    id: int,
    userId: Option<int>,
    createdOn: Timestamp,
    updatedOn: Timestamp,
    deletedOn: Option<Timestamp>,
    fields: F)
  {
    /** A row is active while its soft-delete marker is null. */
    predicate Active() {
      deletedOn.None?
    }
  }

  datatype UserFields = UserFields(fullName: string)

  datatype ReminderFields = ReminderFields(
    isSent: bool,
    message: string,
    notificationTaskId: Option<string>,
    reminderTime: Timestamp)

  /** The values the users table's varchar columns hold. */
  predicate UserFits(f: UserFields) {
    |f.fullName| <= FullNameMaxLength
  }

  /** The values the reminders table's varchar columns hold; the task id
      column is nullable. */
  predicate ReminderFits(f: ReminderFields) {
    && |f.message| <= MessageMaxLength
    && (f.notificationTaskId.Some? ==> |f.notificationTaskId.value| <= TaskIdMaxLength)
  }

  predicate AllSpaces(s: string) {
    forall i :: 0 <= i < |s| ==> s[i] == ' '
  }

  /** PostgreSQL's assignment of a string to a varchar(max) column: a string
      that fits is stored as it is; a longer one is cut to `max` characters
      when everything cut off is spaces, and fails the save otherwise. */
  function Varchar(s: string, max: nat): (r: Option<string>)
    ensures r.Some? <==> |s| <= max || AllSpaces(s[max..])
    ensures |s| <= max ==> r == Some(s)
    ensures r.Some? ==> |r.value| == Min(|s|, max) && s == r.value + s[|r.value|..]
  {
    if |s| <= max then Some(s)
    else if AllSpaces(s[max..]) then Some(s[..max])
    else None
  }

  /** Casting a stored value again changes nothing: the cut is made once. */
  lemma VarcharSettles(s: string, max: nat)
    requires Varchar(s, max).Some?
    ensures Varchar(Varchar(s, max).value, max) == Varchar(s, max)
    ensures AllSpaces(s[|Varchar(s, max).value|..])
  {
  }

  /** The row the users table stores for `f`, if its save succeeds. */
  function CastUser(f: UserFields): (r: Option<UserFields>)
    ensures r.Some? <==> Varchar(f.fullName, FullNameMaxLength).Some?
    ensures r.Some? ==> UserFits(r.value) && r.value.fullName == Varchar(f.fullName, FullNameMaxLength).value
    ensures UserFits(f) ==> r == Some(f)
  {
    match Varchar(f.fullName, FullNameMaxLength)
    case None => None
    case Some(name) => Some(UserFields(name))
  }

  /** The row the reminders table stores for `f`, if its save succeeds: each
      varchar column goes through the assignment cast, a null task id stays
      null, and the other columns are kept. */
  function CastReminder(f: ReminderFields): (r: Option<ReminderFields>)
    ensures r.Some? <==>
              && Varchar(f.message, MessageMaxLength).Some?
              && (f.notificationTaskId.Some? ==> Varchar(f.notificationTaskId.value, TaskIdMaxLength).Some?)
    ensures r.Some? ==>
              && ReminderFits(r.value)
              && r.value.isSent == f.isSent
              && r.value.reminderTime == f.reminderTime
              && r.value.message == Varchar(f.message, MessageMaxLength).value
              && (r.value.notificationTaskId.Some? <==> f.notificationTaskId.Some?)
              && (f.notificationTaskId.Some? ==>
                    r.value.notificationTaskId.value == Varchar(f.notificationTaskId.value, TaskIdMaxLength).value)
    ensures ReminderFits(f) ==> r == Some(f)
  {
    match Varchar(f.message, MessageMaxLength)
    case None => None
    case Some(message) =>
      match f.notificationTaskId
      case None => Some(f.(message := message))
      case Some(taskId) =>
        match Varchar(taskId, TaskIdMaxLength)
        case None => None
        case Some(stored) => Some(f.(message := message, notificationTaskId := Some(stored)))
  }

  /** The columns of a reminder created from only a message and a reminder
      time: the remaining columns take their model defaults. */
  function NewReminderFields(message: string, reminderTime: Timestamp): ReminderFields {
    ReminderFields(false, message, None, reminderTime)
  }
}
