# remind-me reminder lifecycle, modelled in Dafny

This project models the core of a small Django reminder service. A user
schedules a text reminder for a future instant. A background job marks it
sent when it fires. The user may cancel it while the job is still pending.
The model has two layers:

- a generic soft-delete record store (`BaseService`). It scopes records to
  one user, stamps `created_on`/`updated_on`, soft-deletes through
  `deleted_on`, and lists a user's records ordered by id, one page at a time;
- the reminder lifecycle built on that store: the derived status
  (`created`/`sent`/`deleted`), the `send_reminder` job, and the decision logic
  of the list, create and cancel views.

The model is a pure state-transition system. The database is a value `Db`
with two tables. Each table is a `map<int, Row<F>>` keyed by id, plus the
next value of its id sequence. Every operation is a pure function. The
store and service operations and the job return a `Result` (the value, or
the exception the Python code lets escape). The views return an `Outcome`
(the database after the committed steps, the reply and the scheduler
requests), a lifecycle step returns the next `Db`, and the column casts
return an `Option`. Instants
are integers supplied by the caller. The job scheduler is abstract:

- the task id it assigns and the job state it reports are inputs;
- a scheduled job and a revoke request are outputs of a view.

Modules, in dependency order:

| file | module | models |
|---|---|---|
| common.dfy | `Common` | `Option`, `Result`, the escaping exceptions |
| models.dfy | `Models` | `BaseModel`/`User`/`Reminder` columns, varchar bounds and what PostgreSQL stores in them |
| pagination.dfy | `Pagination` | Django's `Paginator` as `get_filtered_records` uses it |
| store.dfy | `Store` | `BaseService` and `UserService` |
| services.dfy | `Services` | `ReminderService` and the database invariant |
| tasks.dfy | `Tasks` | the `send_reminder` job |
| views.dfy | `Views` | request defaults and the three views' decision logic |
| lifecycle.dfy | `Lifecycle` | the whole system as a state machine, with a walk-through |

## Behaviour worth noting

- A job that fires for a reminder cancelled in the meantime raises
  `DoesNotExist` at its lookup, and nothing is written
  (`Tasks.SendReminderAfterDelete`). The reminder stays deleted.
- The cancel view decides on the job state alone. If the scheduler reports
  the job as anything other than SUCCESS, FAILURE or STARTED, the reminder
  is soft-deleted and its job revoked, even when the reminder is already
  sent (`Lifecycle.SentReminderCanBeCancelled`).
- The create path accepts any message that its column can store; an empty
  one is not refused. A missing message is stored as the text `"None"`,
  because the view calls `str(None)`.
- Listing the users table ignores paging. It returns the caller's account
  even when that account is soft-deleted (`Store.UserListingIgnoresPaging`).
- Paging follows Django's `Paginator` (orphans 0, empty first page allowed):
  - page numbers below 1 give an empty list, so the default page 0 lists
    nothing (`Views.DefaultListingIsEmpty`);
  - with a page size of 0, any page from 1 up raises a division by zero
    (`Error.ZeroPageSize`);
  - a negative page size gives no pages.
- Cancelling a reminder that has no task id fails before anything is
  written. Celery's `AsyncResult(None)` raises (`Error.NoTaskId`).
- The database is PostgreSQL (remindme/settings.py:43). Assigning a string
  to a varchar column stores it as it is when it fits and contains no NUL
character (the model does not check for NUL; see below). A longer string is
  cut to the column's length when every character cut off is a space. Any
  other over-long string fails the save, which is rolled back
  (`Error.ValueTooLong`). This covers `message` (255), `notification_task_id`
  (63) and `full_name` (63). So a message of 255 characters plus one
  trailing space is stored without the space (`Views.TrailingSpaceIsCut`).
- Each service call commits on its own. So in the create view, if
  attaching the task id fails, the reminder is still stored with a null
  task id and its job is still scheduled.

## Model

| member | source | states |
|---|---|---|
| Models.Varchar | core/models.py:24-25 | a string that fits is stored as it is; a longer one is accepted iff everything past the limit is spaces, and then the stored value is the longest prefix that fits, the rest being exactly those spaces |
| Models.VarcharSettles | core/models.py:24-25 | storing a stored value again changes nothing, and what was cut off is all spaces |
| Models.CastUser | core/models.py:15 | a users row is stored iff its full_name is accepted, with the stored full_name; a row that fits is stored unchanged |
| Models.CastReminder | core/models.py:23-25 | a reminders row is stored iff its message and (non-null) task id are accepted; the stored row keeps is_sent, reminder_time and the task id's nullness, holds the stored strings and fits its columns; a row that fits is stored unchanged |
| Store.AllRecords | core/serivces.py:21-25 | exactly the rows in the caller's scope, deleted ones included: on the users table the row whose own id is the caller's, elsewhere the rows whose user_id is the caller's |
| Store.Records | core/serivces.py:50-51 | exactly the rows in the caller's scope whose deleted_on is null |
| Store.GetById | core/serivces.py:53-54 | succeeds iff the id is an active row in scope, returning that row; otherwise DoesNotExist, never a null record |
| Store.Create | core/serivces.py:56-69 | a non-user table with an inactive or missing owner fails with DoesNotExist and writes nothing; otherwise it succeeds iff the columns' cast accepts the values, and a refusal is ValueTooLong; on success it inserts under the next sequence id a row with the cast values, created_on = updated_on = timestamp, no deleted_on and the owner's user_id, advances the sequence by one, leaves every other row alone and keeps the table valid |
| Store.Apply | core/serivces.py:75-86 | the saved row has updated_on = timestamp and the changed columns; id, user_id and created_on are kept, and so is deleted_on unless it is the change |
| Store.Update | core/serivces.py:71-86 | fails with DoesNotExist unless the id is active in scope; then succeeds iff the columns' cast accepts the changed row, and a refusal is ValueTooLong; on success only that row changes, to the cast values, and the table stays valid |
| Store.Delete | core/serivces.py:88-92 | succeeds iff the id is active in scope, and then sets deleted_on = updated_on = timestamp on that row only |
| Store.OrderedRows | core/serivces.py:40 | lists every row of the scope exactly once in strictly ascending id order |
| Store.FilteredRecords | core/serivces.py:33-48 | the users table returns its id-ordered scope and never fails; elsewhere an existing page p is the slice [(p-1)*size, min(p*size, count)) of the caller's id-ordered scope (deleted rows included), any other page is empty, and it fails iff page >= 1 with page size 0 |
| Store.CreatedRecordIsActive | core/serivces.py:64-69 | a created reminder-like record is immediately found by its creator's lookup, active, with created_on = updated_on = timestamp and the values as stored by the columns (unchanged when they fit) |
| Store.DeleteHidesOnlyThatRecord | core/serivces.py:88-92 | after a delete, get_records lists exactly what it listed before minus the deleted id |
| Store.DeleteTwiceFails | core/serivces.py:88-92 | a second delete of the same id fails with DoesNotExist |
| Store.UpdateKeepsDeletedRows | core/serivces.py:77-86 | an update leaves every soft-deleted row exactly as it was, so deleted_on is never cleared |
| Store.UserScopeIsOwnAccount | core/serivces.py:21-23 | the users table's scope is the caller's own account or nothing |
| Store.UserListingIgnoresPaging | core/serivces.py:36-37 | listing the users table returns the caller's account (deleted or not) or nothing, for every page size and page number |
| Store.FirstPageListsWholeScope | core/serivces.py:39-46 | with a page size covering every issued id, page 1 lists every row in scope, soft-deleted ones included |
| Store.ListingWalksWholeScope | core/serivces.py:39-46 | walking a reminder-style listing from page 1 to num_pages lists the caller's whole scope in ascending id order, every row (deleted ones included) exactly once |
| Pagination.NumPages | core/serivces.py:43 | the page count is the ceiling of max(1, count) / page size, and is at most 0 for a negative page size |
| Pagination.Page | core/serivces.py:43-48 | page p of an existing range is the slice [(p-1)*size, min(p*size, count)); any other page is empty, except that a page size of 0 raises for p >= 1; no page is longer than the page size |
| Pagination.FirstPagesArePrefix | core/serivces.py:43-46 | pages 1..k laid end to end are the first min(k*size, count) items |
| Pagination.PagesCoverItems | core/serivces.py:43-46 | pages 1..num_pages laid end to end are exactly the listed items, none skipped or repeated |
| Services.StatusOf | core/serivces.py:107-124 | the status is never "unknown"; it is deleted iff deleted_on is set, sent iff not deleted and is_sent, created iff not deleted and not is_sent |
| Services.CreateReminder | core/views.py:48-51 | fails with DoesNotExist if the owner is not an active user; otherwise succeeds iff the message column accepts the message, and a refusal is ValueTooLong; the new reminder takes the next id, is owned by the caller, stamped with the timestamp, has status created, the stored message and no task id; it is the only row added, the sequence advances by one and the database invariant holds |
| Services.UpdateSendStatus | core/serivces.py:126-129 | succeeds iff the reminder is active in scope, and then changes only its is_sent (to true) and updated_on |
| Services.UpdateNotificationTaskId | core/serivces.py:131-138 | DoesNotExist unless active in scope; then succeeds iff the task id column accepts the id, a refusal being ValueTooLong; on success only that reminder's task id (to the stored value) and updated_on change |
| Services.FilteredReminders | core/serivces.py:39-41 | fails exactly when the store's page fails; entry i is row i of the store's page with its derived status, so the same rows in the same order; page < 1 is empty |
| Tasks.SendReminder | core/tasks.py:13-24 | succeeds iff the reminder is active in the user's scope; then it sets is_sent and updated_on = now, keeps deleted_on null and every other column, and changes no other row and no user |
| Tasks.SendReminderMarksSent | core/tasks.py:22-24 | after a successful send the reminder's status is sent |
| Tasks.SendReminderTwice | core/tasks.py:22-24 | a second send also succeeds, status stays sent, and only updated_on changes |
| Tasks.SendReminderAfterDelete | core/tasks.py:18 | sending a deleted reminder fails with DoesNotExist |
| Views.GetRemindersView | core/views.py:16-32 | fails iff page >= 1 with page size 0; a page below 1 is empty; entry i is the created_on, updated_on, message and status label of row i of the store's page for the requested user, page size and page |
| Views.CreateReminderView | core/views.py:36-64 | a job is scheduled iff the owner is active and the message column accepts the message; an inactive owner (DoesNotExist) or a refused message (ValueTooLong) changes nothing; when scheduled, the job carries the task id, user, new id and reminder time, the new reminder is the only row added and the id sequence advances by one, the reminder has status created, created_on = updated_on = now and the stored message, and the reply is Done iff the task id column accepts the id, the task id then being attached; otherwise the reply is ValueTooLong and the reminder keeps a null task id |
| Views.DeleteReminderView | core/views.py:68-109 | a missing, deleted or foreign reminder fails with DoesNotExist before the job state is read; no task id raises; SUCCESS/FAILURE gives REMINDER_COMPLETE and STARTED gives REMINDER_IN_PROGRESS, both with nothing written and nothing revoked; any other state sets deleted_on = updated_on = now on that reminder only and revokes its task, and revoking happens only then |
| Views.DefaultListingIsEmpty | core/views.py:19-22 | a request without parameters lists user 1, 100 per page, page 0, sorted by "id", and that listing is empty |
| Views.CreateIgnoresUserIdKey | core/views.py:40 | the create view reads the owner from "user_id": a request naming only "userId" schedules the job for user 1 |
| Views.CancelWithoutRecordIdFails | core/views.py:72-77 | a cancel without recordId looks up -1 and fails with DoesNotExist, changing nothing |
| Views.TrailingSpaceIsCut | core/views.py:48-64 | a 255-character message plus one trailing space is stored without the space and the create view replies Done |
| Lifecycle.Next | core/models.py:22-25 | every transition keeps both tables valid, the foreign key and the varchar bounds; it never removes a reminder and never touches users |
| Lifecycle.DeletedIsFrozen | core/serivces.py:77-81 | no transition changes any column of a soft-deleted reminder |
| Lifecycle.NoReturnToCreated | core/serivces.py:110-121 | a reminder that is sent or deleted is never created again after a transition, and a deleted one stays deleted |
| Lifecycle.RunKeepsTerminalStates | core/serivces.py:110-121 | over any sequence of transitions a reminder is never removed, a deleted reminder keeps every column, and one that left created never returns to it |
| Lifecycle.ScheduledJobFindsItsReminder | core/views.py:48-53 | the job the create view schedules, fired straight away, finds its reminder and leaves it sent, even when attaching the task id failed |
| Lifecycle.CancelRevokesAttachedJob | core/views.py:55-59 | after a create that attached its task id, a cancel of the new reminder while its job has not started is accepted and revokes exactly that task id |
| Lifecycle.CancelThenFire | core/tasks.py:18 | after a cancel that soft-deleted the reminder, the job's send fails with DoesNotExist and the reminder stays deleted |
| Lifecycle.CancelTwice | core/views.py:77 | a second cancel of the same reminder fails at the lookup, whatever the job state, and changes nothing |
| Lifecycle.SentReminderCanBeCancelled | core/views.py:83-104 | a sent reminder whose job reads as pending is soft-deleted and its job revoked |
| Lifecycle.CreateFireCancelWalkthrough | core/views.py:48-91 | create "Pay rent" for user 1 → id 1 with job "job-abc"; page 1 lists it as created; firing succeeds; page 1 lists it as sent; a cancel that finds the job finished is refused as complete |

## Left out

- Models.Varchar: does not refuse strings containing the NUL character.
  PostgreSQL text columns cannot hold it, so in the source such a message
  or task id makes the save raise, and nothing is stored or scheduled. The
  model would store it. Strings here are plain character sequences with no
  encoding, and the refusal is a different error from a too-long value.
- Views.CreateReminderView: inherits the `Models.Varchar` gap above. A
  message containing a NUL character is stored and its job scheduled,
  where the source raises at the insert and schedules nothing.
- HTTP request parsing, DRF responses and URL routing: a view's inputs are
  already-converted parameters (`Request`), and its reply is a `Reply`. A
  parameter that `int()` cannot parse is not modelled.
- `datetime.strptime` on `reminderTime` and `timezone.now()`: both instants
  are integer parameters, so a malformed reminder time is not modelled.
- Celery's `apply_async`, `AsyncResult.state` and `revoke`: the task id and
  the job state are inputs, and the scheduled job and the revoked task id
  are outputs.
- The log line in `send_reminder`: it has no effect on state.
- `transaction.atomic` and concurrency: every service call is an atomic,
  sequential step. Races are modelled only as orderings of whole steps
  (`Lifecycle.CancelThenFire`). The cancel view reads the job state twice
  (core/views.py:83 and 93); the model takes one state for both. In the
  source, a job that moves from STARTED to SUCCESS between the two reads
  passes both tests, so the reminder is soft-deleted and the finished job
  revoked; the model does not show that interleaving.
- Ordering by a caller-chosen `sortBy` field: `sortBy` is read, but the
  order is always by id. A dynamic ORM field lookup has no faithful finite
  model.
- `UserService._filter_records`: it is never reached, because the users
  table returns early from `get_filtered_records`.
- The `if not active_record` branch of `update_record`: it is unreachable,
  since `.get` raises instead of returning nothing.
- Id sequence gaps: an insert that PostgreSQL rolls back still consumes a
  sequence value. The model advances `nextId` only on success, so ids are
  fresh and increasing, but their exact values after a failed insert are not
  modelled.
- Floating-point `ceil` in `num_pages`: the page count is computed exactly.
- core/migrations/0001_initial.py is not part of this model. It is a
  generated schema that lacks `notification_task_id` and `reminder_time`.
- remindme/settings.py beyond its choice of PostgreSQL, and the
  `services`/`serivces` import-name mismatch: these are configuration and
  packaging, not behaviour.
- `UserService` creating accounts is covered only by the generic
  `Store.Create` (no view calls it). Provisioning accounts is outside the
  service.
