/** BaseService and its subclasses, as one module over an entity
    descriptor: a soft-delete record store over one table, scoped to one
    user. */
module Store {
  import opened Common
  import opened Models
  import opened Pagination

  /** What a service knows about its model: whether it is the users table
      (scoped by the row's own id instead of by user_id), which column values
      a stored row holds, and what the database stores when a save assigns
      `f` to the columns (nothing when the save fails). */
  datatype Entity<!F> = Entity(isUserTable: bool, fits: F -> bool, cast: F -> Option<F>)

  /** A table: rows by primary key, and the next value of the id sequence. */
  datatype Table<F> = Table(rows: map<int, Row<F>>, nextId: int)

  /** A service instance: the user on whose behalf it acts, and its model. */
  datatype Service<!F> = Service(userId: int, entity: Entity<F>)

  const UserEntity: Entity<UserFields> := Entity(true, UserFits, CastUser)

  /** UserService(user_id). */
  function UserService(userId: int): Service<UserFields> {
    Service(userId, UserEntity)
  }

  /** What the database guarantees of a stored table: keys are the rows' ids
      and were handed out by the id sequence, every varchar fits its column,
      and a row has a user_id exactly when the table is not the users table. */
  ghost predicate Valid<F(!new)>(e: Entity<F>, t: Table<F>) {
    && Coherent(e)
    && t.nextId >= 1
    && forall id :: id in t.rows ==>
         && 1 <= id < t.nextId
         && t.rows[id].id == id
         && e.fits(t.rows[id].fields)
         && (t.rows[id].userId.Some? <==> !e.isUserTable)
  }

  /** The cast agrees with the column limits: what it stores fits, and a
      value that already fits is stored as it is. */
  ghost predicate Coherent<F(!new)>(e: Entity<F>) {
    forall f {:trigger e.cast(f)} ::
      && (e.cast(f).Some? ==> e.fits(e.cast(f).value))
      && (e.fits(f) ==> e.cast(f) == Some(f))
  }

  /** The owner scope of __get_all_records. */
  predicate Owned<F>(svc: Service<F>, row: Row<F>) {
    if svc.entity.isUserTable then row.id == svc.userId else row.userId == Some(svc.userId)
  }

  /** __get_all_records: every row in the caller's scope, deleted or not. */
  function AllRecords<F>(svc: Service<F>, t: Table<F>): (m: map<int, Row<F>>)
    ensures forall id :: id in m <==> id in t.rows && Owned(svc, t.rows[id])
    ensures forall id :: id in m ==> m[id] == t.rows[id]
  {
    map id | id in t.rows && Owned(svc, t.rows[id]) :: t.rows[id]
  }

  /** get_records: the rows in the caller's scope that are not soft-deleted. */
  function Records<F>(svc: Service<F>, t: Table<F>): (m: map<int, Row<F>>)
    ensures forall id :: id in m <==> id in t.rows && Owned(svc, t.rows[id]) && t.rows[id].Active()
    ensures forall id :: id in m ==> m[id] == t.rows[id]
  {
    var all := AllRecords(svc, t);
    map id | id in all && all[id].Active() :: all[id]
  }

  /** get_record_by_id: `.get(id=...)` on get_records, which raises
      DoesNotExist for an id that is absent, soft-deleted or out of scope.
      It never returns a null record. */
  function GetById<F>(svc: Service<F>, t: Table<F>, id: int): (r: Result<Row<F>>)
    ensures r.Ok? <==> id in t.rows && Owned(svc, t.rows[id]) && t.rows[id].Active()
    ensures r.Ok? ==> r.value == t.rows[id]
    ensures r.Err? ==> r.error == DoesNotExist
  {
    var active := Records(svc, t);
    if id in active then Ok(active[id]) else Err(DoesNotExist)
  }

  /** The lookup create_record makes for every table but users: UserService
      finds the caller's own account among the active users. */
  predicate ActiveUser(users: Table<UserFields>, userId: int) {
    && userId in users.rows
    && users.rows[userId].id == userId
    && users.rows[userId].Active()
  }

  /** The user_id a created row receives: none on the users table, the
      caller's own id otherwise. */
  function OwnerColumn<F>(svc: Service<F>): Option<int> {
    if svc.entity.isUserTable then None else Some(svc.userId)
  }

  datatype NewRecord<F> = NewRecord(table: Table<F>, id: int)

  /** create_record: look up the owner in `users` (unless this is the users
      table), stamp created_on and updated_on, insert under the next sequence
      id. */
  function Create<F(!new)>(svc: Service<F>, t: Table<F>, users: Table<UserFields>, fields: F, ts: Timestamp)
    : (r: Result<NewRecord<F>>)
    requires Valid(svc.entity, t)
    ensures !svc.entity.isUserTable && !ActiveUser(users, svc.userId) ==> r == Err(DoesNotExist)
    ensures (svc.entity.isUserTable || ActiveUser(users, svc.userId)) ==>
              (r.Ok? <==> svc.entity.cast(fields).Some?)
    ensures (svc.entity.isUserTable || ActiveUser(users, svc.userId)) && r.Err? ==> r.error == ValueTooLong
    ensures r.Err? ==> r.error in {DoesNotExist, ValueTooLong}
    ensures r.Ok? ==>
              && r.value.id == t.nextId && r.value.id !in t.rows
              && r.value.table.nextId == t.nextId + 1
              && r.value.table.rows ==
                 t.rows[r.value.id := Row(r.value.id, OwnerColumn(svc), ts, ts, None, svc.entity.cast(fields).value)]
              && Valid(svc.entity, r.value.table)
  {
    var owner :- if svc.entity.isUserTable then Ok(None) else
                   var user :- GetById(UserService(svc.userId), users, svc.userId);
                   Ok(Some(user.id));
    match svc.entity.cast(fields)
    case None => Err(ValueTooLong)
    case Some(stored) =>
      var id := t.nextId;
      Ok(NewRecord(Table(t.rows[id := Row(id, owner, ts, ts, None, stored)], t.nextId + 1), id))
  }

  /** The field assignments an update_record call carries besides its
      updated_on stamp: either model columns, or the soft-delete marker. */
  datatype Change<!F> = SetFields(edit: F -> F) | SetDeletedOn(at: Timestamp)

  /** The row update_record saves: updated_on stamped, the change applied,
      every other column as it was. */
  function Apply<F>(row: Row<F>, change: Change<F>, ts: Timestamp): (r: Row<F>)
    ensures r.id == row.id && r.userId == row.userId && r.createdOn == row.createdOn
    ensures r.updatedOn == ts
    ensures change.SetFields? ==> r.deletedOn == row.deletedOn && r.fields == change.edit(row.fields)
    ensures change.SetDeletedOn? ==> r.deletedOn == Some(change.at) && r.fields == row.fields
  {
    match change
    case SetFields(edit) => row.(updatedOn := ts, fields := edit(row.fields))
    case SetDeletedOn(at) => row.(updatedOn := ts, deletedOn := Some(at))
  }

  /** update_record: fetch the active row (DoesNotExist otherwise), apply the
      change, save through the columns' cast. A save that fails leaves the
      table as it was. */
  function Update<F(!new)>(svc: Service<F>, t: Table<F>, id: int, change: Change<F>, ts: Timestamp)
    : (r: Result<Table<F>>)
    requires Valid(svc.entity, t)
    ensures id !in Records(svc, t) ==> r == Err(DoesNotExist)
    ensures id in Records(svc, t) ==> (r.Ok? <==> svc.entity.cast(Apply(t.rows[id], change, ts).fields).Some?)
    ensures id in Records(svc, t) && r.Err? ==> r.error == ValueTooLong
    ensures r.Err? ==> r.error in {DoesNotExist, ValueTooLong}
    ensures r.Ok? ==>
              && r.value.nextId == t.nextId
              && var saved := Apply(t.rows[id], change, ts);
              && r.value.rows == t.rows[id := saved.(fields := svc.entity.cast(saved.fields).value)]
              && Valid(svc.entity, r.value)
  {
    var active :- GetById(svc, t, id);
    var saved := Apply(active, change, ts);
    match svc.entity.cast(saved.fields)
    case None => Err(ValueTooLong)
    case Some(stored) => Ok(Table(t.rows[id := saved.(fields := stored)], t.nextId))
  }

  /** delete_record: an update whose only change is deleted_on := ts. */
  function Delete<F(!new)>(svc: Service<F>, t: Table<F>, id: int, ts: Timestamp): (r: Result<Table<F>>)
    requires Valid(svc.entity, t)
    ensures r.Ok? <==> id in Records(svc, t)
    ensures r.Err? ==> r.error == DoesNotExist
    ensures r.Ok? ==>
              && r.value.rows == t.rows[id := t.rows[id].(updatedOn := ts, deletedOn := Some(ts))]
              && r.value.nextId == t.nextId
              && Valid(svc.entity, r.value)
  {
    Update(svc, t, id, SetDeletedOn(ts), ts)
  }

  /** The map's keys are the ids of the rows they hold. */
  predicate KeyedById<F>(m: map<int, Row<F>>) {
    forall id :: id in m ==> m[id].id == id
  }

  /** `.order_by("id")` over the ids lo..hi-1: the rows of the map whose ids
      fall in that range, in ascending id order, each exactly once. */
  function OrderedRows<F>(m: map<int, Row<F>>, lo: int, hi: int): (r: seq<Row<F>>)
    requires KeyedById(m)
    ensures forall i :: 0 <= i < |r| ==> r[i].id in m && m[r[i].id] == r[i] && lo <= r[i].id < hi
    ensures forall id :: id in m && lo <= id < hi ==> m[id] in r
    ensures forall i, j :: 0 <= i < j < |r| ==> r[i].id < r[j].id
    ensures |r| <= if lo < hi then hi - lo else 0
    decreases hi - lo
  {
    if hi <= lo then []
    else
      var rest := OrderedRows(m, lo + 1, hi);
      if lo in m then [m[lo]] + rest else rest
  }

  /** The caller's whole scope, deleted rows included, ordered by id. */
  function OrderedScope<F>(svc: Service<F>, t: Table<F>): (r: seq<Row<F>>)
    requires KeyedById(t.rows)
    ensures forall i :: 0 <= i < |r| ==> r[i].id in t.rows && t.rows[r[i].id] == r[i] && Owned(svc, r[i])
    ensures forall id :: id in t.rows && Owned(svc, t.rows[id]) && 1 <= id < t.nextId ==> t.rows[id] in r
    ensures forall i, j :: 0 <= i < j < |r| ==> r[i].id < r[j].id
  {
    OrderedRows(AllRecords(svc, t), 1, t.nextId)
  }

  /** get_filtered_records with the ordering fixed to id. The users table
      returns its scope unpaged and without the deleted filter; every other
      table pages its id-ordered scope: an existing page is its slice of
      that scope, any other page is empty, and a zero page size fails once
      the page number is at least 1. */
  function FilteredRecords<F(!new)>(svc: Service<F>, t: Table<F>, perPage: int, page: int)
    : (r: Result<seq<Row<F>>>)
    requires Valid(svc.entity, t)
    ensures r.Ok? ==> forall i :: 0 <= i < |r.value| ==>
              r.value[i].id in t.rows && t.rows[r.value[i].id] == r.value[i] && Owned(svc, r.value[i])
    ensures r.Ok? ==> forall i, j :: 0 <= i < j < |r.value| ==> r.value[i].id < r.value[j].id
    ensures svc.entity.isUserTable ==> r == Ok(OrderedScope(svc, t))
    ensures !svc.entity.isUserTable ==> (r.Err? <==> 1 <= page && perPage == 0)
    ensures !svc.entity.isUserTable && page < 1 ==> r == Ok([])
    ensures !svc.entity.isUserTable ==>
              var all := OrderedScope(svc, t);
              && (InRange(|all|, perPage, page) ==>
                    r == Ok(all[PageStart(|all|, perPage, page)..PageEnd(|all|, perPage, page)]))
              && (!InRange(|all|, perPage, page) && perPage != 0 ==> r == Ok([]))
  {
    var ordered := OrderedScope(svc, t);
    if svc.entity.isUserTable then Ok(ordered)
    else
      PageOfOrderedScope(svc, t, perPage, page);
      Page(ordered, perPage, page)
  }

  /** A page of the id-ordered scope holds scoped rows, ascending by id. */
  lemma PageOfOrderedScope<F(!new)>(svc: Service<F>, t: Table<F>, perPage: int, page: int)
    requires Valid(svc.entity, t)
    ensures var r := Page(OrderedScope(svc, t), perPage, page);
            r.Ok? ==>
              && (forall i :: 0 <= i < |r.value| ==>
                    r.value[i].id in t.rows && t.rows[r.value[i].id] == r.value[i] && Owned(svc, r.value[i]))
              && (forall i, j :: 0 <= i < j < |r.value| ==> r.value[i].id < r.value[j].id)
  {
  }

  /** Pages 1..k of a listing, laid end to end. */
  function ListedPages<F(!new)>(svc: Service<F>, t: Table<F>, perPage: int, k: nat): seq<Row<F>>
    requires Valid(svc.entity, t) && !svc.entity.isUserTable && perPage > 0
  {
    if k == 0 then [] else ListedPages(svc, t, perPage, k - 1) + FilteredRecords(svc, t, perPage, k).value
  }

  lemma {:induction false} ListedPagesArePages<F(!new)>(svc: Service<F>, t: Table<F>, perPage: int, k: nat)
    requires Valid(svc.entity, t) && !svc.entity.isUserTable && perPage > 0
    requires k <= NumPages(|OrderedScope(svc, t)|, perPage)
    ensures ListedPages(svc, t, perPage, k) == FirstPages(OrderedScope(svc, t), perPage, k)
  {
    if k > 0 {
      ListedPagesArePages(svc, t, perPage, k - 1);
    }
  }

  /** Walking a listing from page 1 to num_pages visits the caller's whole
      scope in id order: every row, deleted ones included, on exactly one
      page, and nothing else. */
  lemma ListingWalksWholeScope<F(!new)>(svc: Service<F>, t: Table<F>, perPage: int)
    requires Valid(svc.entity, t) && !svc.entity.isUserTable && perPage > 0
    ensures var walked := ListedPages(svc, t, perPage, NumPages(|OrderedScope(svc, t)|, perPage));
            && walked == OrderedScope(svc, t)
            && (forall id :: id in t.rows && Owned(svc, t.rows[id]) ==> t.rows[id] in walked)
            && (forall i, j :: 0 <= i < j < |walked| ==> walked[i].id < walked[j].id)
  {
    var all := OrderedScope(svc, t);
    ListedPagesArePages(svc, t, perPage, NumPages(|all|, perPage));
    PagesCoverItems(all, perPage);
  }

  /** A created row is active and visible to its creator's service at once
      (for every table scoped by user_id), holding the values given to it
      as far as its columns keep them. */
  lemma CreatedRecordIsActive<F(!new)>(svc: Service<F>, t: Table<F>, users: Table<UserFields>, fields: F, ts: Timestamp)
    requires Valid(svc.entity, t) && !svc.entity.isUserTable
    requires Create(svc, t, users, fields, ts).Ok?
    ensures var c := Create(svc, t, users, fields, ts).value;
            && GetById(svc, c.table, c.id).Ok?
            && var row := GetById(svc, c.table, c.id).value;
               && row.createdOn == ts && row.updatedOn == ts && row.Active()
               && row.fields == svc.entity.cast(fields).value
               && (svc.entity.fits(fields) ==> row.fields == fields)
  {
  }

  /** Deleting hides exactly the deleted row from get_records. */
  lemma DeleteHidesOnlyThatRecord<F(!new)>(svc: Service<F>, t: Table<F>, id: int, ts: Timestamp)
    requires Valid(svc.entity, t) && Delete(svc, t, id, ts).Ok?
    ensures Records(svc, Delete(svc, t, id, ts).value).Keys == Records(svc, t).Keys - {id}
  {
  }

  /** A second delete of the same id fails: the first made it inactive. */
  lemma DeleteTwiceFails<F(!new)>(svc: Service<F>, t: Table<F>, id: int, ts: Timestamp, ts': Timestamp)
    requires Valid(svc.entity, t) && Delete(svc, t, id, ts).Ok?
    ensures Delete(svc, Delete(svc, t, id, ts).value, id, ts') == Err(DoesNotExist)
  {
  }

  /** Nothing the store does clears or moves a soft-delete marker: a deleted
      row survives every update untouched. */
  lemma UpdateKeepsDeletedRows<F(!new)>(svc: Service<F>, t: Table<F>, id: int, change: Change<F>, ts: Timestamp, k: int)
    requires Valid(svc.entity, t) && Update(svc, t, id, change, ts).Ok?
    requires k in t.rows && !t.rows[k].Active()
    ensures k in Update(svc, t, id, change, ts).value.rows
    ensures Update(svc, t, id, change, ts).value.rows[k] == t.rows[k]
  {
  }

  /** The users table's scope is at most the caller's own account. */
  lemma UserScopeIsOwnAccount(users: Table<UserFields>, userId: int)
    requires Valid(UserEntity, users)
    ensures AllRecords(UserService(userId), users).Keys <= {userId}
    ensures userId in users.rows ==> AllRecords(UserService(userId), users) == map[userId := users.rows[userId]]
  {
    var scope := AllRecords(UserService(userId), users);
    forall k | k in scope
      ensures k == userId
    {
      assert users.rows[k].id == k;
    }
  }

  /** Listing the users table ignores page size and page number, and returns
      the caller's account even when it is soft-deleted. */
  lemma UserListingIgnoresPaging(users: Table<UserFields>, userId: int, perPage: int, page: int)
    requires Valid(UserEntity, users)
    ensures userId in users.rows ==> FilteredRecords(UserService(userId), users, perPage, page) == Ok([users.rows[userId]])
    ensures userId !in users.rows ==> FilteredRecords(UserService(userId), users, perPage, page) == Ok([])
  {
    var scope := AllRecords(UserService(userId), users);
    UserScopeIsOwnAccount(users, userId);
    if userId in users.rows {
      OrderedSingleton(users.rows[userId], 1, users.nextId);
    } else {
      assert scope == map[];
      OrderedEmpty(scope, 1, users.nextId);
    }
  }

  lemma {:induction false} OrderedSingleton<F>(row: Row<F>, lo: int, hi: int)
    ensures OrderedRows(map[row.id := row], lo, hi) == if lo <= row.id < hi then [row] else []
    decreases hi - lo
  {
    if lo < hi {
      OrderedSingleton(row, lo + 1, hi);
    }
  }

  lemma {:induction false} OrderedEmpty<F>(m: map<int, Row<F>>, lo: int, hi: int)
    requires m == map[]
    ensures OrderedRows(m, lo, hi) == []
    decreases hi - lo
  {
    if lo < hi {
      OrderedEmpty(m, lo + 1, hi);
    }
  }

  /** With a page size covering every id issued, page 1 lists the caller's
      whole scope, soft-deleted rows included. */
  lemma FirstPageListsWholeScope<F(!new)>(svc: Service<F>, t: Table<F>, perPage: int)
    requires Valid(svc.entity, t) && !svc.entity.isUserTable
    requires perPage > 0 && perPage >= t.nextId - 1
    ensures FilteredRecords(svc, t, perPage, 1).Ok?
    ensures forall id :: id in t.rows && Owned(svc, t.rows[id]) ==>
              t.rows[id] in FilteredRecords(svc, t, perPage, 1).value
  {
  }
}
