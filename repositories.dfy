// octavia/db/repositories.py: the repository methods over a database
// session. A Session holds every table's rows; each method reads or rewrites
// them the way the SQL statements the source issues would, including the
// integrity errors the database raises.

module Repositories {
  import opened Values
  import opened Models

  // ------------------------------------------------------------ queries

  /** `filter_by(**filters)`: every filter column equals its value (None means IS NULL). */
  predicate Matches(row: Row, filters: Dict)
  {
    forall c :: c in filters ==> DictGet(row, c) == filters[c]
  }

  /** The position `.first()` returns: the earliest matching row. */
  function FirstIndex(rows: seq<Row>, filters: Dict): (r: Option<nat>)
    ensures r.Some? ==> r.value < |rows| && Matches(rows[r.value], filters)
    ensures r.Some? ==> forall j :: 0 <= j < r.value ==> !Matches(rows[j], filters)
    ensures r.None? <==> forall j :: 0 <= j < |rows| ==> !Matches(rows[j], filters)
  {
    if rows == [] then None
    else if Matches(rows[0], filters) then Some(0)
    else match FirstIndex(rows[1..], filters)
      case None => None
      case Some(k) => Some(k + 1)
  }

  /** `filter_by(**filters).first()`. */
  function FirstMatch(rows: seq<Row>, filters: Dict): Option<Row>
  {
    match FirstIndex(rows, filters)
    case None => None
    case Some(i) => Some(rows[i])
  }

  /** `filter_by(**filters).all()`: the matching rows in query order. */
  function AllMatches(rows: seq<Row>, filters: Dict): (r: seq<Row>)
    ensures |r| <= |rows|
    ensures forall x :: x in r <==> x in rows && Matches(x, filters)
  {
    if rows == [] then []
    else
      var init, last := rows[..|rows| - 1], rows[|rows| - 1];
      assert rows == init + [last];
      AllMatches(init, filters) + (if Matches(last, filters) then [last] else [])
  }

  /** The one-column filter `filter_by(column=v)`. */
  function By(column: string, v: Value): Dict
  {
    map[column := v]
  }

  /**
   * The column a repository's `update` filters on: VipRepository,
   * HealthMonitorRepository, SessionPersistenceRepository and
   * ListenerStatisticsRepository override BaseRepository's `id`.
   */
  function KeyColumn(t: Table): string
  {
    match t
    case VipT => LOAD_BALANCER_ID
    case HealthMonitorT => POOL_ID
    case SessionPersistenceT => POOL_ID
    case ListenerStatisticsT => LISTENER_ID
    case _ => ID
  }

  /** The row a relationship attribute reaches: None for a NULL link, else the first row whose `column` is `v`. */
  function Related(tables: Tables, t: Table, column: string, v: Value): Option<Row>
    requires t in tables
  {
    if v == VNone then None else FirstMatch(tables[t], By(column, v))
  }

  // ------------------------------------------------------------ writes

  /** What one repository call returns and the tables it leaves behind. */
  datatype Outcome<T> = Outcome(result: Result<T>, tables: Tables)

  /** The row a model constructor builds: IdMixin fills a missing `id` with a fresh UUID. */
  function NewRow(t: Table, kwargs: Row, freshId: string): (row: Row)
    ensures SchemaOf(t).idDefault && DictGet(kwargs, ID) == VNone ==> row == kwargs[ID := VStr(freshId)]
    ensures !(SchemaOf(t).idDefault && DictGet(kwargs, ID) == VNone) ==> row == kwargs
  {
    if SchemaOf(t).idDefault && DictGet(kwargs, ID) == VNone then kwargs[ID := VStr(freshId)] else kwargs
  }

  /**
   * The error the model class's constructor raises on `row`, before anything
   * reaches the database: TypeError for a keyword that is not a column, then
   * the validators' ValueError.
   */
  function ConstructorError(t: Table, row: Row): (r: Option<Error>)
    ensures r == Some(TypeError) <==> !(row.Keys <= Columns(t))
    ensures r.Some? && r.value != TypeError ==> r.value == ValueError && row.Keys <= Columns(t)
    ensures r.None? <==> row.Keys <= Columns(t) && Validate(t, row).None?
  {
    if !(row.Keys <= Columns(t)) then Some(TypeError) else Validate(t, row)
  }

  /** An INSERT raises the constructor's error first; after a clean construction only database errors remain. */
  lemma {:induction false} InsertErrorAfterConstructor(tables: Tables, lookups: Lookups, t: Table, row: Row)
    requires t in tables
    ensures ConstructorError(t, row).Some? ==> InsertError(tables, lookups, t, row) == ConstructorError(t, row)
    ensures ConstructorError(t, row).None? ==>
      InsertError(tables, lookups, t, row) in {None, Some(DBError), Some(DBDuplicateEntry)}
  {
  }

  /**
   * The error an INSERT of `row` into `t` raises, in the order the checks
   * happen: the model constructor refuses a keyword that is not a column
   * (TypeError), then its validators, NOT NULL, unique keys, foreign keys.
   */
  function InsertError(tables: Tables, lookups: Lookups, t: Table, row: Row): (r: Option<Error>)
    requires t in tables
    ensures r == Some(TypeError) <==> !(row.Keys <= Columns(t))
    ensures r.Some? ==> r.value in {TypeError, ValueError, DBError, DBDuplicateEntry}
    ensures r == Some(DBDuplicateEntry) ==> exists i :: 0 <= i < |tables[t]| && Collide(t, row, tables[t][i])
  {
    if !(row.Keys <= Columns(t)) then Some(TypeError)
    else if Validate(t, row).Some? then Validate(t, row)
    else if !NotNullOk(t, row) then Some(DBError)
    else if exists i :: 0 <= i < |tables[t]| && Collide(t, row, tables[t][i]) then Some(DBDuplicateEntry)
    else if !FkOk(tables, lookups, t, row, row.Keys) then Some(DBError)
    else None
  }

  /** An INSERT goes through exactly when every check passes: columns, validators, NOT NULL, unique keys, foreign keys. */
  lemma {:induction false} InsertAccepted(tables: Tables, lookups: Lookups, t: Table, row: Row)
    requires t in tables
    ensures InsertError(tables, lookups, t, row).None? <==>
      && row.Keys <= Columns(t) && Validate(t, row).None? && NotNullOk(t, row)
      && (forall i :: 0 <= i < |tables[t]| ==> !Collide(t, row, tables[t][i]))
      && FkOk(tables, lookups, t, row, row.Keys)
  {
  }

  /** BaseRepository.create: the INSERT and the data model it returns. */
  function InsertOutcome(tables: Tables, lookups: Lookups, t: Table, kwargs: Row, freshId: string): (r: Outcome<Row>)
    requires t in tables
  {
    var row := NewRow(t, kwargs, freshId);
    match InsertError(tables, lookups, t, row)
    case Some(e) => Outcome(Err(e), tables)
    case None => Outcome(Ok(row), tables[t := tables[t] + [row]])
  }

  /** The rows after `filter_by(**filters).update(kwargs)`. */
  function UpdatedRows(rows: seq<Row>, filters: Dict, kwargs: Row): (r: seq<Row>)
    ensures |r| == |rows|
    ensures forall i :: 0 <= i < |rows| && Matches(rows[i], filters) ==> r[i] == rows[i] + kwargs
    ensures forall i :: 0 <= i < |rows| && !Matches(rows[i], filters) ==> r[i] == rows[i]
  {
    seq(|rows|, i requires 0 <= i < |rows| => if Matches(rows[i], filters) then rows[i] + kwargs else rows[i])
  }

  predicate AnyMatch(rows: seq<Row>, filters: Dict)
  {
    exists i :: 0 <= i < |rows| && Matches(rows[i], filters)
  }

  /** A one-column filter matches some row exactly when some row carries that value in that column. */
  lemma {:induction false} AnyMatchBy(rows: seq<Row>, column: string, v: Value)
    ensures AnyMatch(rows, By(column, v)) <==> exists i :: 0 <= i < |rows| && DictGet(rows[i], column) == v
  {
    if exists i :: 0 <= i < |rows| && DictGet(rows[i], column) == v {
      var i :| 0 <= i < |rows| && DictGet(rows[i], column) == v;
      assert Matches(rows[i], By(column, v));
    }
    if AnyMatch(rows, By(column, v)) {
      var i :| 0 <= i < |rows| && Matches(rows[i], By(column, v));
      assert column in By(column, v);
    }
  }

  /** Two row sequences that match a filter at the same positions have the same first match position. */
  lemma {:induction false} SameMatchesSameFirst(rows: seq<Row>, rows': seq<Row>, filters: Dict)
    requires |rows'| == |rows|
    requires forall i :: 0 <= i < |rows| ==> (Matches(rows'[i], filters) <==> Matches(rows[i], filters))
    ensures FirstIndex(rows', filters) == FirstIndex(rows, filters)
  {
    var a, b := FirstIndex(rows, filters), FirstIndex(rows', filters);
    if a.Some? {
      assert Matches(rows'[a.value], filters);
      assert b.Some? && !(b.value < a.value) && !(a.value < b.value);
    }
  }

  /**
   * An UPDATE that writes no filter column to a different value keeps the
   * same rows matching: the first match is the same row, now carrying the
   * written columns.
   */
  lemma {:induction false} UpdateKeepsFirstMatch(rows: seq<Row>, filters: Dict, kwargs: Row)
    requires forall c :: c in filters && c in kwargs ==> kwargs[c] == filters[c]
    ensures FirstIndex(UpdatedRows(rows, filters, kwargs), filters) == FirstIndex(rows, filters)
    ensures FirstMatch(rows, filters).Some? ==>
      FirstMatch(UpdatedRows(rows, filters, kwargs), filters) == Some(FirstMatch(rows, filters).value + kwargs)
  {
    var rows' := UpdatedRows(rows, filters, kwargs);
    forall i | 0 <= i < |rows| ensures Matches(rows'[i], filters) <==> Matches(rows[i], filters) {
      if Matches(rows[i], filters) {
        assert rows'[i] == rows[i] + kwargs;
        forall c | c in filters ensures DictGet(rows'[i], c) == filters[c] {
          assert DictGet(rows[i], c) == filters[c];
        }
      }
    }
    SameMatchesSameFirst(rows, rows', filters);
  }

  /** The error a bulk UPDATE raises; an UPDATE that touches no row raises none. */
  function UpdateError(tables: Tables, lookups: Lookups, t: Table, filters: Dict, kwargs: Row): (r: Option<Error>)
    requires t in tables
    ensures !AnyMatch(tables[t], filters) ==> r.None?
    ensures r.Some? ==> r.value == DBError || r.value == DBDuplicateEntry
    ensures r == Some(DBDuplicateEntry) ==> !Distinct(t, UpdatedRows(tables[t], filters, kwargs))
  {
    if !AnyMatch(tables[t], filters) then None
    else if exists c :: c in kwargs && c in SchemaOf(t).notNull && kwargs[c] == VNone then Some(DBError)
    else if !Distinct(t, UpdatedRows(tables[t], filters, kwargs)) then Some(DBDuplicateEntry)
    else if !FkOk(tables, lookups, t, kwargs, kwargs.Keys) then Some(DBError)
    else None
  }

  function UpdateOutcome(tables: Tables, lookups: Lookups, t: Table, filters: Dict, kwargs: Row): (r: Outcome<()>)
    requires t in tables
  {
    match UpdateError(tables, lookups, t, filters, kwargs)
    case Some(e) => Outcome(Err(e), tables)
    case None => Outcome(Ok(()), tables[t := UpdatedRows(tables[t], filters, kwargs)])
  }

  /**
   * The keyword arguments of `update(self, session, <key>, **model_kwargs)`
   * cannot carry `session` or the key's own name: Python refuses such a call
   * with TypeError ("got multiple values") before the body runs.
   */
  predicate RepeatsParameter(t: Table, kwargs: Row)
  {
    SESSION in kwargs || KeyColumn(t) in kwargs
  }

  /** Setting a status column never makes a keyword repeat a parameter. */
  lemma {:induction false} StatusKeyRepeatsNothing(t: Table, d: Row, c: string, v: Value)
    requires c == PROVISIONING_STATUS || c == OPERATING_STATUS
    ensures RepeatsParameter(t, d[c := v]) == RepeatsParameter(t, d)
  {
    assert c[1] != SESSION[1] && c[1] != KeyColumn(t)[1];
  }

  /** BaseRepository.update and its keyed overrides, argument binding included. */
  function KeyedUpdateOutcome(tables: Tables, lookups: Lookups, t: Table, key: Value, kwargs: Row): (r: Outcome<()>)
    requires t in tables
    ensures r.tables.Keys == tables.Keys
    ensures r.result.Err? ==> r.tables == tables
  {
    if RepeatsParameter(t, kwargs) then Outcome(Err(TypeError), tables)
    else UpdateOutcome(tables, lookups, t, By(KeyColumn(t), key), kwargs)
  }

  /**
   * A keyed update is refused with TypeError exactly when a keyword repeats
   * a parameter, and then nothing changes; otherwise it is the bulk UPDATE
   * of the rows with that key.
   */
  lemma {:induction false} KeyedUpdateTypeErrorIffRepeated(tables: Tables, lookups: Lookups, t: Table, key: Value, kwargs: Row)
    requires t in tables
    ensures KeyedUpdateOutcome(tables, lookups, t, key, kwargs).result == Err(TypeError) <==> RepeatsParameter(t, kwargs)
    ensures RepeatsParameter(t, kwargs) ==> KeyedUpdateOutcome(tables, lookups, t, key, kwargs).tables == tables
    ensures !RepeatsParameter(t, kwargs) ==>
      KeyedUpdateOutcome(tables, lookups, t, key, kwargs) == UpdateOutcome(tables, lookups, t, By(KeyColumn(t), key), kwargs)
  {
    if !RepeatsParameter(t, kwargs) {
      var e := UpdateError(tables, lookups, t, By(KeyColumn(t), key), kwargs);
      assert e.None? || e.value in {DBError, DBDuplicateEntry};
    }
  }

  /** BaseRepository.delete: `session.delete(first match)`; deleting None raises. */
  function DeleteOutcome(tables: Tables, t: Table, filters: Dict): (r: Outcome<()>)
    requires t in tables
  {
    match FirstIndex(tables[t], filters)
    case None => Outcome(Err(UnmappedInstance), tables)
    case Some(i) => Outcome(Ok(()), tables[t := tables[t][..i] + tables[t][i + 1..]])
  }

  /** A DELETE from `t` leaves every other table as it was. */
  lemma {:induction false} DeleteKeepsOtherTable(tables: Tables, t: Table, filters: Dict, u: Table)
    requires t in tables && u in tables && u != t
    ensures u in DeleteOutcome(tables, t, filters).tables && DeleteOutcome(tables, t, filters).tables[u] == tables[u]
  {
  }

  /** The successful write of one status column on the rows keyed by `key`. */
  function SetStatus(tables: Tables, t: Table, key: Value, column: string, v: Value): (r: Tables)
    requires t in tables
  {
    tables[t := UpdatedRows(tables[t], By(KeyColumn(t), key), map[column := v])]
  }

  /** The lookup tables hold every status name the controllers write. */
  ghost predicate Seeded(lookups: Lookups)
  {
    HasAllLookups(lookups) &&
    PENDING_CREATE in lookups[ProvisioningStatusL] && PENDING_UPDATE in lookups[ProvisioningStatusL] &&
    PENDING_DELETE in lookups[ProvisioningStatusL] && ERROR in lookups[ProvisioningStatusL] &&
    OFFLINE in lookups[OperatingStatusL] && ERROR in lookups[OperatingStatusL]
  }

  /** A status name the controllers write into `column`. */
  predicate WrittenStatus(column: string, v: Value)
  {
    (column == PROVISIONING_STATUS && v in {PENDING_CREATE, PENDING_UPDATE, PENDING_DELETE, ERROR}) ||
    (column == OPERATING_STATUS && v in {OFFLINE, ERROR})
  }

  /**
   * The model constructor takes exactly the table's columns as keywords: an
   * insert is refused with TypeError precisely when a keyword of the request
   * is not a column, and the generated `id` is always one.
   */
  lemma {:induction false} InsertTypeErrorIffUnknownKeyword(tables: Tables, lookups: Lookups, t: Table, kwargs: Row, freshId: string)
    requires t in tables
    ensures NewRow(t, kwargs, freshId).Keys <= Columns(t) <==> kwargs.Keys <= Columns(t)
    ensures InsertOutcome(tables, lookups, t, kwargs, freshId).result == Err(TypeError) <==> !(kwargs.Keys <= Columns(t))
  {
    var row := NewRow(t, kwargs, freshId);
    assert kwargs.Keys <= row.Keys;
    if SchemaOf(t).idDefault && DictGet(kwargs, ID) == VNone {
      assert row.Keys == kwargs.Keys + {ID};
    }
  }

  // -------------------------------------------- no table comes or goes

  lemma {:induction false} InsertKeepsTables(tables: Tables, lookups: Lookups, t: Table, kwargs: Row, freshId: string)
    requires t in tables
    ensures InsertOutcome(tables, lookups, t, kwargs, freshId).tables.Keys == tables.Keys
  {
  }

  /** An INSERT into `t` leaves every other table as it was. */
  lemma {:induction false} InsertKeepsOtherTable(tables: Tables, lookups: Lookups, t: Table, kwargs: Row, freshId: string, u: Table)
    requires t in tables && u in tables && u != t
    ensures u in InsertOutcome(tables, lookups, t, kwargs, freshId).tables
    ensures InsertOutcome(tables, lookups, t, kwargs, freshId).tables[u] == tables[u]
  {
  }

  lemma {:induction false} UpdateKeepsTables(tables: Tables, lookups: Lookups, t: Table, filters: Dict, kwargs: Row)
    requires t in tables
    ensures UpdateOutcome(tables, lookups, t, filters, kwargs).tables.Keys == tables.Keys
  {
  }

  lemma {:induction false} SetStatusKeepsTables(tables: Tables, t: Table, key: Value, column: string, v: Value)
    requires t in tables
    ensures SetStatus(tables, t, key, column, v).Keys == tables.Keys
  {
  }

  // ------------------------------------------------- the invariant is kept

  lemma {:induction false} InsertKeepsValid(tables: Tables, lookups: Lookups, t: Table, row: Row)
    requires Valid(tables) && InsertError(tables, lookups, t, row).None?
    ensures Valid(tables[t := tables[t] + [row]])
  {
    var rows := tables[t];
    var rows' := rows + [row];
    forall i, j | 0 <= i < |rows'| && 0 <= j < |rows'| && i != j
      ensures !Collide(t, rows'[i], rows'[j])
    {
      assert TableValid(t, rows);
      if i == |rows| {
        assert !Collide(t, row, rows[j]);
      } else if j == |rows| {
        assert !Collide(t, row, rows[i]);
        CollideSymmetric(t, row, rows[i]);
      } else {
        assert rows'[i] == rows[i] && rows'[j] == rows[j];
      }
    }
    assert TableValid(t, rows');
    ReplaceKeepsValid(tables, t, rows');
  }

  lemma {:induction false} UpdateKeepsValid(tables: Tables, lookups: Lookups, t: Table, filters: Dict, kwargs: Row)
    requires Valid(tables) && UpdateError(tables, lookups, t, filters, kwargs).None?
    ensures Valid(tables[t := UpdatedRows(tables[t], filters, kwargs)])
  {
    var rows := tables[t];
    var rows' := UpdatedRows(rows, filters, kwargs);
    assert TableValid(t, rows);
    if AnyMatch(rows, filters) {
      forall i | 0 <= i < |rows'| ensures NotNullOk(t, rows'[i]) {
        assert NotNullOk(t, rows[i]);
        forall c | c in SchemaOf(t).notNull ensures DictGet(rows'[i], c) != VNone {
          if Matches(rows[i], filters) && c in kwargs {
            assert DictGet(rows'[i], c) == kwargs[c];
          }
        }
      }
    } else {
      assert rows' == rows;
    }
    assert TableValid(t, rows');
    ReplaceKeepsValid(tables, t, rows');
  }

  lemma {:induction false} DeleteKeepsValid(tables: Tables, t: Table, i: nat)
    requires Valid(tables) && i < |tables[t]|
    ensures Valid(tables[t := tables[t][..i] + tables[t][i + 1..]])
  {
    var rows := tables[t];
    var rows' := rows[..i] + rows[i + 1..];
    assert TableValid(t, rows);
    assert forall k :: 0 <= k < |rows'| ==> rows'[k] == rows[if k < i then k else k + 1];
    assert TableValid(t, rows');
    ReplaceKeepsValid(tables, t, rows');
  }

  /** Replacing one table's rows by rows valid for it keeps the whole database valid. */
  lemma {:induction false} ReplaceKeepsValid(tables: Tables, t: Table, rows': seq<Row>)
    requires Valid(tables) && TableValid(t, rows')
    ensures Valid(tables[t := rows'])
  {
  }

  /** Rows that keep every column of `key` collide exactly as before. */
  lemma {:induction false} SameKeyKept(a: Row, b: Row, a': Row, b': Row, key: seq<string>)
    requires forall k :: 0 <= k < |key| ==> DictGet(a, key[k]) == DictGet(a', key[k]) && DictGet(b, key[k]) == DictGet(b', key[k])
    ensures SameKey(a, b, key) == SameKey(a', b', key)
  {
  }

  /**
   * A status write can only fail on an integrity check, and status columns
   * are in no unique key, so writing a seeded status name always succeeds
   * and keeps the invariant.
   */
  lemma {:induction false} StatusWriteSucceeds(tables: Tables, lookups: Lookups, t: Table, key: Value, column: string, v: Value)
    requires Valid(tables) && Seeded(lookups) && WrittenStatus(column, v)
    ensures UpdateOutcome(tables, lookups, t, By(KeyColumn(t), key), map[column := v]) ==
            Outcome(Ok(()), SetStatus(tables, t, key, column, v))
    ensures Valid(SetStatus(tables, t, key, column, v))
  {
    var rows := tables[t];
    var f, kw := By(KeyColumn(t), key), map[column := v];
    assert TableValid(t, rows);
    StatusInNoKey(t, column, v);
    StatusWriteKeepsDistinct(t, rows, f, column, v);
    forall k | 0 <= k < |SchemaOf(t).fks| && SchemaOf(t).fks[k].column in kw.Keys
      ensures Refers(tables, lookups, SchemaOf(t).fks[k].target, DictGet(kw, SchemaOf(t).fks[k].column))
    {
    }
    assert FkOk(tables, lookups, t, kw, kw.Keys);
    assert UpdateError(tables, lookups, t, f, kw).None?;
    UpdateKeepsValid(tables, lookups, t, f, kw);
  }

  /** No unique key of any table holds a status column. */
  lemma {:induction false} StatusInNoKey(t: Table, column: string, v: Value)
    requires WrittenStatus(column, v)
    ensures forall u :: 0 <= u < |SchemaOf(t).uniques| ==> column !in SchemaOf(t).uniques[u]
  {
  }

  /** Writing a column that is in no unique key leaves the rows free of collisions. */
  lemma {:induction false} StatusWriteKeepsDistinct(t: Table, rows: seq<Row>, f: Dict, column: string, v: Value)
    requires Distinct(t, rows)
    requires forall u :: 0 <= u < |SchemaOf(t).uniques| ==> column !in SchemaOf(t).uniques[u]
    ensures Distinct(t, UpdatedRows(rows, f, map[column := v]))
  {
    var rows' := UpdatedRows(rows, f, map[column := v]);
    forall i, j | 0 <= i < |rows'| && 0 <= j < |rows'| && i != j
      ensures !Collide(t, rows'[i], rows'[j])
    {
      assert !Collide(t, rows[i], rows[j]);
      forall u | 0 <= u < |SchemaOf(t).uniques|
        ensures !SameKey(rows'[i], rows'[j], SchemaOf(t).uniques[u])
      {
        SameKeyKept(rows[i], rows[j], rows'[i], rows'[j], SchemaOf(t).uniques[u]);
      }
    }
  }

  /** After a status write every row with that key carries the new status and keeps its other columns. */
  lemma {:induction false} StatusWritten(tables: Tables, t: Table, key: Value, column: string, v: Value, i: nat)
    requires t in tables && i < |tables[t]|
    ensures var rows' := SetStatus(tables, t, key, column, v)[t];
      |rows'| == |tables[t]| &&
      (DictGet(tables[t][i], KeyColumn(t)) == key ==> DictGet(rows'[i], column) == v) &&
      (DictGet(tables[t][i], KeyColumn(t)) == key ==> forall c :: c != column ==> DictGet(rows'[i], c) == DictGet(tables[t][i], c)) &&
      (DictGet(tables[t][i], KeyColumn(t)) != key ==> rows'[i] == tables[t][i])
  {
  }

  /** In a valid table a row is the one `get(id=...)` finds under its own id. */
  lemma {:induction false} GetById(tables: Tables, t: Table, i: nat)
    requires Valid(tables) && SchemaOf(t).idDefault && i < |tables[t]|
    ensures FirstMatch(tables[t], By(ID, DictGet(tables[t][i], ID))) == Some(tables[t][i])
  {
    var f := By(ID, DictGet(tables[t][i], ID));
    assert Matches(tables[t][i], f);
    var k := FirstIndex(tables[t], f);
    assert k.Some?;
    if k.value != i {
      IdIsUnique(tables, t, k.value, i);
    }
  }

  /** A row appended by a successful insert is the one `get` finds under its own key value. */
  lemma {:induction false} GetAfterInsert(tables: Tables, lookups: Lookups, t: Table, row: Row, u: nat, column: string)
    requires t in tables && InsertError(tables, lookups, t, row).None?
    requires u < |SchemaOf(t).uniques| && SchemaOf(t).uniques[u] == [column] && DictGet(row, column) != VNone
    ensures FirstMatch(tables[t] + [row], By(column, DictGet(row, column))) == Some(row)
  {
    var rows := tables[t];
    var f := By(column, DictGet(row, column));
    var rows' := rows + [row];
    assert Matches(rows'[|rows|], f);
    var k := FirstIndex(rows', f);
  }

  // ------------------------------------------------------------ session

  /** The database as the repositories see it through a session. */
  class Session {
    var tables: Tables
    const lookups: Lookups

    ghost predicate Valid()
      reads this
    {
      Models.Valid(tables) && Seeded(lookups)
    }

    constructor (tables0: Tables, lookups0: Lookups)
      requires Models.Valid(tables0) && Seeded(lookups0)
      ensures Valid() && tables == tables0 && lookups == lookups0
    {
      tables := tables0;
      lookups := lookups0;
    }
  }

  // ------------------------------------------------------ BaseRepository

  /** BaseRepository.get: the first matching row, or None. */
  method Get(s: Session, t: Table, filters: Dict) returns (r: Option<Row>)
    requires s.Valid()
    ensures r == FirstMatch(s.tables[t], filters)
    ensures r.None? <==> forall i :: 0 <= i < |s.tables[t]| ==> !Matches(s.tables[t][i], filters)
    ensures r.Some? ==> r.value in s.tables[t] && Matches(r.value, filters)
  {
    var rows := s.tables[t];
    var i := 0;
    while i < |rows|
      invariant 0 <= i <= |rows|
      invariant forall j :: 0 <= j < i ==> !Matches(rows[j], filters)
    {
      if Matches(rows[i], filters) {
        var k := FirstIndex(rows, filters);
        assert k == Some(i);
        return Some(rows[i]);
      }
      i := i + 1;
    }
    return None;
  }

  /** One more row scanned: it joins the matches exactly when it matches. */
  lemma {:induction false} AllMatchesExtend(rows: seq<Row>, i: nat, filters: Dict)
    requires i < |rows|
    ensures AllMatches(rows[..i + 1], filters) == AllMatches(rows[..i], filters) + (if Matches(rows[i], filters) then [rows[i]] else [])
  {
    assert rows[..i + 1][..i] == rows[..i];
  }

  /** BaseRepository.get_all: every matching row and nothing else, in query order. */
  method GetAll(s: Session, t: Table, filters: Dict) returns (r: seq<Row>)
    requires s.Valid()
    ensures r == AllMatches(s.tables[t], filters)
    ensures forall x :: x in r <==> x in s.tables[t] && Matches(x, filters)
  {
    var rows := s.tables[t];
    r := [];
    var i := 0;
    while i < |rows|
      invariant 0 <= i <= |rows|
      invariant r == AllMatches(rows[..i], filters)
    {
      AllMatchesExtend(rows, i, filters);
      if Matches(rows[i], filters) {
        r := r + [rows[i]];
      }
      i := i + 1;
    }
    assert rows[..i] == rows;
  }

  /**
   * BaseRepository.exists (filter on `id`) and its SessionPersistenceRepository
   * override (filter on `pool_id`): whether some row has that key.
   */
  method Exists(s: Session, t: Table, key: Value) returns (r: bool)
    requires s.Valid()
    requires SchemaOf(t).idDefault || t == AmphoraT || t == SessionPersistenceT
    ensures r <==> exists i :: 0 <= i < |s.tables[t]| && DictGet(s.tables[t][i], KeyColumn(t)) == key
  {
    var found := Get(s, t, By(KeyColumn(t), key));
    r := found.Some?;
    if !r {
      forall i | 0 <= i < |s.tables[t]| ensures DictGet(s.tables[t][i], KeyColumn(t)) != key {
        assert !Matches(s.tables[t][i], By(KeyColumn(t), key));
      }
    }
  }

  /**
   * BaseRepository.create: build the model from `kwargs` (a keyword that is
   * not a column is a TypeError) and insert it; the database may refuse it.
   */
  method Create(s: Session, t: Table, kwargs: Row, freshId: string) returns (r: Result<Row>)
    requires s.Valid() && t != LoadBalancerAmphoraT
    modifies s
    ensures s.Valid()
    ensures Outcome(r, s.tables) == InsertOutcome(old(s.tables), s.lookups, t, kwargs, freshId)
    ensures r == Err(TypeError) <==> !(kwargs.Keys <= Columns(t))
  {
    InsertTypeErrorIffUnknownKeyword(s.tables, s.lookups, t, kwargs, freshId);
    var row := NewRow(t, kwargs, freshId);
    var err := InsertError(s.tables, s.lookups, t, row);
    if err.Some? {
      return Err(err.value);
    }
    InsertKeepsValid(s.tables, s.lookups, t, row);
    s.tables := s.tables[t := s.tables[t] + [row]];
    return Ok(row);
  }

  /** BaseRepository.delete: delete the first matching row. */
  method Delete(s: Session, t: Table, filters: Dict) returns (r: Result<()>)
    requires s.Valid()
    modifies s
    ensures s.Valid()
    ensures Outcome(r, s.tables) == DeleteOutcome(old(s.tables), t, filters)
  {
    var k := FirstIndex(s.tables[t], filters);
    if k.None? {
      return Err(UnmappedInstance);
    }
    DeleteKeepsValid(s.tables, t, k.value);
    s.tables := s.tables[t := s.tables[t][..k.value] + s.tables[t][k.value + 1..]];
    return Ok(());
  }

  /**
   * BaseRepository.update and its keyed overrides: TypeError when a keyword
   * repeats `session` or the key parameter, else a bulk UPDATE of the rows
   * whose KeyColumn(t) equals `key`.
   */
  method Update(s: Session, t: Table, key: Value, kwargs: Row) returns (r: Result<()>)
    requires s.Valid() && t != SniT && t != LoadBalancerAmphoraT
    modifies s
    ensures s.Valid()
    ensures RepeatsParameter(t, kwargs) ==> r == Err(TypeError) && s.tables == old(s.tables)
    ensures Outcome(r, s.tables) == KeyedUpdateOutcome(old(s.tables), s.lookups, t, key, kwargs)
  {
    if RepeatsParameter(t, kwargs) {
      return Err(TypeError);
    }
    r := UpdateWhere(s, t, By(KeyColumn(t), key), kwargs);
  }

  /** `filter_by(**filters).update(kwargs)` inside its own transaction. */
  method UpdateWhere(s: Session, t: Table, filters: Dict, kwargs: Row) returns (r: Result<()>)
    requires s.Valid()
    modifies s
    ensures s.Valid()
    ensures Outcome(r, s.tables) == UpdateOutcome(old(s.tables), s.lookups, t, filters, kwargs)
  {
    var err := UpdateError(s.tables, s.lookups, t, filters, kwargs);
    if err.Some? {
      return Err(err.value);
    }
    UpdateKeepsValid(s.tables, s.lookups, t, filters, kwargs);
    s.tables := s.tables[t := UpdatedRows(s.tables[t], filters, kwargs)];
    return Ok(());
  }

  // ------------------------------------------------ LoadBalancerRepository

  function TestAndSetOutcome(tables: Tables, lookups: Lookups, id: Value, status: Value, mutable: set<Value>): (r: Outcome<()>)
    requires LoadBalancerT in tables
    ensures r.result.Err? ==> r.tables == tables
    ensures r.result == Err(NoResultFound) <==> !AnyMatch(tables[LoadBalancerT], By(ID, id))
    ensures r.result.Err? ==> r.result.error in {NoResultFound, MultipleResultsFound, ImmutableStatus, DBError, DBDuplicateEntry}
  {
    var found := AllMatches(tables[LoadBalancerT], By(ID, id));
    assert |found| > 0 ==> found[0] in found;
    if |found| == 0 then Outcome(Err(NoResultFound), tables)
    else if |found| > 1 then Outcome(Err(MultipleResultsFound), tables)
    else if DictGet(found[0], PROVISIONING_STATUS) !in mutable then Outcome(Err(ImmutableStatus), tables)
    else UpdateOutcome(tables, lookups, LoadBalancerT, By(ID, id), map[PROVISIONING_STATUS := status])
  }

  lemma {:induction false} TestAndSetKeepsTables(tables: Tables, lookups: Lookups, id: Value, status: Value, mutable: set<Value>)
    requires LoadBalancerT in tables
    ensures TestAndSetOutcome(tables, lookups, id, status, mutable).tables.Keys == tables.Keys
  {
  }

  /**
   * LoadBalancerRepository.test_and_set_provisioning_status: the atomic gate.
   * The load balancer's status is overwritten only when its current status
   * is one of `mutable` (MUTABLE_STATUSES).
   */
  method TestAndSetProvisioningStatus(s: Session, id: Value, status: Value, mutable: set<Value>) returns (r: Result<()>)
    requires s.Valid()
    modifies s
    ensures s.Valid()
    ensures Outcome(r, s.tables) == TestAndSetOutcome(old(s.tables), s.lookups, id, status, mutable)
  {
    var found := GetAll(s, LoadBalancerT, By(ID, id));
    if |found| == 0 {
      return Err(NoResultFound);
    }
    if |found| > 1 {
      return Err(MultipleResultsFound);
    }
    if DictGet(found[0], PROVISIONING_STATUS) !in mutable {
      return Err(ImmutableStatus);
    }
    r := Update(s, LoadBalancerT, id, map[PROVISIONING_STATUS := status]);
  }

  /** test_and_set refuses an immutable load balancer and then changes nothing. */
  lemma {:induction false} TestAndSetRefusesImmutable(tables: Tables, lookups: Lookups, i: nat, status: Value, mutable: set<Value>)
    requires Valid(tables) && i < |tables[LoadBalancerT]|
    requires DictGet(tables[LoadBalancerT][i], PROVISIONING_STATUS) !in mutable
    ensures TestAndSetOutcome(tables, lookups, DictGet(tables[LoadBalancerT][i], ID), status, mutable) ==
            Outcome(Err(ImmutableStatus), tables)
  {
    var id := DictGet(tables[LoadBalancerT][i], ID);
    OnlyRowWithId(tables, LoadBalancerT, i);
  }

  /**
   * On success test_and_set writes the new status into exactly that load
   * balancer; its other columns and every other load balancer are unchanged.
   */
  lemma {:induction false} TestAndSetWritesOne(tables: Tables, lookups: Lookups, i: nat, status: Value, mutable: set<Value>)
    requires Valid(tables) && i < |tables[LoadBalancerT]|
    requires TestAndSetOutcome(tables, lookups, DictGet(tables[LoadBalancerT][i], ID), status, mutable).result.Ok?
    ensures var rows := tables[LoadBalancerT];
      var rows' := TestAndSetOutcome(tables, lookups, DictGet(rows[i], ID), status, mutable).tables[LoadBalancerT];
      |rows'| == |rows| &&
      DictGet(rows[i], PROVISIONING_STATUS) in mutable &&
      rows'[i] == rows[i][PROVISIONING_STATUS := status] &&
      (forall j :: 0 <= j < |rows| && j != i ==> rows'[j] == rows[j])
    ensures forall t :: t != LoadBalancerT ==>
      TestAndSetOutcome(tables, lookups, DictGet(tables[LoadBalancerT][i], ID), status, mutable).tables[t] == tables[t]
  {
    var rows := tables[LoadBalancerT];
    var id := DictGet(rows[i], ID);
    var f, kw := By(ID, id), map[PROVISIONING_STATUS := status];
    OnlyRowWithId(tables, LoadBalancerT, i);
    var o := TestAndSetOutcome(tables, lookups, id, status, mutable);
    assert DictGet(rows[i], PROVISIONING_STATUS) in mutable;
    assert o == UpdateOutcome(tables, lookups, LoadBalancerT, f, kw);
    var rows' := UpdatedRows(rows, f, kw);
    assert o.tables == tables[LoadBalancerT := rows'];
    UpdateByIdTouchesOne(tables, i, kw);
    UpdateOneKey(rows[i], PROVISIONING_STATUS, status);
  }

  /** `filter_by(id=...)` of an existing load balancer updates that row alone. */
  lemma {:induction false} UpdateByIdTouchesOne(tables: Tables, i: nat, kw: Row)
    requires Valid(tables) && i < |tables[LoadBalancerT]|
    ensures var rows := tables[LoadBalancerT];
      var rows' := UpdatedRows(rows, By(ID, DictGet(rows[i], ID)), kw);
      rows'[i] == rows[i] + kw && forall j :: 0 <= j < |rows| && j != i ==> rows'[j] == rows[j]
  {
    var rows := tables[LoadBalancerT];
    var f := By(ID, DictGet(rows[i], ID));
    var rows' := UpdatedRows(rows, f, kw);
    forall j | 0 <= j < |rows| && j != i ensures rows'[j] == rows[j] {
      IdIsUnique(tables, LoadBalancerT, i, j);
      assert !Matches(rows[j], f);
    }
    assert Matches(rows[i], f);
  }

  /** In a valid table with generated ids, `filter_by(id=...)` of an existing row finds exactly that row. */
  lemma {:induction false} OnlyRowWithId(tables: Tables, t: Table, i: nat)
    requires Valid(tables) && SchemaOf(t).idDefault && i < |tables[t]|
    ensures AllMatches(tables[t], By(ID, DictGet(tables[t][i], ID))) == [tables[t][i]]
  {
    var rows := tables[t];
    var f := By(ID, DictGet(rows[i], ID));
    forall j | 0 <= j < |rows| && j != i ensures !Matches(rows[j], f) {
      IdIsUnique(tables, t, i, j);
    }
    OnlyMatch(rows, f, i);
  }

  /** A sequence with exactly one matching position filters to that one row. */
  lemma {:induction false} OnlyMatch(rows: seq<Row>, f: Dict, i: nat)
    requires i < |rows| && Matches(rows[i], f)
    requires forall j :: 0 <= j < |rows| && j != i ==> !Matches(rows[j], f)
    ensures AllMatches(rows, f) == [rows[i]]
    decreases |rows|
  {
    var n := |rows|;
    var init := rows[..n - 1];
    if i == n - 1 {
      NoMatch(init, f);
    } else {
      OnlyMatch(init, f, i);
    }
  }

  lemma {:induction false} NoMatch(rows: seq<Row>, f: Dict)
    requires forall j :: 0 <= j < |rows| ==> !Matches(rows[j], f)
    ensures AllMatches(rows, f) == []
    decreases |rows|
  {
    if rows != [] {
      NoMatch(rows[..|rows| - 1], f);
    }
  }

  // ------------------------------------------------ ListenerRepository

  /** The listener's `default_pool` relationship. */
  function DefaultPool(tables: Tables, listener: Row): Option<Row>
    requires PoolT in tables
  {
    Related(tables, PoolT, ID, DictGet(listener, DEFAULT_POOL_ID))
  }

  /**
   * ListenerRepository.has_pool: whether the listener's default_pool_id names
   * an existing pool. An unknown listener makes `listener.default_pool` an
   * attribute read on None.
   */
  method HasPool(s: Session, id: Value) returns (r: Result<bool>)
    requires s.Valid()
    ensures FirstMatch(s.tables[ListenerT], By(ID, id)).None? <==> r == Err(AttributeError)
    ensures r.Err? ==> r.error == AttributeError
    ensures r.Ok? ==> var listener := FirstMatch(s.tables[ListenerT], By(ID, id)).value;
      (r.value <==> DictGet(listener, DEFAULT_POOL_ID) != VNone &&
                    exists i :: 0 <= i < |s.tables[PoolT]| && DictGet(s.tables[PoolT][i], ID) == DictGet(listener, DEFAULT_POOL_ID))
    ensures r.Ok? ==> (r.value <==> DefaultPool(s.tables, FirstMatch(s.tables[ListenerT], By(ID, id)).value).Some?)
  {
    var listener := Get(s, ListenerT, By(ID, id));
    if listener.None? {
      return Err(AttributeError);
    }
    var pool := DefaultPool(s.tables, listener.value);
    if pool.Some? {
      return Ok(true);
    }
    var pid := DictGet(listener.value, DEFAULT_POOL_ID);
    if pid != VNone {
      forall i | 0 <= i < |s.tables[PoolT]| ensures DictGet(s.tables[PoolT][i], ID) != pid {
        assert !Matches(s.tables[PoolT][i], By(ID, pid));
      }
    }
    return Ok(false);
  }

  // ------------------------------------------------ SNIRepository

  /** A keyword argument that repeats a named parameter of SNIRepository.update. */
  predicate SniRepeatsParameter(kwargs: Row) {
    SESSION in kwargs || LISTENER_ID in kwargs || TLS_CONTAINER_ID in kwargs
  }

  function SniUpdateOutcome(tables: Tables, lookups: Lookups, listenerId: Value, tlsContainerId: Value, kwargs: Row): Outcome<()>
    requires SniT in tables
  {
    if SniRepeatsParameter(kwargs) then Outcome(Err(TypeError), tables)
    else if !Truthy(listenerId) && Truthy(tlsContainerId) then Outcome(Err(MissingArguments), tables)
    else if Truthy(listenerId) then UpdateOutcome(tables, lookups, SniT, By(LISTENER_ID, listenerId), kwargs)
    else Outcome(Ok(()), tables)
  }

  /**
   * SNIRepository.update: a keyword that repeats `session`, `listener_id`
   * or `tls_container_id` is a TypeError; a tls_container_id without a
   * listener_id is an error; a listener_id alone selects the rows; with
   * neither nothing happens.
   * The `elif tls_container_id` branch of the source is unreachable: the
   * guard has already raised whenever it would be taken.
   */
  method SniUpdate(s: Session, listenerId: Value, tlsContainerId: Value, kwargs: Row) returns (r: Result<()>)
    requires s.Valid()
    modifies s
    ensures s.Valid()
    ensures Outcome(r, s.tables) == SniUpdateOutcome(old(s.tables), s.lookups, listenerId, tlsContainerId, kwargs)
  {
    if SniRepeatsParameter(kwargs) {
      return Err(TypeError);
    }
    if !Truthy(listenerId) && Truthy(tlsContainerId) {
      return Err(MissingArguments);
    }
    if Truthy(listenerId) {
      r := UpdateWhere(s, SniT, By(LISTENER_ID, listenerId), kwargs);
    } else {
      r := Ok(());
    }
  }

  /** SNI update: the error case, the no-argument case, and which rows a listener_id selects. */
  lemma {:induction false} SniUpdateCases(tables: Tables, lookups: Lookups, listenerId: Value, tlsContainerId: Value, kwargs: Row)
    requires SniT in tables
    ensures SniRepeatsParameter(kwargs) ==>
      SniUpdateOutcome(tables, lookups, listenerId, tlsContainerId, kwargs) == Outcome(Err(TypeError), tables)
    ensures !SniRepeatsParameter(kwargs) && !Truthy(listenerId) && Truthy(tlsContainerId) ==>
      SniUpdateOutcome(tables, lookups, listenerId, tlsContainerId, kwargs) == Outcome(Err(MissingArguments), tables)
    ensures !SniRepeatsParameter(kwargs) && !Truthy(listenerId) && !Truthy(tlsContainerId) ==>
      SniUpdateOutcome(tables, lookups, listenerId, tlsContainerId, kwargs) == Outcome(Ok(()), tables)
    ensures Truthy(listenerId) ==>
      SniUpdateOutcome(tables, lookups, listenerId, tlsContainerId, kwargs) ==
      SniUpdateOutcome(tables, lookups, listenerId, VNone, kwargs)
  {
  }

  // ------------------------------------------------ AmphoraRepository

  function AssociateOutcome(tables: Tables, loadBalancerId: Value, amphoraId: Value): Outcome<()>
    requires LoadBalancerT in tables && AmphoraT in tables && LoadBalancerAmphoraT in tables
  {
    var lb := FirstMatch(tables[LoadBalancerT], By(ID, loadBalancerId));
    var amp := FirstMatch(tables[AmphoraT], By(ID, amphoraId));
    if lb.None? || amp.None? then Outcome(Err(AttributeError), tables)
    else
      var link := map[AMPHORA_ID := DictGet(amp.value, ID), LOAD_BALANCER_ID := DictGet(lb.value, ID)];
      Outcome(Ok(()), tables[LoadBalancerAmphoraT := tables[LoadBalancerAmphoraT] + [link]])
  }

  /**
   * AmphoraRepository.associate: append the amphora to the load balancer's
   * `amphorae`, i.e. add one row to the association table. A missing load
   * balancer (an attribute read on None) or a missing amphora (None appended
   * to a relationship) is an AttributeError.
   */
  method Associate(s: Session, loadBalancerId: Value, amphoraId: Value) returns (r: Result<()>)
    requires s.Valid()
    modifies s
    ensures s.Valid()
    ensures Outcome(r, s.tables) == AssociateOutcome(old(s.tables), loadBalancerId, amphoraId)
  {
    var lb := Get(s, LoadBalancerT, By(ID, loadBalancerId));
    var amp := Get(s, AmphoraT, By(ID, amphoraId));
    if lb.None? || amp.None? {
      return Err(AttributeError);
    }
    var link := map[AMPHORA_ID := DictGet(amp.value, ID), LOAD_BALANCER_ID := DictGet(lb.value, ID)];
    AssociationKeepsValid(s.tables, link);
    s.tables := s.tables[LoadBalancerAmphoraT := s.tables[LoadBalancerAmphoraT] + [link]];
    return Ok(());
  }

  /** The association table has no key and no NOT NULL column: any link keeps the invariant. */
  lemma {:induction false} AssociationKeepsValid(tables: Tables, link: Row)
    requires Valid(tables)
    ensures Valid(tables[LoadBalancerAmphoraT := tables[LoadBalancerAmphoraT] + [link]])
  {
    var rows' := tables[LoadBalancerAmphoraT] + [link];
    assert !exists a: Row, b: Row :: Collide(LoadBalancerAmphoraT, a, b);
    assert TableValid(LoadBalancerAmphoraT, rows');
    ReplaceKeepsValid(tables, LoadBalancerAmphoraT, rows');
  }

  /** associate links an existing load balancer and amphora by their ids. */
  lemma {:induction false} AssociateLinks(tables: Tables, loadBalancerId: Value, amphoraId: Value)
    requires LoadBalancerT in tables && AmphoraT in tables && LoadBalancerAmphoraT in tables
    ensures var o := AssociateOutcome(tables, loadBalancerId, amphoraId);
      o.result.Ok? <==> (AnyMatch(tables[LoadBalancerT], By(ID, loadBalancerId)) && AnyMatch(tables[AmphoraT], By(ID, amphoraId)))
    ensures var o := AssociateOutcome(tables, loadBalancerId, amphoraId);
      o.result.Ok? ==> (o.tables[LoadBalancerAmphoraT] ==
        tables[LoadBalancerAmphoraT] + [map[AMPHORA_ID := amphoraId, LOAD_BALANCER_ID := loadBalancerId]])
  {
  }
}

// The compound helpers of the Repositories facade, each one transaction.
module CompoundRepositories {
  import opened Values
  import opened Models
  import opened Repositories

  /** An id that no column of any row holds yet (a freshly generated UUID). */
  ghost predicate Unused(tables: Tables, id: string)
  {
    forall t, i, c :: t in tables && 0 <= i < |tables[t]| && c in tables[t][i] ==> tables[t][i][c] != VStr(id)
  }

  /** A status write of a value other than the fresh id keeps the id unused. */
  lemma {:induction false} StatusWriteKeepsUnused(tables: Tables, t: Table, key: Value, column: string, v: Value, id: string)
    requires t in tables && Unused(tables, id) && v != VStr(id)
    ensures Unused(SetStatus(tables, t, key, column, v), id)
  {
    var tables' := SetStatus(tables, t, key, column, v);
    forall u, i, c | u in tables' && 0 <= i < |tables'[u]| && c in tables'[u][i]
      ensures tables'[u][i][c] != VStr(id)
    {
      if u == t && c != column {
        assert c in tables[t][i];
      }
    }
  }

  function CreateLbAndVipOutcome(tables: Tables, lookups: Lookups, lbDict: Row, vipDict: Row, freshId: string): (r: Outcome<Row>)
    requires LoadBalancerT in tables && VipT in tables
  {
    var lbRow := lbDict[ID := VStr(freshId)];
    var vipRow := vipDict[LOAD_BALANCER_ID := VStr(freshId)];
    if ConstructorError(LoadBalancerT, lbRow).Some? then Outcome(Err(ConstructorError(LoadBalancerT, lbRow).value), tables)
    else if ConstructorError(VipT, vipRow).Some? then Outcome(Err(ConstructorError(VipT, vipRow).value), tables)
    else
      var o1 := InsertOutcome(tables, lookups, LoadBalancerT, lbRow, freshId);
      if o1.result.Err? then Outcome(Err(o1.result.error), tables)
      else
        var o2 := InsertOutcome(o1.tables, lookups, VipT, vipRow, freshId);
        if o2.result.Err? then Outcome(Err(o2.result.error), tables)
        else Outcome(Ok(lbRow), o2.tables)
  }

  /**
   * Repositories.create_load_balancer_and_vip: one transaction that stores the
   * load balancer under a fresh id and its VIP keyed by that id, then reads
   * the load balancer back. Both model objects are built before the commit
   * flushes them, so either constructor's error comes before any database
   * error. Either both rows are stored or neither.
   */
  method CreateLoadBalancerAndVip(s: Session, lbDict: Row, vipDict: Row, freshId: string) returns (r: Result<Row>)
    requires s.Valid()
    modifies s
    ensures s.Valid()
    ensures Outcome(r, s.tables) == CreateLbAndVipOutcome(old(s.tables), s.lookups, lbDict, vipDict, freshId)
  {
    var saved := s.tables;
    var lbRow := lbDict[ID := VStr(freshId)];
    var vipRow := vipDict[LOAD_BALANCER_ID := VStr(freshId)];
    var built := ConstructorError(LoadBalancerT, lbRow);
    if built.None? {
      built := ConstructorError(VipT, vipRow);
    }
    if built.Some? {
      return Err(built.value);
    }
    var lb := Create(s, LoadBalancerT, lbRow, freshId);
    if lb.Err? {
      return Err(lb.error);
    }
    var afterLb := s.tables;
    var vip := Create(s, VipT, vipRow, freshId);
    if vip.Err? {
      s.tables := saved;
      return Err(vip.error);
    }
    InsertKeepsOtherTable(afterLb, s.lookups, VipT, vipRow, freshId, LoadBalancerT);
    GetAfterInsert(saved, s.lookups, LoadBalancerT, lbRow, 0, ID);
    assert s.tables[LoadBalancerT] == saved[LoadBalancerT] + [lbRow];
    var got := Get(s, LoadBalancerT, By(ID, VStr(freshId)));
    return Ok(got.value);
  }

  /**
   * create_load_balancer_and_vip reports the load balancer constructor's
   * error, else the VIP constructor's, and only then a database error; any
   * error leaves the tables as they were.
   */
  lemma {:induction false} CreateLbAndVipErrorOrder(tables: Tables, lookups: Lookups, lbDict: Row, vipDict: Row, freshId: string)
    requires LoadBalancerT in tables && VipT in tables
    ensures var lbError := ConstructorError(LoadBalancerT, lbDict[ID := VStr(freshId)]);
      lbError.Some? ==>
        CreateLbAndVipOutcome(tables, lookups, lbDict, vipDict, freshId) == Outcome(Err(lbError.value), tables)
    ensures var lbError := ConstructorError(LoadBalancerT, lbDict[ID := VStr(freshId)]);
      var vipError := ConstructorError(VipT, vipDict[LOAD_BALANCER_ID := VStr(freshId)]);
      lbError.None? && vipError.Some? ==>
        CreateLbAndVipOutcome(tables, lookups, lbDict, vipDict, freshId) == Outcome(Err(vipError.value), tables)
    ensures var o := CreateLbAndVipOutcome(tables, lookups, lbDict, vipDict, freshId);
      ConstructorError(LoadBalancerT, lbDict[ID := VStr(freshId)]).None? &&
      ConstructorError(VipT, vipDict[LOAD_BALANCER_ID := VStr(freshId)]).None? && o.result.Err? ==>
        o.tables == tables && (o.result.error == DBError || o.result.error == DBDuplicateEntry)
  {
    var lbRow := lbDict[ID := VStr(freshId)];
    var vipRow := vipDict[LOAD_BALANCER_ID := VStr(freshId)];
    if ConstructorError(LoadBalancerT, lbRow).None? && ConstructorError(VipT, vipRow).None? {
      assert NewRow(LoadBalancerT, lbRow, freshId) == lbRow;
      InsertErrorAfterConstructor(tables, lookups, LoadBalancerT, lbRow);
      var o1 := InsertOutcome(tables, lookups, LoadBalancerT, lbRow, freshId);
      if o1.result.Ok? {
        InsertErrorAfterConstructor(o1.tables, lookups, VipT, NewRow(VipT, vipRow, freshId));
        assert NewRow(VipT, vipRow, freshId) == vipRow;
      }
    }
  }

  lemma {:induction false} CreateLbAndVipKeepsTables(tables: Tables, lookups: Lookups, lbDict: Row, vipDict: Row, freshId: string)
    requires LoadBalancerT in tables && VipT in tables
    ensures CreateLbAndVipOutcome(tables, lookups, lbDict, vipDict, freshId).tables.Keys == tables.Keys
  {
  }

  /** create_load_balancer_and_vip: the load balancer gets the fresh id and the VIP points to it; a failure stores nothing. */
  lemma {:induction false} CreateLbAndVipStoresBoth(tables: Tables, lookups: Lookups, lbDict: Row, vipDict: Row, freshId: string)
    requires LoadBalancerT in tables && VipT in tables
    ensures var o := CreateLbAndVipOutcome(tables, lookups, lbDict, vipDict, freshId);
      (o.result.Err? ==> o.tables == tables) &&
      (o.result.Ok? ==>
        DictGet(o.result.value, ID) == VStr(freshId) &&
        o.tables[LoadBalancerT] == tables[LoadBalancerT] + [o.result.value] &&
        o.tables[VipT] == tables[VipT] + [vipDict[LOAD_BALANCER_ID := VStr(freshId)]] &&
        DictGet(o.tables[VipT][|o.tables[VipT]| - 1], LOAD_BALANCER_ID) == DictGet(o.result.value, ID))
  {
    var o := CreateLbAndVipOutcome(tables, lookups, lbDict, vipDict, freshId);
    if o.result.Ok? {
      var lbRow := lbDict[ID := VStr(freshId)];
      var o1 := InsertOutcome(tables, lookups, LoadBalancerT, lbRow, freshId);
      InsertKeepsOtherTable(tables, lookups, LoadBalancerT, lbRow, freshId, VipT);
      InsertKeepsOtherTable(o1.tables, lookups, VipT, vipDict[LOAD_BALANCER_ID := VStr(freshId)], freshId, LoadBalancerT);
    }
  }

  /**
   * The writes of create_pool_on_listener after the pool itself: the
   * session persistence naming the pool when `sp` is truthy, then the
   * listener's default pool.
   */
  function LinkNewPoolOutcome(tables: Tables, lookups: Lookups, listenerId: Value, sp: Value, freshId: string): (r: Outcome<()>)
    requires SessionPersistenceT in tables && ListenerT in tables
  {
    var persisted :=
      if !Truthy(sp) then Outcome(Ok(()), tables)
      else if !sp.VDict? then Outcome(Err(TypeError), tables)
      else
        var c := InsertOutcome(tables, lookups, SessionPersistenceT, sp.entries[POOL_ID := VStr(freshId)], freshId);
        Outcome(if c.result.Ok? then Ok(()) else Err(c.result.error), c.tables);
    if persisted.result.Err? then persisted
    else UpdateOutcome(persisted.tables, lookups, ListenerT, By(ID, listenerId), map[DEFAULT_POOL_ID := VStr(freshId)])
  }

  function CreatePoolOnListenerOutcome(tables: Tables, lookups: Lookups, listenerId: Value, poolDict: Row, sp: Value, freshId: string): (r: Outcome<Row>)
    requires PoolT in tables && SessionPersistenceT in tables && ListenerT in tables
  {
    var poolRow := poolDict[ID := VStr(freshId)];
    var created := InsertOutcome(tables, lookups, PoolT, poolRow, freshId);
    if created.result.Err? then Outcome(Err(created.result.error), tables)
    else
      var linked := LinkNewPoolOutcome(created.tables, lookups, listenerId, sp, freshId);
      if linked.result.Err? then Outcome(Err(linked.result.error), tables)
      else Outcome(Ok(poolRow), linked.tables)
  }

  /** The session persistence and listener writes of create_pool_on_listener, left to the caller to roll back. */
  method LinkNewPool(s: Session, listenerId: Value, sp: Value, freshId: string) returns (r: Result<()>)
    requires s.Valid()
    modifies s
    ensures s.Valid()
    ensures Outcome(r, s.tables) == LinkNewPoolOutcome(old(s.tables), s.lookups, listenerId, sp, freshId)
  {
    if Truthy(sp) {
      if !sp.VDict? {
        return Err(TypeError);
      }
      var created := Create(s, SessionPersistenceT, sp.entries[POOL_ID := VStr(freshId)], freshId);
      if created.Err? {
        return Err(created.error);
      }
    }
    r := Update(s, ListenerT, listenerId, map[DEFAULT_POOL_ID := VStr(freshId)]);
  }

  /**
   * Repositories.create_pool_on_listener: one transaction that stores the
   * pool under a fresh id, its session persistence when `sp` is truthy, and
   * makes the pool the listener's default pool; then reads the pool back.
   */
  method CreatePoolOnListener(s: Session, listenerId: Value, poolDict: Row, sp: Value, freshId: string) returns (r: Result<Row>)
    requires s.Valid()
    modifies s
    ensures s.Valid()
    ensures Outcome(r, s.tables) == CreatePoolOnListenerOutcome(old(s.tables), s.lookups, listenerId, poolDict, sp, freshId)
  {
    var saved := s.tables;
    var poolRow := poolDict[ID := VStr(freshId)];
    var pool := Create(s, PoolT, poolRow, freshId);
    if pool.Err? {
      return Err(pool.error);
    }
    var linked := LinkNewPool(s, listenerId, sp, freshId);
    if linked.Err? {
      s.tables := saved;
      return Err(linked.error);
    }
    CreatePoolOnListenerReturnsPool(saved, s.lookups, listenerId, poolDict, sp, freshId);
    var got := Get(s, PoolT, By(ID, VStr(freshId)));
    return Ok(got.value);
  }

  /**
   * create_pool_on_listener: the pool gets the fresh id, every listener with
   * that id now names it as default pool, and a session persistence for it
   * exists exactly when `sp` is truthy; a failure stores nothing.
   */
  lemma {:induction false} CreatePoolOnListenerLinks(tables: Tables, lookups: Lookups, listenerId: Value, poolDict: Row, sp: Value, freshId: string)
    requires Valid(tables) && Unused(tables, freshId)
    ensures var o := CreatePoolOnListenerOutcome(tables, lookups, listenerId, poolDict, sp, freshId);
      (o.result.Err? ==> o.tables == tables) &&
      (o.result.Ok? ==>
        DictGet(o.result.value, ID) == VStr(freshId) &&
        o.tables[PoolT] == tables[PoolT] + [o.result.value] &&
        (forall i :: 0 <= i < |o.tables[ListenerT]| && DictGet(tables[ListenerT][i], ID) == listenerId ==>
           DictGet(o.tables[ListenerT][i], DEFAULT_POOL_ID) == VStr(freshId)) &&
        (AnyMatch(o.tables[SessionPersistenceT], By(POOL_ID, VStr(freshId))) <==> Truthy(sp)))
    ensures var o := CreatePoolOnListenerOutcome(tables, lookups, listenerId, poolDict, sp, freshId);
      o.result.Ok? ==> o.tables[ListenerT] == UpdatedRows(tables[ListenerT], By(ID, listenerId), map[DEFAULT_POOL_ID := VStr(freshId)])
  {
    var poolRow := poolDict[ID := VStr(freshId)];
    var created := InsertOutcome(tables, lookups, PoolT, poolRow, freshId);
    if created.result.Ok? {
      var linked := LinkNewPoolOutcome(created.tables, lookups, listenerId, sp, freshId);
      assert created.tables[SessionPersistenceT] == tables[SessionPersistenceT];
      assert created.tables[ListenerT] == tables[ListenerT];
      LinkNewPoolLinks(created.tables, lookups, listenerId, sp, freshId);
    }
  }

  /**
   * The writes after the pool: the listener with that id names the pool as
   * default, and a session persistence for it exists exactly when `sp` is
   * truthy, given that none did before; no pool changes.
   */
  lemma {:induction false} LinkNewPoolLinks(tables: Tables, lookups: Lookups, listenerId: Value, sp: Value, freshId: string)
    requires SessionPersistenceT in tables && ListenerT in tables && PoolT in tables
    requires forall i :: 0 <= i < |tables[SessionPersistenceT]| ==> DictGet(tables[SessionPersistenceT][i], POOL_ID) != VStr(freshId)
    ensures var o := LinkNewPoolOutcome(tables, lookups, listenerId, sp, freshId);
      o.result.Ok? ==>
        && PoolT in o.tables && o.tables[PoolT] == tables[PoolT]
        && ListenerT in o.tables
        && o.tables[ListenerT] == UpdatedRows(tables[ListenerT], By(ID, listenerId), map[DEFAULT_POOL_ID := VStr(freshId)])
        && (forall i :: 0 <= i < |o.tables[ListenerT]| && DictGet(tables[ListenerT][i], ID) == listenerId ==>
              DictGet(o.tables[ListenerT][i], DEFAULT_POOL_ID) == VStr(freshId))
        && SessionPersistenceT in o.tables
        && (AnyMatch(o.tables[SessionPersistenceT], By(POOL_ID, VStr(freshId))) <==> Truthy(sp))
  {
    var o := LinkNewPoolOutcome(tables, lookups, listenerId, sp, freshId);
    if o.result.Ok? {
      var f := By(POOL_ID, VStr(freshId));
      var sps := o.tables[SessionPersistenceT];
      if Truthy(sp) {
        var row := sp.entries[POOL_ID := VStr(freshId)];
        assert sps == tables[SessionPersistenceT] + [row];
        assert Matches(sps[|sps| - 1], f);
      } else {
        assert sps == tables[SessionPersistenceT];
        forall i | 0 <= i < |sps| ensures !Matches(sps[i], f) {
          assert DictGet(sps[i], POOL_ID) != f[POOL_ID];
        }
      }
      var rows := tables[ListenerT];
      var rows' := UpdatedRows(rows, By(ID, listenerId), map[DEFAULT_POOL_ID := VStr(freshId)]);
      assert o.tables[ListenerT] == rows';
      forall i | 0 <= i < |rows'| && DictGet(rows[i], ID) == listenerId
        ensures DictGet(rows'[i], DEFAULT_POOL_ID) == VStr(freshId)
      {
        assert Matches(rows[i], By(ID, listenerId));
      }
    }
  }

  /** create_pool_on_listener returns the pool row it stored, which `get` finds under the fresh id. */
  lemma {:induction false} CreatePoolOnListenerReturnsPool(tables: Tables, lookups: Lookups, listenerId: Value, poolDict: Row, sp: Value, freshId: string)
    requires PoolT in tables && SessionPersistenceT in tables && ListenerT in tables
    ensures var o := CreatePoolOnListenerOutcome(tables, lookups, listenerId, poolDict, sp, freshId);
      o.result.Ok? ==> (o.result.value == poolDict[ID := VStr(freshId)] && PoolT in o.tables &&
        FirstMatch(o.tables[PoolT], By(ID, VStr(freshId))) == Some(o.result.value))
  {
    var o := CreatePoolOnListenerOutcome(tables, lookups, listenerId, poolDict, sp, freshId);
    if o.result.Ok? {
      var poolRow := poolDict[ID := VStr(freshId)];
      assert InsertOutcome(tables, lookups, PoolT, poolRow, freshId).result.Ok?;
      assert o.tables[PoolT] == tables[PoolT] + [poolRow];
      GetAfterInsert(tables, lookups, PoolT, poolRow, 0, ID);
    }
  }

  /** Where the session persistence step of update_pool_on_listener leaves the tables. */
  function SessionPersistenceStep(tables: Tables, lookups: Lookups, poolId: Value, sp: Value): (r: Outcome<()>)
    requires SessionPersistenceT in tables
  {
    if !Truthy(sp) then Outcome(Ok(()), tables)
    else if !sp.VDict? then Outcome(Err(TypeError), tables)
    else if AnyMatch(tables[SessionPersistenceT], By(POOL_ID, poolId)) then
      KeyedUpdateOutcome(tables, lookups, SessionPersistenceT, poolId, sp.entries)
    else
      var created := InsertOutcome(tables, lookups, SessionPersistenceT, sp.entries[POOL_ID := poolId], "");
      Outcome(if created.result.Ok? then Ok(()) else Err(created.result.error), created.tables)
  }

  /**
   * The session persistence step of update_pool_on_listener: with a truthy
   * `sp` update the pool's session persistence if it exists, else create one
   * with `pool_id` set.
   */
  method SaveSessionPersistence(s: Session, poolId: Value, sp: Value) returns (r: Result<()>)
    requires s.Valid()
    modifies s
    ensures s.Valid()
    ensures Outcome(r, s.tables) == SessionPersistenceStep(old(s.tables), s.lookups, poolId, sp)
  {
    if !Truthy(sp) {
      return Ok(());
    }
    if !sp.VDict? {
      return Err(TypeError);
    }
    var spExists := Exists(s, SessionPersistenceT, poolId);
    AnyMatchBy(s.tables[SessionPersistenceT], POOL_ID, poolId);
    assert spExists <==> AnyMatch(s.tables[SessionPersistenceT], By(POOL_ID, poolId));
    if spExists {
      r := Update(s, SessionPersistenceT, poolId, sp.entries);
    } else {
      var c := Create(s, SessionPersistenceT, sp.entries[POOL_ID := poolId], "");
      r := if c.Ok? then Ok(()) else Err(c.error);
    }
  }

  /** The transaction of update_pool_on_listener: pool update, then the session persistence step, or nothing. */
  function UpdatePoolTransaction(tables: Tables, lookups: Lookups, poolId: Value, poolDict: Row, sp: Value): (r: Outcome<()>)
    requires PoolT in tables && SessionPersistenceT in tables
  {
    var o1 := KeyedUpdateOutcome(tables, lookups, PoolT, poolId, poolDict);
    if o1.result.Err? then o1
    else
      var o2 := SessionPersistenceStep(o1.tables, lookups, poolId, sp);
      if o2.result.Err? then Outcome(o2.result, tables) else o2
  }

  /** What update_pool_on_listener does after its transaction committed. */
  function AfterUpdatePool(committed: Tables, poolId: Value, sp: Value): (r: Outcome<Row>)
    requires PoolT in committed && SessionPersistenceT in committed
  {
    match FirstMatch(committed[PoolT], By(ID, poolId))
    case None => Outcome(Err(AttributeError), committed)
    case Some(pool) =>
      if AnyMatch(committed[SessionPersistenceT], By(POOL_ID, poolId)) && !Truthy(sp) then
        Outcome(Ok(pool), DeleteOutcome(committed, SessionPersistenceT, By(POOL_ID, poolId)).tables)
      else Outcome(Ok(pool), committed)
  }

  function UpdatePoolOnListenerOutcome(tables: Tables, lookups: Lookups, poolId: Value, poolDict: Row, sp: Value): (r: Outcome<Row>)
    requires PoolT in tables && SessionPersistenceT in tables
  {
    var o := UpdatePoolTransaction(tables, lookups, poolId, poolDict, sp);
    if o.result.Err? then Outcome(Err(o.result.error), o.tables)
    else AfterUpdatePool(o.tables, poolId, sp)
  }

  method UpdatePoolCommitted(s: Session, poolId: Value, poolDict: Row, sp: Value) returns (r: Result<()>)
    requires s.Valid()
    modifies s
    ensures s.Valid()
    ensures Outcome(r, s.tables) == UpdatePoolTransaction(old(s.tables), s.lookups, poolId, poolDict, sp)
  {
    var saved := s.tables;
    r := Update(s, PoolT, poolId, poolDict);
    if r.Err? {
      return;
    }
    r := SaveSessionPersistence(s, poolId, sp);
    if r.Err? {
      s.tables := saved;
    }
  }

  /** The part of update_pool_on_listener after the commit: read the pool back, drop a persistence `sp` no longer asks for. */
  method FinishUpdatePool(s: Session, poolId: Value, sp: Value) returns (r: Result<Row>)
    requires s.Valid()
    modifies s
    ensures s.Valid()
    ensures Outcome(r, s.tables) == AfterUpdatePool(old(s.tables), poolId, sp)
  {
    var pool := Get(s, PoolT, By(ID, poolId));
    if pool.None? {
      return Err(AttributeError);
    }
    pool := DropUnaskedPersistence(s, poolId, sp, pool);
    return Ok(pool.value);
  }

  /** `if db_pool.session_persistence is not None and not sp_dict`: delete it and read the pool again. */
  method DropUnaskedPersistence(s: Session, poolId: Value, sp: Value, pool: Option<Row>) returns (pool': Option<Row>)
    requires s.Valid()
    requires pool == FirstMatch(s.tables[PoolT], By(ID, poolId))
    modifies s
    ensures s.Valid()
    ensures pool' == pool
    ensures s.tables ==
      if AnyMatch(old(s.tables)[SessionPersistenceT], By(POOL_ID, poolId)) && !Truthy(sp)
      then DeleteOutcome(old(s.tables), SessionPersistenceT, By(POOL_ID, poolId)).tables
      else old(s.tables)
  {
    pool' := pool;
    var hasSp := Exists(s, SessionPersistenceT, poolId);
    assert KeyColumn(SessionPersistenceT) == POOL_ID;
    AnyMatchBy(s.tables[SessionPersistenceT], POOL_ID, poolId);
    ghost var dropped := AnyMatch(s.tables[SessionPersistenceT], By(POOL_ID, poolId)) && !Truthy(sp);
    assert dropped == (hasSp && !Truthy(sp));
    if hasSp && !Truthy(sp) {
      pool' := DropPersistence(s, poolId);
    }
  }

  /** The pool's session persistence is deleted and the pool read again: it is the same pool. */
  method DropPersistence(s: Session, poolId: Value) returns (pool: Option<Row>)
    requires s.Valid()
    modifies s
    ensures s.Valid()
    ensures s.tables == DeleteOutcome(old(s.tables), SessionPersistenceT, By(POOL_ID, poolId)).tables
    ensures pool == FirstMatch(old(s.tables)[PoolT], By(ID, poolId))
  {
    var before := s.tables;
    var d := Delete(s, SessionPersistenceT, By(POOL_ID, poolId));
    DeleteKeepsOtherTable(before, SessionPersistenceT, By(POOL_ID, poolId), PoolT);
    pool := Get(s, PoolT, By(ID, poolId));
  }

  /**
   * Repositories.update_pool_on_listener: one transaction that updates the
   * pool and updates or creates its session persistence when `sp` is truthy;
   * afterwards a session persistence left without a truthy `sp` is deleted.
   * An unknown pool id is an attribute read on None after the commit.
   */
  method UpdatePoolOnListener(s: Session, poolId: Value, poolDict: Row, sp: Value) returns (r: Result<Row>)
    requires s.Valid()
    modifies s
    ensures s.Valid()
    ensures Outcome(r, s.tables) == UpdatePoolOnListenerOutcome(old(s.tables), s.lookups, poolId, poolDict, sp)
  {
    var t := UpdatePoolCommitted(s, poolId, poolDict, sp);
    if t.Err? {
      return Err(t.error);
    }
    r := FinishUpdatePool(s, poolId, sp);
  }

  /** A successful session persistence step with a truthy `sp` leaves one for the pool. */
  lemma {:induction false} StepLeavesPersistence(tables: Tables, lookups: Lookups, poolId: Value, sp: Value)
    requires SessionPersistenceT in tables && Truthy(sp)
    requires sp.VDict? ==> POOL_ID !in sp.entries || sp.entries[POOL_ID] == poolId
    requires SessionPersistenceStep(tables, lookups, poolId, sp).result.Ok?
    ensures AnyMatch(SessionPersistenceStep(tables, lookups, poolId, sp).tables[SessionPersistenceT], By(POOL_ID, poolId))
  {
    var f := By(POOL_ID, poolId);
    var sps := tables[SessionPersistenceT];
    var o2 := SessionPersistenceStep(tables, lookups, poolId, sp);
    assert KeyColumn(SessionPersistenceT) == POOL_ID;
    if AnyMatch(sps, f) {
      var i :| 0 <= i < |sps| && Matches(sps[i], f);
      var sps' := UpdatedRows(sps, f, sp.entries);
      assert o2 == UpdateOutcome(tables, lookups, SessionPersistenceT, f, sp.entries);
      assert o2.tables[SessionPersistenceT] == sps';
      assert DictGet(sps'[i], POOL_ID) == poolId;
      assert Matches(sps'[i], f);
    } else {
      var row := NewRow(SessionPersistenceT, sp.entries[POOL_ID := poolId], "");
      assert o2.tables[SessionPersistenceT] == sps + [row];
      assert Matches(row, f);
      assert (sps + [row])[|sps|] == row;
    }
  }

  /** Deleting the first persistence of a pool leaves none: a pool has at most one. */
  lemma {:induction false} DeleteLeavesNoPersistence(tables: Tables, poolId: Value)
    requires Valid(tables) && AnyMatch(tables[SessionPersistenceT], By(POOL_ID, poolId))
    ensures !AnyMatch(DeleteOutcome(tables, SessionPersistenceT, By(POOL_ID, poolId)).tables[SessionPersistenceT], By(POOL_ID, poolId))
  {
    var f := By(POOL_ID, poolId);
    var sps := tables[SessionPersistenceT];
    var k := FirstIndex(sps, f).value;
    var sps' := sps[..k] + sps[k + 1..];
    assert DeleteOutcome(tables, SessionPersistenceT, f).tables[SessionPersistenceT] == sps';
    forall j | 0 <= j < |sps'| ensures !Matches(sps'[j], f) {
      var j0 := if j < k then j else j + 1;
      assert sps'[j] == sps[j0];
      OneSessionPersistencePerPool(tables, k, j0);
    }
  }

  /**
   * update_pool_on_listener: on success the pool has a session persistence
   * exactly when `sp` is truthy.
   */
  lemma {:induction false} UpdatePoolKeepsPersistenceIffGiven(tables: Tables, lookups: Lookups, poolId: Value, poolDict: Row, sp: Value)
    requires Valid(tables)
    requires sp.VDict? ==> POOL_ID !in sp.entries || sp.entries[POOL_ID] == poolId
    ensures var o := UpdatePoolOnListenerOutcome(tables, lookups, poolId, poolDict, sp);
      o.result.Ok? ==> (AnyMatch(o.tables[SessionPersistenceT], By(POOL_ID, poolId)) <==> Truthy(sp))
  {
    var o := UpdatePoolOnListenerOutcome(tables, lookups, poolId, poolDict, sp);
    var t := UpdatePoolTransaction(tables, lookups, poolId, poolDict, sp);
    if o.result.Ok? {
      assert t.result.Ok?;
      CommittedPoolUpdate(tables, lookups, poolId, poolDict, sp);
      var updated := UpdateOutcome(tables, lookups, PoolT, By(ID, poolId), poolDict).tables;
      assert o == AfterUpdatePool(t.tables, poolId, sp);
      if Truthy(sp) {
        StepLeavesPersistence(updated, lookups, poolId, sp);
      } else if AnyMatch(t.tables[SessionPersistenceT], By(POOL_ID, poolId)) {
        DeleteLeavesNoPersistence(t.tables, poolId);
      }
    }
  }

  /** A committed update_pool_on_listener transaction: a clean pool update, then the session persistence step on its result. */
  lemma {:induction false} CommittedPoolUpdate(tables: Tables, lookups: Lookups, poolId: Value, poolDict: Row, sp: Value)
    requires Valid(tables)
    requires UpdatePoolTransaction(tables, lookups, poolId, poolDict, sp).result.Ok?
    ensures var o1 := UpdateOutcome(tables, lookups, PoolT, By(ID, poolId), poolDict);
      && o1.result.Ok? && Valid(o1.tables)
      && UpdatePoolTransaction(tables, lookups, poolId, poolDict, sp) == SessionPersistenceStep(o1.tables, lookups, poolId, sp)
      && (!Truthy(sp) ==> UpdatePoolTransaction(tables, lookups, poolId, poolDict, sp).tables == o1.tables)
  {
    var o1 := KeyedUpdateOutcome(tables, lookups, PoolT, poolId, poolDict);
    assert o1.result.Ok? && !RepeatsParameter(PoolT, poolDict);
    assert o1 == UpdateOutcome(tables, lookups, PoolT, By(ID, poolId), poolDict);
    UpdateKeepsValid(tables, lookups, PoolT, By(ID, poolId), poolDict);
  }

  lemma {:induction false} CreatePoolOnListenerKeepsTables(tables: Tables, lookups: Lookups, listenerId: Value, poolDict: Row, sp: Value, freshId: string)
    requires PoolT in tables && SessionPersistenceT in tables && ListenerT in tables
    ensures CreatePoolOnListenerOutcome(tables, lookups, listenerId, poolDict, sp, freshId).tables.Keys == tables.Keys
  {
  }

  lemma {:induction false} UpdatePoolOnListenerKeepsTables(tables: Tables, lookups: Lookups, poolId: Value, poolDict: Row, sp: Value)
    requires PoolT in tables && SessionPersistenceT in tables
    ensures UpdatePoolOnListenerOutcome(tables, lookups, poolId, poolDict, sp).tables.Keys == tables.Keys
  {
    var t := UpdatePoolTransaction(tables, lookups, poolId, poolDict, sp);
    TransactionKeepsTables(tables, lookups, poolId, poolDict, sp);
    if t.result.Ok? {
      AfterUpdatePoolKeepsTables(t.tables, poolId, sp);
    }
  }

  lemma {:induction false} TransactionKeepsTables(tables: Tables, lookups: Lookups, poolId: Value, poolDict: Row, sp: Value)
    requires PoolT in tables && SessionPersistenceT in tables
    ensures UpdatePoolTransaction(tables, lookups, poolId, poolDict, sp).tables.Keys == tables.Keys
  {
    var o1 := KeyedUpdateOutcome(tables, lookups, PoolT, poolId, poolDict);
    if o1.result.Ok? {
      StepTouchesOnlyPersistence(o1.tables, lookups, poolId, sp);
    }
  }

  lemma {:induction false} AfterUpdatePoolKeepsTables(committed: Tables, poolId: Value, sp: Value)
    requires PoolT in committed && SessionPersistenceT in committed
    ensures AfterUpdatePool(committed, poolId, sp).tables.Keys == committed.Keys
  {
  }

  /** The session persistence step writes no other table. */
  lemma {:induction false} StepTouchesOnlyPersistence(tables: Tables, lookups: Lookups, poolId: Value, sp: Value)
    requires SessionPersistenceT in tables
    ensures SessionPersistenceT in SessionPersistenceStep(tables, lookups, poolId, sp).tables
    ensures var o := SessionPersistenceStep(tables, lookups, poolId, sp);
      forall t :: t != SessionPersistenceT ==> (t in o.tables <==> t in tables) && (t in tables ==> o.tables[t] == tables[t])
  {
  }

  /** After the commit, update_pool_on_listener returns the pool `get` finds and writes no table but the session persistences. */
  lemma {:induction false} AfterUpdatePoolReturnsPool(committed: Tables, poolId: Value, sp: Value)
    requires PoolT in committed && SessionPersistenceT in committed
    ensures var o := AfterUpdatePool(committed, poolId, sp);
      (o.result.Ok? <==> FirstMatch(committed[PoolT], By(ID, poolId)).Some?) &&
      (o.result.Ok? ==> Some(o.result.value) == FirstMatch(committed[PoolT], By(ID, poolId))) &&
      PoolT in o.tables && o.tables[PoolT] == committed[PoolT] &&
      (ListenerT in committed ==> ListenerT in o.tables && o.tables[ListenerT] == committed[ListenerT])
  {
  }

  /** The committed transaction of update_pool_on_listener wrote the pool fields and left the listeners alone; a failed one changed nothing. */
  lemma {:induction false} TransactionWritesPool(tables: Tables, lookups: Lookups, poolId: Value, poolDict: Row, sp: Value)
    requires Complete(tables)
    ensures var t := UpdatePoolTransaction(tables, lookups, poolId, poolDict, sp);
      (t.result.Err? ==> t.tables == tables) &&
      (t.result.Ok? ==>
        !RepeatsParameter(PoolT, poolDict) &&
        PoolT in t.tables && SessionPersistenceT in t.tables && ListenerT in t.tables &&
        t.tables[PoolT] == UpdatedRows(tables[PoolT], By(ID, poolId), poolDict) &&
        t.tables[ListenerT] == tables[ListenerT])
  {
    var o1 := KeyedUpdateOutcome(tables, lookups, PoolT, poolId, poolDict);
    KeyedUpdateTypeErrorIffRepeated(tables, lookups, PoolT, poolId, poolDict);
    if o1.result.Ok? {
      assert KeyColumn(PoolT) == ID && o1 == UpdateOutcome(tables, lookups, PoolT, By(ID, poolId), poolDict);
      assert o1.tables == tables[PoolT := UpdatedRows(tables[PoolT], By(ID, poolId), poolDict)];
      StepTouchesOnlyPersistence(o1.tables, lookups, poolId, sp);
    }
  }

  /** The row update_pool_on_listener returns after its transaction committed is the pool with the written fields. */
  lemma {:induction false} CommittedPoolReturned(tables: Tables, lookups: Lookups, poolId: Value, poolDict: Row, sp: Value)
    requires Complete(tables) && AnyMatch(tables[PoolT], By(ID, poolId))
    requires UpdatePoolTransaction(tables, lookups, poolId, poolDict, sp).result.Ok?
    ensures var o := UpdatePoolOnListenerOutcome(tables, lookups, poolId, poolDict, sp);
      o.result.Ok? && PoolT in o.tables && ListenerT in o.tables &&
      o.tables[PoolT] == UpdatedRows(tables[PoolT], By(ID, poolId), poolDict) &&
      o.tables[ListenerT] == tables[ListenerT] &&
      Some(o.result.value) == FirstMatch(o.tables[PoolT], By(ID, poolId)) &&
      o.result.value == FirstMatch(tables[PoolT], By(ID, poolId)).value + poolDict
  {
    var t := UpdatePoolTransaction(tables, lookups, poolId, poolDict, sp);
    TransactionWritesPool(tables, lookups, poolId, poolDict, sp);
    assert KeyColumn(PoolT) == ID && ID !in poolDict;
    UpdateKeepsFirstMatch(tables[PoolT], By(ID, poolId), poolDict);
    AfterUpdatePoolReturnsPool(t.tables, poolId, sp);
  }

  /**
   * update_pool_on_listener on an existing pool: a failure, a keyword that
   * repeats `id` or `session` included, changes nothing; otherwise the pool row carries the written
   * fields, it is the row returned, and no listener is touched.
   */
  lemma {:induction false} UpdatePoolOnListenerWritesPool(tables: Tables, lookups: Lookups, poolId: Value, poolDict: Row, sp: Value)
    requires Complete(tables) && AnyMatch(tables[PoolT], By(ID, poolId))
    ensures var o := UpdatePoolOnListenerOutcome(tables, lookups, poolId, poolDict, sp);
      (o.result.Err? ==> o.tables == tables) &&
      (o.result.Ok? ==>
        PoolT in o.tables && ListenerT in o.tables &&
        o.tables[PoolT] == UpdatedRows(tables[PoolT], By(ID, poolId), poolDict) &&
        o.tables[ListenerT] == tables[ListenerT] &&
        Some(o.result.value) == FirstMatch(o.tables[PoolT], By(ID, poolId)) &&
        o.result.value == FirstMatch(tables[PoolT], By(ID, poolId)).value + poolDict)
  {
    TransactionWritesPool(tables, lookups, poolId, poolDict, sp);
    if UpdatePoolTransaction(tables, lookups, poolId, poolDict, sp).result.Ok? {
      CommittedPoolReturned(tables, lookups, poolId, poolDict, sp);
    }
  }
}
