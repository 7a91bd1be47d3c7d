/** `PostgresProductRepository`: `get`, `get_by_id` and `save` over the
    `product` table. The table is a sequence of rows in storage order; the
    driver's failures (`fault`) and the database clock (`insertedAt`) are
    inputs. */
module ProductRepository {
  import opened Wrappers
  import opened DomainError
  import opened UuidText
  import opened Id
  import opened Name
  import opened Price
  import opened Currency
  import opened Timestamp
  import opened Product
  import opened ProductRow

  /** `get` asks for at most this many rows (`LIMIT 50`). */
  const GetLimit: nat := 50

  /** SQLSTATE of a unique-constraint violation (class 23, integrity
      constraint violation, in the PostgreSQL error-code table). */
  const UniqueViolation: string := "23505"

  /** A driver failure: an error reported by the database server, with its
      SQLSTATE when it has one, or any other failure (pool, network, protocol).
      `text` is the error's `to_string`. */
  datatype DriverError =
    | Database(code: Option<string>, text: string)
    | Other(text: string)

  datatype Table = Table(rows: seq<Row>)

  function Min(a: int, b: int): int {
    if a <= b then a else b
  }

  function RowId(row: Row): Option<Uuid> {
    if |row| > 0 && row[0].UuidCol? then Some(row[0].u) else None
  }

  predicate HasId(t: Table, u: Uuid) {
    exists i :: 0 <= i < |t.rows| && RowId(t.rows[i]) == Some(u)
  }

  /** The primary-key constraint on `id`. */
  predicate UniqueIds(t: Table) {
    forall i, j :: 0 <= i < j < |t.rows| && RowId(t.rows[i]).Some? ==> RowId(t.rows[i]) != RowId(t.rows[j])
  }

  // ---- save ----

  /** The error mapping of `save`: only a database error carrying SQLSTATE
      23505 is a duplicate; everything else is a persistence failure with the
      driver's message. */
  function SaveError(e: DriverError): (r: Error)
    ensures r == ProductAlreadyExists <==> e.Database? && e.code == Some(UniqueViolation)
    ensures r != ProductAlreadyExists ==> r == Persistence(e.text)
  {
    if e.Database? && e.code == Some(UniqueViolation) then ProductAlreadyExists else Persistence(e.text)
  }

  /** What the server reports when the inserted id is already present. */
  const DuplicateKey: DriverError := Database(Some(UniqueViolation), "duplicate key value violates unique constraint")

  /** `INSERT INTO product (id, name, price, currency)`: the four bound
      primitives, and both timestamps from the column defaults. */
  function InsertedRow(p: Product, insertedAt: Instant): (row: Row)
    ensures RowId(row) == Some(p.id.uuid)
  {
    [ UuidCol(p.id.uuid), TextCol(Name.ToPrimitive(p.name)), Int4Col(Price.ToPrimitive(p.price)),
      TextCol(Currency.Display(p.currency)), TimestampCol(insertedAt), TimestampCol(insertedAt) ]
  }

  /** The product a saved one reads back as: the store's timestamps replace
      the entity's own. */
  function Stored(p: Product, insertedAt: Instant): Product {
    p.(createdAt := ProductTimeStamp(insertedAt), updatedAt := ProductTimeStamp(insertedAt))
  }

  datatype Saved = Saved(table: Table, result: Result<Unit, Error>)

  function Save(t: Table, p: Product, fault: Option<DriverError>, insertedAt: Instant): (s: Saved)
    ensures fault.Some? ==> s == Saved(t, Err(SaveError(fault.value)))
    ensures fault.None? && HasId(t, p.id.uuid) ==> s == Saved(t, Err(ProductAlreadyExists))
    ensures s.result.Ok? <==> fault.None? && !HasId(t, p.id.uuid)
    ensures s.result.Ok? ==> s.table.rows == t.rows + [InsertedRow(p, insertedAt)]
    ensures s.result.Err? ==> s.table == t
  {
    if fault.Some? then Saved(t, Err(SaveError(fault.value)))
    else if HasId(t, p.id.uuid) then Saved(t, Err(SaveError(DuplicateKey)))
    else Saved(Table(t.rows + [InsertedRow(p, insertedAt)]), Ok(Unit))
  }

  /** Saving keeps the primary key unique. */
  lemma SavePreservesUniqueIds(t: Table, p: Product, fault: Option<DriverError>, insertedAt: Instant)
    requires UniqueIds(t)
    ensures UniqueIds(Save(t, p, fault, insertedAt).table)
  {
    var s := Save(t, p, fault, insertedAt);
    if s.result.Ok? {
      forall i, j | 0 <= i < j < |s.table.rows| && RowId(s.table.rows[i]).Some?
        ensures RowId(s.table.rows[i]) != RowId(s.table.rows[j])
      {
        if j == |t.rows| {
          assert s.table.rows[i] == t.rows[i];
        } else {
          assert s.table.rows[i] == t.rows[i] && s.table.rows[j] == t.rows[j];
        }
      }
    }
  }

  /** After a successful save the table holds exactly one more id. */
  lemma SaveHasId(t: Table, p: Product, insertedAt: Instant, u: Uuid)
    requires Save(t, p, None, insertedAt).result.Ok?
    ensures HasId(Save(t, p, None, insertedAt).table, u) <==> HasId(t, u) || u == p.id.uuid
  {
    var t' := Save(t, p, None, insertedAt).table;
    if HasId(t', u) {
      var i :| 0 <= i < |t'.rows| && RowId(t'.rows[i]) == Some(u);
      if i < |t.rows| {
        assert t'.rows[i] == t.rows[i];
      }
    }
    if HasId(t, u) {
      var i :| 0 <= i < |t.rows| && RowId(t.rows[i]) == Some(u);
      assert t'.rows[i] == t.rows[i];
    }
    if u == p.id.uuid {
      assert t'.rows[|t.rows|] == InsertedRow(p, insertedAt);
    }
  }

  /** A second save of the same id is refused as a duplicate and changes
      nothing. */
  lemma DuplicateSaveRefused(t: Table, p: Product, q: Product, at1: Instant, at2: Instant)
    requires Save(t, p, None, at1).result.Ok?
    requires q.id == p.id
    ensures var t' := Save(t, p, None, at1).table;
            Save(t', q, None, at2) == Saved(t', Err(ProductAlreadyExists))
  {
    SaveHasId(t, p, at1, p.id.uuid);
  }

  /** The row `save` writes decodes to the stored form of the product. */
  lemma InsertedRowDecodes(p: Product, insertedAt: Instant)
    ensures FromRow(InsertedRow(p, insertedAt)) == Ok(Stored(p, insertedAt))
  {
    assert InsertedRow(p, insertedAt) == ToRow(Stored(p, insertedAt));
    FromRowToRow(Stored(p, insertedAt));
  }

  // ---- get_by_id ----

  /** The position of the first row with the given id. */
  function FirstWithId(rows: seq<Row>, u: Uuid): (r: Option<nat>)
    ensures r.Some? ==> r.value < |rows| && RowId(rows[r.value]) == Some(u)
    ensures r.Some? ==> forall j :: 0 <= j < r.value ==> RowId(rows[j]) != Some(u)
    ensures r.None? ==> forall j :: 0 <= j < |rows| ==> RowId(rows[j]) != Some(u)
  {
    if |rows| == 0 then None
    else if RowId(rows[0]) == Some(u) then Some(0)
    else match FirstWithId(rows[1..], u)
      case None => None
      case Some(k) => Some(k + 1)
  }

  /** `SELECT * FROM product WHERE id = $1`, at most one row, decoded. */
  function GetById(t: Table, id: ProductId, fault: Option<DriverError>): (r: Result<Option<Product>, Error>)
    ensures fault.Some? ==> r == Err(Persistence(fault.value.text))
    ensures fault.None? ==> (r == Ok(None) <==> !HasId(t, id.uuid))
    ensures r.Ok? && r.value.Some? ==> r.value.value.id == id
    ensures r.Err? ==> r.error.Persistence?
    ensures fault.None? && HasId(t, id.uuid) ==>
      && FirstWithId(t.rows, id.uuid).Some?
      && var row := t.rows[FirstWithId(t.rows, id.uuid).value];
         && (r.Ok? <==> FromRow(row).Ok?)
         && (r.Ok? ==> r.value == Some(FromRow(row).value))
         && (r.Err? ==> r.error == Persistence(DecodeText(FromRow(row).error)))
  {
    if fault.Some? then Err(Persistence(fault.value.text))
    else match FirstWithId(t.rows, id.uuid)
      case None => Ok(None)
      case Some(i) =>
        match FromRow(t.rows[i])
        case Err(e) => Err(Persistence(DecodeText(e)))
        case Ok(p) => Ok(Some(p))
  }

  /** A fresh database has no product under any id. */
  lemma EmptyDatabaseGetById(id: ProductId)
    ensures GetById(Table([]), id, None) == Ok(None)
  {
  }

  /** A saved product is found again under its id, with the store's
      timestamps. */
  lemma SaveThenGetById(t: Table, p: Product, insertedAt: Instant)
    requires !HasId(t, p.id.uuid)
    ensures Save(t, p, None, insertedAt).result == Ok(Unit)
    ensures GetById(Save(t, p, None, insertedAt).table, p.id, None) == Ok(Some(Stored(p, insertedAt)))
  {
    var t' := Save(t, p, None, insertedAt).table;
    var k := FirstWithId(t'.rows, p.id.uuid);
    assert RowId(t'.rows[|t.rows|]) == Some(p.id.uuid);
    assert k.Some?;
    assert k.value == |t.rows|;
    InsertedRowDecodes(p, insertedAt);
  }

  // ---- get ----

  predicate AllDecode(rows: seq<Row>) {
    forall i :: 0 <= i < |rows| ==> FromRow(rows[i]).Ok?
  }

  /** `SELECT * FROM product LIMIT 50`, every row decoded in turn; the first
      row that does not decode fails the whole call. The model returns the
      rows in storage order, one of the orders the unordered query allows. */
  method Get(t: Table, fault: Option<DriverError>) returns (r: Result<seq<Product>, Error>)
    ensures fault.Some? ==> r == Err(Persistence(fault.value.text))
    ensures r.Ok? <==> fault.None? && AllDecode(t.rows[..Min(GetLimit, |t.rows|)])
    ensures r.Ok? ==> |r.value| == Min(GetLimit, |t.rows|)
    ensures r.Ok? ==> forall i :: 0 <= i < |r.value| ==> FromRow(t.rows[i]) == Ok(r.value[i])
    ensures r.Ok? && UniqueIds(t) ==> forall i, j :: 0 <= i < j < |r.value| ==> r.value[i].id != r.value[j].id
    ensures r.Err? && fault.None? ==>
      exists i :: && 0 <= i < Min(GetLimit, |t.rows|)
                  && (forall k :: 0 <= k < i ==> FromRow(t.rows[k]).Ok?)
                  && FromRow(t.rows[i]).Err?
                  && r.error == Persistence(DecodeText(FromRow(t.rows[i]).error))
  {
    if fault.Some? {
      return Err(Persistence(fault.value.text));
    }
    var n := Min(GetLimit, |t.rows|);
    var items: seq<Product> := [];
    var i := 0;
    while i < n
      invariant 0 <= i <= n
      invariant |items| == i
      invariant forall k :: 0 <= k < i ==> FromRow(t.rows[k]) == Ok(items[k])
    {
      var decoded := FromRow(t.rows[i]);
      if decoded.Err? {
        assert !AllDecode(t.rows[..n]) by {
          assert t.rows[..n][i] == t.rows[i];
        }
        return Err(Persistence(DecodeText(decoded.error)));
      }
      items := items + [decoded.value];
      i := i + 1;
    }
    assert AllDecode(t.rows[..n]) by {
      forall k | 0 <= k < n
        ensures FromRow(t.rows[..n][k]).Ok?
      {
        assert t.rows[..n][k] == t.rows[k];
      }
    }
    if UniqueIds(t) {
      forall a, b | 0 <= a < b < |items|
        ensures items[a].id != items[b].id
      {
        assert RowId(t.rows[a]) == Some(items[a].id.uuid);
        assert RowId(t.rows[b]) == Some(items[b].id.uuid);
      }
    }
    return Ok(items);
  }

  /** A fresh database lists nothing. */
  method EmptyDatabaseGet() returns (r: Result<seq<Product>, Error>)
    ensures r == Ok([])
  {
    r := Get(Table([]), None);
  }

  /** Saving products with distinct ids into a fresh database, then listing:
      up to the limit, every one comes back, in the order saved, with the
      store's timestamps. */
  method SaveAllThenGet(ps: seq<Product>, insertedAt: Instant) returns (r: Result<seq<Product>, Error>)
    requires |ps| <= GetLimit
    requires forall i, j :: 0 <= i < j < |ps| ==> ps[i].id != ps[j].id
    ensures r.Ok? && |r.value| == |ps|
    ensures forall i :: 0 <= i < |ps| ==> r.value[i] == Stored(ps[i], insertedAt)
  {
    var t := Table([]);
    var i := 0;
    while i < |ps|
      invariant 0 <= i <= |ps|
      invariant |t.rows| == i
      invariant forall k :: 0 <= k < i ==> t.rows[k] == InsertedRow(ps[k], insertedAt)
    {
      assert !HasId(t, ps[i].id.uuid) by {
        forall k | 0 <= k < i
          ensures RowId(t.rows[k]) != Some(ps[i].id.uuid)
        {
          assert ps[k].id != ps[i].id;
        }
      }
      var s := Save(t, ps[i], None, insertedAt);
      t := s.table;
      i := i + 1;
    }
    forall k | 0 <= k < |ps|
      ensures FromRow(t.rows[k]) == Ok(Stored(ps[k], insertedAt))
    {
      InsertedRowDecodes(ps[k], insertedAt);
    }
    assert t.rows[..Min(GetLimit, |t.rows|)] == t.rows;
    r := Get(t, None);
  }
}
