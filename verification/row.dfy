/** `FromRow for Product`: rebuilding a product from a `product` table row,
    read positionally as (id, name, price, currency, created_at, updated_at),
    each value object through its validating constructor. */
module ProductRow {
  import opened Wrappers
  import opened Decimal
  import opened Utf8
  import opened UuidText
  import opened Id
  import opened Name
  import opened Price
  import opened Currency
  import opened Timestamp
  import opened Product

  /** One column value as the driver hands it over. */
  datatype Column =
    | UuidCol(u: Uuid)
    | TextCol(s: string)
    | Int4Col(n: i32)
    | TimestampCol(t: Instant)
    | NullCol

  type Row = seq<Column>

  /** The decoding failures of `sqlx::Error` that row decoding can raise. */
  datatype DecodeError =
    | ColumnIndexOutOfBounds(index: nat, len: nat)
    | ColumnDecode(index: nat)
    | TypeNotFound(typeName: string)

  /** The `to_string` of a decoding failure. */
  function DecodeText(e: DecodeError): string {
    match e
    case ColumnIndexOutOfBounds(index, len) =>
      "column index out of bounds: the len is " + IntToDecimal(len) + ", but the index is " + IntToDecimal(index)
    case ColumnDecode(index) => "error occurred while decoding column " + IntToDecimal(index)
    case TypeNotFound(name) => "type named " + name + " not found"
  }

  /** `Row::try_get` at a position; a column of another type (or NULL) fails
      to decode. */
  function GetColumn(row: Row, i: nat): (r: Result<Column, DecodeError>)
    ensures r.Ok? <==> i < |row|
    ensures r.Ok? ==> r.value == row[i]
    ensures r.Err? ==> r.error == ColumnIndexOutOfBounds(i, |row|)
  {
    if i < |row| then Ok(row[i]) else Err(ColumnIndexOutOfBounds(i, |row|))
  }

  function GetUuid(row: Row, i: nat): Result<Uuid, DecodeError> {
    var c :- GetColumn(row, i);
    if c.UuidCol? then Ok(c.u) else Err(ColumnDecode(i))
  }

  function GetText(row: Row, i: nat): Result<string, DecodeError> {
    var c :- GetColumn(row, i);
    if c.TextCol? then Ok(c.s) else Err(ColumnDecode(i))
  }

  function GetInt4(row: Row, i: nat): Result<i32, DecodeError> {
    var c :- GetColumn(row, i);
    if c.Int4Col? then Ok(c.n) else Err(ColumnDecode(i))
  }

  function GetTimestamp(row: Row, i: nat): Result<Instant, DecodeError> {
    var c :- GetColumn(row, i);
    if c.TimestampCol? then Ok(c.t) else Err(ColumnDecode(i))
  }

  /** Whether the column at position `i` holds what `FromRow` accepts there. */
  predicate ColumnAccepted(c: Column, i: nat) {
    match i
    case 0 => c.UuidCol?
    case 1 => c.TextCol? && 1 <= |Encode(c.s)| <= 256
    case 2 => c.Int4Col? && 0 <= c.n as int <= 1_000_000_000
    case 3 => c.TextCol? && (c.s == "EUR" || c.s == "USD")
    case _ => c.TimestampCol?
  }

  /** The failure a refused column at position `i` raises: the wrong kind of
      value does not decode, and a value its constructor refuses names the
      value object's type. */
  function ColumnFailure(c: Column, i: nat): DecodeError {
    match i
    case 1 => if c.TextCol? then TypeNotFound("ProductName") else ColumnDecode(1)
    case 2 => if c.Int4Col? then TypeNotFound("ProductPrice") else ColumnDecode(2)
    case 3 => if c.TextCol? then TypeNotFound("ProductCurrency") else ColumnDecode(3)
    case _ => ColumnDecode(i)
  }

  /** Columns are read in order and the first failure is returned; a value
      object refused by its constructor becomes `TypeNotFound` naming the
      type. The timestamps are taken as they are: `Validate` is not run. */
  function FromRow(row: Row): (r: Result<Product, DecodeError>)
    ensures r.Ok? <==>
      && |row| >= 6
      && row[0].UuidCol?
      && row[1].TextCol? && 1 <= |Encode(row[1].s)| <= 256
      && row[2].Int4Col? && 0 <= row[2].n as int <= 1_000_000_000
      && row[3].TextCol? && (row[3].s == "EUR" || row[3].s == "USD")
      && row[4].TimestampCol?
      && row[5].TimestampCol?
    ensures r.Ok? ==>
      && row[0] == UuidCol(r.value.id.uuid)
      && row[1] == TextCol(r.value.name.value)
      && row[2] == Int4Col(r.value.price.value)
      && row[3] == TextCol(Currency.Display(r.value.currency))
      && row[4] == TimestampCol(r.value.createdAt.instant)
      && row[5] == TimestampCol(r.value.updatedAt.instant)
    ensures |row| == 0 ==> r == Err(ColumnIndexOutOfBounds(0, 0))
    ensures r.Err? && r.error.TypeNotFound? ==>
      r.error.typeName in {"ProductName", "ProductPrice", "ProductCurrency"}
  {
    var u :- GetUuid(row, 0);
    var nameText :- GetText(row, 1);
    var name :- match Name.TryFrom(nameText)
      case Ok(n) => Ok(n)
      case Err(_) => Err(TypeNotFound("ProductName"));
    var priceValue :- GetInt4(row, 2);
    var price :- match Price.TryFrom(priceValue)
      case Ok(p) => Ok(p)
      case Err(_) => Err(TypeNotFound("ProductPrice"));
    var currencyText :- GetText(row, 3);
    var currency :- match Currency.TryFrom(currencyText)
      case Ok(c) => Ok(c)
      case Err(_) => Err(TypeNotFound("ProductCurrency"));
    var createdAt :- GetTimestamp(row, 4);
    var updatedAt :- GetTimestamp(row, 5);
    Ok(Product(Id.From(u), name, price, currency, Timestamp.From(createdAt), Timestamp.From(updatedAt)))
  }

  /** The row a product occupies in the table. */
  function ToRow(p: Product): (row: Row)
    ensures |row| == 6
  {
    [ UuidCol(p.id.uuid), TextCol(Name.ToPrimitive(p.name)), Int4Col(Price.ToPrimitive(p.price)),
      TextCol(Currency.ToPrimitive(p.currency)),
      TimestampCol(p.createdAt.instant), TimestampCol(p.updatedAt.instant) ]
  }

  /** Every product survives a trip through its row. */
  lemma FromRowToRow(p: Product)
    ensures FromRow(ToRow(p)) == Ok(p)
  {
    var row := ToRow(p);
    var r := FromRow(row);
    assert r.Ok?;
  }

  /** A row's decoded product gives the row back: decoding loses nothing of
      the six columns. */
  lemma ToRowFromRow(row: Row)
    requires FromRow(row).Ok?
    ensures ToRow(FromRow(row).value) == row[..6]
  {
  }

  /** Row decoding does not check the timestamp relation: a row stamped
      updated before it was created still decodes, into a product `Validate`
      refuses. */
  lemma FromRowSkipsValidation(u: Uuid)
    ensures var row := [UuidCol(u), TextCol("a"), Int4Col(0), TextCol("EUR"), TimestampCol(1), TimestampCol(0)];
            FromRow(row).Ok? && Validate(FromRow(row).value).Err?
  {
    var row := [UuidCol(u), TextCol("a"), Int4Col(0), TextCol("EUR"), TimestampCol(1), TimestampCol(0)];
    assert Encode("a") == [97 as byte];
  }

  /** The error of a refused row is that of its first refused column: a
      missing column is out of bounds, a column of the wrong kind does not
      decode, and a value its constructor refuses names its type. */
  lemma FromRowFirstFailure(row: Row, i: nat)
    requires i < 6 && i <= |row|
    requires forall j :: 0 <= j < i ==> ColumnAccepted(row[j], j)
    ensures |row| == i ==> FromRow(row) == Err(ColumnIndexOutOfBounds(i, i))
    ensures i < |row| && !ColumnAccepted(row[i], i) ==> FromRow(row) == Err(ColumnFailure(row[i], i))
  {
  }

  /** A failure in an earlier column hides any later one. */
  lemma FirstFailureWins(u: Uuid)
    ensures FromRow([UuidCol(u), TextCol(""), Int4Col(-1), TextCol("GBP")]) == Err(TypeNotFound("ProductName"))
    ensures FromRow([UuidCol(u), TextCol("a"), Int4Col(-1), TextCol("GBP")]) == Err(TypeNotFound("ProductPrice"))
    ensures FromRow([UuidCol(u), TextCol("a"), Int4Col(0), TextCol("GBP")]) == Err(TypeNotFound("ProductCurrency"))
    ensures FromRow([UuidCol(u), TextCol("a"), Int4Col(0), TextCol("EUR")]) == Err(ColumnIndexOutOfBounds(4, 4))
    ensures FromRow([TextCol("x")]) == Err(ColumnDecode(0))
  {
    assert Encode("") == [];
    assert Encode("a") == [97 as byte];
  }
}
