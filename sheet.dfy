/** The spreadsheet file as the stores see it: a header row, then one row of
    four typed cells per product; and the files on disk that hold such sheets. */
module Sheet {
  import opened JavaInt
  import opened Outcomes
  import opened ProductModel

  datatype Cell = Numeric(n: int32) | Text(s: string)

  /** A row's cells, column 0 first. */
  type Row = seq<Cell>

  const Header: Row := [Text("ID"), Text("Name"), Text("Quantity"), Text("Tag")]

  /** The row written for `p`: id, name, quantity, tag. */
  function ProductRow(p: Product): Row
  {
    [Numeric(p.id), Text(p.name), Numeric(p.quantity), Text(p.tag)]
  }

  /** The sheet `saveAllProducts` writes for `ps`: row 0 is the header and
      product i sits at row i + 1. */
  function Serialize(ps: seq<Product>): (r: seq<Row>)
    ensures |r| == |ps| + 1
    ensures r[0] == Header
    ensures forall i :: 0 <= i < |ps| ==> r[i + 1] == ProductRow(ps[i])
  {
    [Header] + seq(|ps|, i requires 0 <= i < |ps| => ProductRow(ps[i]))
  }

  /** Reads one data row: numeric id, text name, numeric quantity, text tag.
      A missing cell or a cell of the other type makes the read throw. */
  function ParseRow(row: Row): (r: Option<Product>)
    ensures r.Some? <==>
      |row| >= 4 && row[0].Numeric? && row[1].Text? && row[2].Numeric? && row[3].Text?
    ensures r.Some? ==> r.value == Product(row[0].n, row[1].s, row[2].n, row[3].s)
  {
    if |row| < 4 then None
    else match (row[0], row[1], row[2], row[3])
      case (Numeric(id), Text(name), Numeric(quantity), Text(tag)) =>
        Some(Product(id, name, quantity, tag))
      case _ => None
  }

  /** The products of rows `i..`, one per row in order, or the first row that
      does not parse. */
  function ParseFrom(rows: seq<Row>, i: nat): (r: Result<seq<Product>>)
    ensures r.Err? ==> r.error.MalformedRow? && i <= r.error.row < |rows|
    ensures r.Err? ==> ParseRow(rows[r.error.row]).None?
    ensures r.Err? ==> forall k :: i <= k < r.error.row ==> ParseRow(rows[k]).Some?
    ensures r.Ok? ==> forall k :: i <= k < |rows| ==> ParseRow(rows[k]).Some?
    ensures r.Ok? ==> |r.value| == if i < |rows| then |rows| - i else 0
    ensures r.Ok? ==> forall k :: 0 <= k < |r.value| ==> ParseRow(rows[i + k]) == Some(r.value[k])
    decreases |rows| - i
  {
    if i >= |rows| then Ok([])
    else match ParseRow(rows[i])
      case None => Err(MalformedRow(i))
      case Some(p) =>
        match ParseFrom(rows, i + 1)
        case Err(e) => Err(e)
        case Ok(ps) => Ok([p] + ps)
  }

  /** `getAllProducts` on an opened sheet: row 0 is skipped, every later row
      becomes a product in row order. */
  function ReadSheet(rows: seq<Row>): (r: Result<seq<Product>>)
    ensures r.Ok? ==> |r.value| == if |rows| > 1 then |rows| - 1 else 0
    ensures r.Ok? ==> forall k :: 0 <= k < |r.value| ==> ParseRow(rows[k + 1]) == Some(r.value[k])
    ensures r.Err? ==> r.error.MalformedRow? && 1 <= r.error.row < |rows|
    ensures r.Err? ==> ParseRow(rows[r.error.row]).None?
  {
    ParseFrom(rows, 1)
  }

  /** `ps` prepended to a successful read; errors pass through. */
  function Prepend(ps: seq<Product>, r: Result<seq<Product>>): Result<seq<Product>>
  {
    match r
    case Ok(qs) => Ok(ps + qs)
    case Err(e) => Err(e)
  }

  /** Each product's row reads back as that product. */
  lemma ParseProductRow(p: Product)
    ensures ParseRow(ProductRow(p)) == Some(p)
  {
  }

  /** Rows `k + 1..` of the sheet written for `ps` read back as `ps[k..]`. */
  lemma {:induction false} ParseSerializedFrom(ps: seq<Product>, k: nat)
    requires k <= |ps|
    ensures ParseFrom(Serialize(ps), k + 1) == Ok(ps[k..])
    decreases |ps| - k
  {
    var rows := Serialize(ps);
    if k < |ps| {
      assert rows[k + 1] == ProductRow(ps[k]);
      ParseProductRow(ps[k]);
      ParseSerializedFrom(ps, k + 1);
      assert ps[k..] == [ps[k]] + ps[k + 1..];
    } else {
      assert |rows| == k + 1 && ps[k..] == [];
    }
  }

  /** Round trip: reading back what was saved skips the header and yields the
      same products in the same order. */
  lemma RoundTrip(ps: seq<Product>)
    ensures ReadSheet(Serialize(ps)) == Ok(ps)
  {
    ParseSerializedFrom(ps, 0);
  }

  /** A sheet with only a header row, or none at all, holds no products. */
  lemma EmptySheet(rows: seq<Row>)
    requires |rows| <= 1
    ensures ReadSheet(rows) == Ok([])
  {
  }

  /** The data-row loop of `saveAllProducts`: header first, then
      `createRow(i + 1)` with the four cells of product i. */
  method WriteRows(ps: seq<Product>) returns (rows: seq<Row>)
    ensures |rows| == |ps| + 1 && rows[0] == Header
    ensures forall i :: 0 <= i < |ps| ==> rows[i + 1] == ProductRow(ps[i])
    ensures rows == Serialize(ps)
  {
    rows := [Header];
    var i := 0;
    while i < |ps|
      invariant 0 <= i <= |ps|
      invariant |rows| == i + 1 && rows[0] == Header
      invariant forall j :: 0 <= j < i ==> rows[j + 1] == ProductRow(ps[j])
    {
      rows := rows + [ProductRow(ps[i])];
      i := i + 1;
    }
  }

  /** The row loop of `getAllProducts`: skip row 0, turn each later row into a
      product; a bad cell stops the read with that row's number. */
  method ReadRows(rows: seq<Row>) returns (r: Result<seq<Product>>)
    ensures r == ReadSheet(rows)
  {
    var products: seq<Product> := [];
    var i := 0;
    while i < |rows|
      invariant 0 <= i <= |rows|
      invariant i == 0 ==> products == []
      invariant 1 <= i ==> ReadSheet(rows) == Prepend(products, ParseFrom(rows, i))
    {
      if i == 0 {
        assert ReadSheet(rows) == Prepend([], ParseFrom(rows, 1)) by {
          match ParseFrom(rows, 1)
          case Err(e) =>
          case Ok(qs) => assert [] + qs == qs;
        }
        i := i + 1;
        continue;
      }
      var parsed := ParseRow(rows[i]);
      if parsed.None? {
        return Err(MalformedRow(i));
      }
      assert Prepend(products, ParseFrom(rows, i)) == Prepend(products + [parsed.value], ParseFrom(rows, i + 1)) by {
        match ParseFrom(rows, i + 1)
        case Err(e) =>
        case Ok(qs) =>
          assert products + ([parsed.value] + qs) == (products + [parsed.value]) + qs;
      }
      products := products + [parsed.value];
      i := i + 1;
    }
    assert products + [] == products;
    r := Ok(products);
  }

  // ---- the files on disk ----------------------------------------------------

  /** What opening a path finds. */
  datatype FileState =
    | Missing                    // cannot be opened for reading: absent, a directory
                                 // or without read permission (FileNotFoundException)
    | Unreadable                 // any other IOException while opening or reading
    | Present(rows: seq<Row>)    // a workbook whose first sheet holds these rows

  /** The files the stores can see, and the paths that cannot be written. */
  datatype Disk = Disk(files: map<string, FileState>, readOnly: set<string>)

  /** The disk a store operation leaves behind and what the operation reports. */
  datatype Effect<T> = Effect(disk: Disk, result: T)

  function Lookup(d: Disk, path: string): FileState
  {
    if path in d.files then d.files[path] else Missing
  }

  /** Writing a fresh workbook to `path`: the file then holds exactly `rows`
      and no other path changes; a path that cannot be written fails and the
      disk is left as it was. */
  function Store(d: Disk, path: string, rows: seq<Row>): (r: Option<Disk>)
    ensures r.None? <==> path in d.readOnly
    ensures r.Some? ==> Lookup(r.value, path) == Present(rows)
    ensures r.Some? ==> r.value.readOnly == d.readOnly
    ensures r.Some? ==> forall q :: q != path ==> Lookup(r.value, q) == Lookup(d, q)
  {
    if path in d.readOnly then None
    else Some(d.(files := d.files[path := Present(rows)]))
  }
}
