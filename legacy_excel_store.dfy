/** The older spreadsheet store of the root package. Same read-modify-write
    cycle as the `dao` one, but every I/O failure while reading reads as an
    empty list and a failed write is swallowed. A cell of the wrong type or a
    missing cell is not an I/O failure and still ends the operation. */
module LegacyExcelDao {
  import opened JavaInt
  import opened Outcomes
  import opened ProductModel
  import opened ProductList
  import opened Sheet

  const DefaultPath: string := "products.xlsx"

  /** What `getAllProducts` returns for the file at `path`. */
  function ReadProducts(d: Disk, path: string): (r: Result<seq<Product>>)
    ensures !Lookup(d, path).Present? ==> r == Ok([])
    ensures Lookup(d, path).Present? ==> r == ReadSheet(Lookup(d, path).rows)
    ensures r.Err? <==> Lookup(d, path).Present? && ReadSheet(Lookup(d, path).rows).Err?
    ensures r.Err? ==> r.error.MalformedRow?
  {
    match Lookup(d, path)
    case Missing => Ok([])
    case Unreadable => Ok([])
    case Present(rows) => ReadSheet(rows)
  }

  /** What `saveAllProducts` leaves on disk; a failed write leaves it unchanged. */
  function SaveProducts(d: Disk, path: string, ps: seq<Product>): (r: Disk)
    ensures path in d.readOnly ==> r == d
    ensures path !in d.readOnly ==> ReadProducts(r, path) == Ok(ps)
    ensures forall q :: q != path ==> Lookup(r, q) == Lookup(d, q)
  {
    RoundTrip(ps);
    match Store(d, path, Serialize(ps))
    case None => d
    case Some(d') => d'
  }

  /** `addProduct` on the file at `path`; only a malformed row or an id
      overflow is reported, and those leave the disk as it was. Otherwise it
      succeeds, even when the write fails. */
  function AddEffect(d: Disk, path: string, p: Product): (r: Effect<Result<Product>>)
    ensures r.result.Err? ==> r.disk == d
    ensures r.result.Err? ==> r.result.error.MalformedRow? || r.result.error.IdOverflow?
    ensures r.result.Err? <==> ReadProducts(d, path).Err? || NewId(ReadProducts(d, path).value).None?
    ensures r.result.Ok? ==> ReadProducts(d, path).Ok? && NewId(ReadProducts(d, path).value).Some?
    ensures r.result.Ok? ==> r.result.value == p.(id := NewId(ReadProducts(d, path).value).value)
  {
    match ReadProducts(d, path)
    case Err(e) => Effect(d, Err(e))
    case Ok(ps) =>
      match NewId(ps)
      case None => Effect(d, Err(IdOverflow))
      case Some(n) => Effect(SaveProducts(d, path, ps + [p.(id := n)]), Ok(p.(id := n)))
  }

  /** `updateProduct` on the file at `path`; only a malformed row is reported. */
  function UpdateEffect(d: Disk, path: string, p: Product): (r: Effect<Outcome>)
    ensures r.result.Failed? ==> r.disk == d && r.result.error.MalformedRow?
    ensures r.result.Failed? <==> ReadProducts(d, path).Err?
  {
    match ReadProducts(d, path)
    case Err(e) => Effect(d, Failed(e))
    case Ok(ps) => Effect(SaveProducts(d, path, ReplaceFirst(ps, p)), Done)
  }

  /** `deleteProduct` on the file at `path`; only a malformed row is reported. */
  function DeleteEffect(d: Disk, path: string, id: int32): (r: Effect<Outcome>)
    ensures r.result.Failed? ==> r.disk == d && r.result.error.MalformedRow?
    ensures r.result.Failed? <==> ReadProducts(d, path).Err?
  {
    match ReadProducts(d, path)
    case Err(e) => Effect(d, Failed(e))
    case Ok(ps) => Effect(SaveProducts(d, path, RemoveId(ps, id)), Done)
  }

  class LegacyExcelStore {
    var filePath: string

    constructor ()
      ensures filePath == DefaultPath
    {
      filePath := DefaultPath;
    }

    /** Every later read and write goes to `source`. */
    method SetDataSource(source: string)
      modifies this
      ensures filePath == source
    {
      filePath := source;
    }

    /** A missing or unreadable file reads as no products; only a malformed
        data row in an opened sheet is an error. */
    method GetAllProducts(d: Disk) returns (r: Result<seq<Product>>)
      ensures r == ReadProducts(d, filePath)
      ensures !Lookup(d, filePath).Present? ==> r == Ok([])
      ensures Lookup(d, filePath).Present? ==> r == ReadSheet(Lookup(d, filePath).rows)
      ensures r.Err? ==> Lookup(d, filePath).Present? && r.error.MalformedRow?
    {
      match Lookup(d, filePath)
      case Missing =>
        r := Ok([]);
      case Unreadable =>
        r := Ok([]);
      case Present(rows) =>
        r := ReadRows(rows);
    }

    /** Writes header and rows and never reports a failure: on a writable
        path the file reads back as exactly `ps`, otherwise nothing changes. */
    method SaveAllProducts(d: Disk, ps: seq<Product>) returns (d': Disk)
      ensures d' == SaveProducts(d, filePath, ps)
      ensures filePath in d.readOnly ==> d' == d
      ensures filePath !in d.readOnly ==> ReadProducts(d', filePath) == Ok(ps)
      ensures forall q :: q != filePath ==> Lookup(d', q) == Lookup(d, q)
    {
      var rows := WriteRows(ps);
      match Store(d, filePath, rows)
      case None =>
        d' := d;
      case Some(written) =>
        RoundTrip(ps);
        d' := written;
    }

    /** Stamps `p` with one more than the largest id read (1 for none),
        appends it and rewrites the file. An unreadable file reads as empty,
        so the sheet is replaced by one holding `p` alone with id 1; a failed
        write still reports success. */
    method AddProduct(d: Disk, p: Product) returns (d': Disk, r: Result<Product>)
      ensures Effect(d', r) == AddEffect(d, filePath, p)
      ensures r.Ok? ==> ReadProducts(d, filePath).Ok?
      ensures r.Ok? ==> forall q :: q in ReadProducts(d, filePath).value ==> q.id < r.value.id
      ensures r.Ok? && filePath !in d.readOnly ==>
        ReadProducts(d', filePath) == Ok(ReadProducts(d, filePath).value + [r.value])
      ensures r.Ok? && filePath in d.readOnly ==> d' == d
      ensures Lookup(d, filePath).Unreadable? ==> r == Ok(p.(id := 1))
      ensures Lookup(d, filePath).Unreadable? && filePath !in d.readOnly ==>
        Lookup(d', filePath) == Present(Serialize([p.(id := 1)]))
    {
      var read := GetAllProducts(d);
      if read.Err? {
        return d, Err(read.error);
      }
      var products := read.value;
      NewIdFresh(products);
      var newId := NewId(products);
      if newId.None? {
        return d, Err(IdOverflow);
      }
      var stamped := p.(id := newId.value);
      products := products + [stamped];
      d' := SaveAllProducts(d, products);
      r := Ok(stamped);
    }

    /** Rewrites the file with the first entry carrying `p`'s id replaced by
        `p`, writing back even when nothing matched. */
    method UpdateProduct(d: Disk, p: Product) returns (d': Disk, r: Outcome)
      ensures Effect(d', r) == UpdateEffect(d, filePath, p)
      ensures r.Done? && filePath !in d.readOnly ==>
        ReadProducts(d', filePath) == Ok(ReplaceFirst(ReadProducts(d, filePath).value, p))
      ensures r.Done? && filePath !in d.readOnly && !HasId(ReadProducts(d, filePath).value, p.id) ==>
        ReadProducts(d', filePath) == ReadProducts(d, filePath)
    {
      var read := GetAllProducts(d);
      if read.Err? {
        return d, Failed(read.error);
      }
      ReplaceFirstSpec(read.value, p);
      var products := SetFirstMatch(read.value, p);
      d' := SaveAllProducts(d, products);
      r := Done;
    }

    /** Rewrites the file without any entry carrying `id`, the others in
        order, writing back even when nothing matched. */
    method DeleteProduct(d: Disk, id: int32) returns (d': Disk, r: Outcome)
      ensures Effect(d', r) == DeleteEffect(d, filePath, id)
      ensures r.Done? && filePath !in d.readOnly ==>
        ReadProducts(d', filePath) == Ok(RemoveId(ReadProducts(d, filePath).value, id))
      ensures r.Done? && filePath !in d.readOnly && !HasId(ReadProducts(d, filePath).value, id) ==>
        ReadProducts(d', filePath) == ReadProducts(d, filePath)
    {
      var read := GetAllProducts(d);
      if read.Err? {
        return d, Failed(read.error);
      }
      if !HasId(read.value, id) {
        RemoveIdAbsent(read.value, id);
      }
      var products := RemoveIf(read.value, id);
      d' := SaveAllProducts(d, products);
      r := Done;
    }
  }
}
