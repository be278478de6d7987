/** The spreadsheet store of the `dao` package. Every mutation reads the whole
    sheet, edits the list in memory and writes the whole sheet back. Only a
    missing file reads as empty; any other read or write failure is an error. */
module ExcelDao {
  import opened JavaInt
  import opened Outcomes
  import opened ProductModel
  import opened ProductList
  import opened Sheet

  const DefaultPath: string := "products.xlsx"

  /** What `getAllProducts` returns for the file at `path`. */
  function ReadProducts(d: Disk, path: string): (r: Result<seq<Product>>)
    ensures Lookup(d, path).Missing? ==> r == Ok([])
    ensures Lookup(d, path).Unreadable? ==> r == Err(ReadFailed(path))
    ensures Lookup(d, path).Present? ==> r == ReadSheet(Lookup(d, path).rows)
    ensures r.Err? <==> Lookup(d, path).Unreadable? || (Lookup(d, path).Present? && ReadSheet(Lookup(d, path).rows).Err?)
    ensures r.Err? ==> r.error == ReadFailed(path) || r.error.MalformedRow?
  {
    match Lookup(d, path)
    case Missing => Ok([])
    case Unreadable => Err(ReadFailed(path))
    case Present(rows) => ReadSheet(rows)
  }

  /** What `saveAllProducts` does to the disk: the new disk, or the failure. */
  function SaveProducts(d: Disk, path: string, ps: seq<Product>): (r: Result<Disk>)
    ensures r.Err? <==> path in d.readOnly
    ensures r.Err? ==> r.error == WriteFailed(path)
    ensures r.Ok? ==> ReadProducts(r.value, path) == Ok(ps)
    ensures r.Ok? ==> forall q :: q != path ==> Lookup(r.value, q) == Lookup(d, q)
  {
    RoundTrip(ps);
    match Store(d, path, Serialize(ps))
    case None => Err(WriteFailed(path))
    case Some(d') => Ok(d')
  }

  /** `addProduct` on the file at `path`: it succeeds exactly when the file
      reads, a new id exists and the path can be written; a failure is reported
      and leaves the disk as it was. */
  function AddEffect(d: Disk, path: string, p: Product): (r: Effect<Result<Product>>)
    ensures r.result.Err? ==> r.disk == d
    ensures r.result.Err? <==>
      ReadProducts(d, path).Err? || NewId(ReadProducts(d, path).value).None? || path in d.readOnly
    ensures r.result.Ok? ==> ReadProducts(d, path).Ok? && NewId(ReadProducts(d, path).value).Some?
    ensures r.result.Ok? ==> r.result.value == p.(id := NewId(ReadProducts(d, path).value).value)
  {
    match ReadProducts(d, path)
    case Err(e) => Effect(d, Err(e))
    case Ok(ps) =>
      match NewId(ps)
      case None => Effect(d, Err(IdOverflow))
      case Some(n) =>
        match SaveProducts(d, path, ps + [p.(id := n)])
        case Err(e) => Effect(d, Err(e))
        case Ok(saved) => Effect(saved, Ok(p.(id := n)))
  }

  /** `updateProduct` on the file at `path`: read, replace, write back. */
  function UpdateEffect(d: Disk, path: string, p: Product): (r: Effect<Outcome>)
    ensures r.result.Failed? ==> r.disk == d
    ensures r.result.Failed? <==> ReadProducts(d, path).Err? || path in d.readOnly
  {
    match ReadProducts(d, path)
    case Err(e) => Effect(d, Failed(e))
    case Ok(ps) =>
      match SaveProducts(d, path, ReplaceFirst(ps, p))
      case Err(e) => Effect(d, Failed(e))
      case Ok(saved) => Effect(saved, Done)
  }

  /** `deleteProduct` on the file at `path`: read, remove, write back. */
  function DeleteEffect(d: Disk, path: string, id: int32): (r: Effect<Outcome>)
    ensures r.result.Failed? ==> r.disk == d
    ensures r.result.Failed? <==> ReadProducts(d, path).Err? || path in d.readOnly
  {
    match ReadProducts(d, path)
    case Err(e) => Effect(d, Failed(e))
    case Ok(ps) =>
      match SaveProducts(d, path, RemoveId(ps, id))
      case Err(e) => Effect(d, Failed(e))
      case Ok(saved) => Effect(saved, Done)
  }

  class ExcelStore {
    var filePath: string

    constructor ()
      ensures filePath == DefaultPath
    {
      filePath := DefaultPath;
    }

    /** Every later read and write goes to `source`. */
    method SetDataSource(source: string)
      modifies this
      ensures filePath == source
    {
      filePath := source;
    }

    /** A missing file reads as no products; any other I/O failure is an
        error; an opened sheet yields its data rows in order. */
    method GetAllProducts(d: Disk) returns (r: Result<seq<Product>>)
      ensures r == ReadProducts(d, filePath)
      ensures Lookup(d, filePath).Missing? ==> r == Ok([])
      ensures Lookup(d, filePath).Unreadable? ==> r == Err(ReadFailed(filePath))
      ensures Lookup(d, filePath).Present? ==> r == ReadSheet(Lookup(d, filePath).rows)
    {
      match Lookup(d, filePath)
      case Missing =>
        r := Ok([]);
      case Unreadable =>
        r := Err(ReadFailed(filePath));
      case Present(rows) =>
        r := ReadRows(rows);
    }

    /** Writes header and rows; a successful write reads back as exactly `ps`,
        and a write fails only on a path that cannot be written. */
    method SaveAllProducts(d: Disk, ps: seq<Product>) returns (r: Result<Disk>)
      ensures r == SaveProducts(d, filePath, ps)
      ensures r.Err? <==> filePath in d.readOnly
      ensures r.Err? ==> r.error == WriteFailed(filePath)
      ensures r.Ok? ==> ReadProducts(r.value, filePath) == Ok(ps)
      ensures r.Ok? ==> forall q :: q != filePath ==> Lookup(r.value, q) == Lookup(d, q)
    {
      var rows := WriteRows(ps);
      match Store(d, filePath, rows)
      case None =>
        r := Err(WriteFailed(filePath));
      case Some(d') =>
        RoundTrip(ps);
        r := Ok(d');
    }

    /** Stamps `p` with one more than the largest stored id (1 for none),
        appends it and rewrites the file. Any failure leaves the disk as it was. */
    method AddProduct(d: Disk, p: Product) returns (d': Disk, r: Result<Product>)
      ensures Effect(d', r) == AddEffect(d, filePath, p)
      ensures r.Ok? ==> ReadProducts(d, filePath).Ok?
      ensures r.Ok? ==> r.value == p.(id := r.value.id)
      ensures r.Ok? ==> ReadProducts(d', filePath) == Ok(ReadProducts(d, filePath).value + [r.value])
      ensures r.Ok? ==> forall q :: q in ReadProducts(d, filePath).value ==> q.id < r.value.id
      ensures r.Ok? && ReadProducts(d, filePath).value == [] ==> r.value.id == 1
    {
      var read := GetAllProducts(d);
      if read.Err? {
        return d, Err(read.error);
      }
      var products := read.value;
      NewIdFresh(products);
      var newId := NewId(products);
      if newId.None? {
        return d, Err(IdOverflow);
      }
      var stamped := p.(id := newId.value);
      products := products + [stamped];
      var saved := SaveAllProducts(d, products);
      if saved.Err? {
        return d, Err(saved.error);
      }
      d', r := saved.value, Ok(stamped);
    }

    /** Rewrites the file with the first entry carrying `p`'s id replaced by
        `p`; without a match the same list is written back. */
    method UpdateProduct(d: Disk, p: Product) returns (d': Disk, r: Outcome)
      ensures Effect(d', r) == UpdateEffect(d, filePath, p)
      ensures r.Done? ==> ReadProducts(d, filePath).Ok?
      ensures r.Done? ==> ReadProducts(d', filePath) == Ok(ReplaceFirst(ReadProducts(d, filePath).value, p))
      ensures r.Done? && !HasId(ReadProducts(d, filePath).value, p.id) ==>
        ReadProducts(d', filePath) == ReadProducts(d, filePath)
    {
      var read := GetAllProducts(d);
      if read.Err? {
        return d, Failed(read.error);
      }
      ReplaceFirstSpec(read.value, p);
      var products := SetFirstMatch(read.value, p);
      var saved := SaveAllProducts(d, products);
      if saved.Err? {
        return d, Failed(saved.error);
      }
      d', r := saved.value, Done;
    }

    /** Rewrites the file without any entry carrying `id`, the others in
        order; an absent id writes back the same list. */
    method DeleteProduct(d: Disk, id: int32) returns (d': Disk, r: Outcome)
      ensures Effect(d', r) == DeleteEffect(d, filePath, id)
      ensures r.Done? ==> ReadProducts(d, filePath).Ok?
      ensures r.Done? ==> ReadProducts(d', filePath) == Ok(RemoveId(ReadProducts(d, filePath).value, id))
      ensures r.Done? && !HasId(ReadProducts(d, filePath).value, id) ==>
        ReadProducts(d', filePath) == ReadProducts(d, filePath)
    {
      var read := GetAllProducts(d);
      if read.Err? {
        return d, Failed(read.error);
      }
      if !HasId(read.value, id) {
        RemoveIdAbsent(read.value, id);
      }
      var products := RemoveIf(read.value, id);
      var saved := SaveAllProducts(d, products);
      if saved.Err? {
        return d, Failed(saved.error);
      }
      d', r := saved.value, Done;
    }
  }
}
