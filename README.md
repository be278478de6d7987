# Product stores of the inventory application, in Dafny

The application keeps "products" (id, name, quantity, tag) behind one data-access
contract with interchangeable backends. This project models the two backends
whose behaviour lives in the program itself, and the product entity:

- the **in-memory store** (`ProductDaoImpl`): an ordered list and an id counter
  starting at 1. `addProduct` stamps the product with `nextId++` and appends it;
  `updateProduct` replaces the first entry with the same id; `deleteProduct`
  removes every entry with the id; `getAllProducts` returns a copy;
  `setDataSource` does nothing. Modelled as the class `MemoryDao.ProductStore`
  (a `seq<Product>` field and an `int32` counter) whose invariant `Valid()`
  says that stored ids are pairwise distinct and lie in `[1, nextId)`; every
  mutation is proved to keep it and to change nothing else.
- the **spreadsheet store** (`ExcelProductDaoImpl`): every mutation reads the
  whole sheet, edits the list in memory and writes the whole sheet back. A new
  id is the largest stored id plus one (1 when the sheet holds none). The file
  is a header row `ID, Name, Quantity, Tag` followed by one row of four typed
  cells per product. The workbook is abstracted as a sequence of rows of typed
  cells (`Sheet`), and the file system as a value `Disk` mapping paths to
  `Missing` (cannot be opened: absent, a directory or without read permission),
  `Unreadable` (opened, but reading it fails) or `Present(rows)`, plus the set of paths that cannot
  be written. The two copies of this store differ only in their error policy and
  are modelled as two classes: `ExcelDao.ExcelStore` (the `dao` package: a file that cannot be opened for
  reading at all, because it is absent, a directory or not readable, reads as
  empty; every other read or write failure is an error)
  and `LegacyExcelDao.LegacyExcelStore` (the root package: every I/O failure
  while reading reads as empty, and a failed write is swallowed). Both return
  their outcome as an explicit `Result` (or `Outcome` for the operations that return nothing) instead of throwing.
- the **product** (`Product`): a datatype `ProductModel.Product` for the value
  the stores keep, and the class `ProductModel.ProductObject` for the mutable
  object with its getters and setters.

The list edits the stores share (first-match replacement, `removeIf` by id,
`max + 1`) live once, in `ProductList`, as specification functions with their
lemmas and the loops that compute them. Java's 32-bit `int` is the newtype
`JavaInt.int32`.

The root package holds older copies of the in-memory store
(`src/main/java/com/example/lab2dao/ProductDaoImpl.java`) and of the product
(`src/main/java/com/example/lab2dao/Product.java`) that are the same code as the
`dao/` and `model/` ones line for line; the members below model both copies.

## Model

| member | source | states |
|---|---|---|
| `ProductModel.ProductObject.constructor` | src/main/java/com/example/lab2dao/model/Product.java:41-46 | after construction the four getters return exactly the arguments; there is no precondition, so any quantity (negative ones too), name and tag is accepted |
| `ProductModel.ProductObject.GetId` | src/main/java/com/example/lab2dao/model/Product.java:52-54 | returns the id of the object's current value |
| `ProductModel.ProductObject.GetName` | src/main/java/com/example/lab2dao/model/Product.java:76-78 | returns the name of the object's current value |
| `ProductModel.ProductObject.GetQuantity` | src/main/java/com/example/lab2dao/model/Product.java:100-102 | returns the quantity of the object's current value |
| `ProductModel.ProductObject.GetTag` | src/main/java/com/example/lab2dao/model/Product.java:124-126 | returns the tag of the object's current value |
| `ProductModel.ProductObject.SetId` | src/main/java/com/example/lab2dao/model/Product.java:68-70 | `GetId()` is the new id; name, quantity and tag are unchanged |
| `ProductModel.ProductObject.SetName` | src/main/java/com/example/lab2dao/model/Product.java:92-94 | `GetName()` is the new name; the other three fields are unchanged |
| `ProductModel.ProductObject.SetQuantity` | src/main/java/com/example/lab2dao/model/Product.java:116-118 | `GetQuantity()` is the new quantity; the other three fields are unchanged |
| `ProductModel.ProductObject.SetTag` | src/main/java/com/example/lab2dao/model/Product.java:140-142 | `GetTag()` is the new tag; the other three fields are unchanged |
| `ProductList.FirstMatch` | src/main/java/com/example/lab2dao/dao/ProductDaoImpl.java:48-49 | the index found is the first one whose id matches; none is found exactly when no entry carries the id |
| `ProductList.ReplaceFirst` | src/main/java/com/example/lab2dao/dao/ExcelProductDaoImpl.java:57-62 | the list keeps its length and every entry is either the old one or `p` |
| `ProductList.ReplaceFirstSpec` | src/main/java/com/example/lab2dao/dao/ProductDaoImpl.java:47-54 | the update replaces only the first id-matching entry, at its own index; length and all other entries are unchanged; with no match the list is unchanged |
| `ProductList.ReplaceFirstKeepsIds` | src/main/java/com/example/lab2dao/dao/ProductDaoImpl.java:49-50 | the update keeps the id at every position, so distinct ids stay distinct and ids stay within any bounds they had |
| `ProductList.SetFirstMatch` | src/main/java/com/example/lab2dao/dao/ProductDaoImpl.java:48-53 | the scan-set-break loop computes exactly the first-match replacement |
| `ProductList.RemoveId` | src/main/java/com/example/lab2dao/dao/ExcelProductDaoImpl.java:73 | the list never grows and no surviving entry carries the id |
| `ProductList.RemoveIdMembers` | src/main/java/com/example/lab2dao/dao/ProductDaoImpl.java:62 | an entry is in the result exactly when it was in the list and its id differs from the deleted one |
| `ProductList.RemoveIdConcat` | src/main/java/com/example/lab2dao/dao/ProductDaoImpl.java:62 | removal distributes over concatenation, so the surviving entries keep their order |
| `ProductList.RemoveIdAbsent` | src/main/java/com/example/lab2dao/dao/ProductDaoImpl.java:62 | deleting an id that no entry carries leaves the list unchanged |
| `ProductList.RemoveIdLength` | src/main/java/com/example/lab2dao/dao/ProductDaoImpl.java:62 | the list never grows, and it shrinks exactly when the id was present |
| `ProductList.RemoveIdKeepsInvariant` | src/main/java/com/example/lab2dao/dao/ProductDaoImpl.java:62 | deletion keeps ids pairwise distinct and within the bounds they had |
| `ProductList.RemoveIf` | src/main/java/com/example/lab2dao/dao/ExcelProductDaoImpl.java:73 | the `removeIf` pass computes exactly the id removal |
| `ProductList.MaxIdOr0` | src/main/java/com/example/lab2dao/dao/ExcelProductDaoImpl.java:44 | `max().orElse(0)`: 0 for no products, otherwise a stored id that is at least every stored id |
| `ProductList.NewIdAsWritten` | src/main/java/com/example/lab2dao/dao/ExcelProductDaoImpl.java:44 | `max + 1` as Java computes it: one more than the largest id, except that a largest id of `2^31-1` gives `-2^31` |
| `ProductList.NewId` | src/main/java/com/example/lab2dao/dao/ExcelProductDaoImpl.java:44 | the intended new id: larger than every stored id, and 1 for no products |
| `ProductList.NewIdFresh` | src/main/java/com/example/lab2dao/dao/ExcelProductDaoImpl.java:44 | the new id is larger than every stored id and is 1 for an empty sheet; there is none exactly when an id already equals the largest `int` |
| `ProductList.NewIdKeepsDistinct` | src/main/java/com/example/lab2dao/dao/ExcelProductDaoImpl.java:44-46 | appending the product stamped with the new id keeps stored ids distinct |
| `ProductList.NewIdAsWrittenAgrees` | src/main/java/com/example/lab2dao/dao/ExcelProductDaoImpl.java:44 | where an intended new id exists, Java's `max + 1` yields it |
| `ProductList.NewIdAsWrittenCollides` | src/main/java/com/example/lab2dao/dao/ExcelProductDaoImpl.java:44 | with ids `-2^31` and `2^31-1` stored, `max + 1` wraps to `-2^31` and repeats a stored id |
| `JavaInt.Wrap` | src/main/java/com/example/lab2dao/dao/ExcelProductDaoImpl.java:44 | Java `int` arithmetic: a result in range is kept, any other is reduced modulo 2^32 into range |
| `MemoryDao.ProductStore.constructor` | src/main/java/com/example/lab2dao/dao/ProductDaoImpl.java:29-30 | a new store is empty, `nextId` is 1, and the invariant holds |
| `MemoryDao.ProductStore.AddProduct` | src/main/java/com/example/lab2dao/dao/ProductDaoImpl.java:37-40 | the product gets the old `nextId`, is appended after the unchanged earlier entries and is handed back stamped; `nextId` grows by exactly one; the invariant is kept |
| `MemoryDao.ProductStore.UpdateProduct` | src/main/java/com/example/lab2dao/dao/ProductDaoImpl.java:47-54 | the list becomes the first-match replacement of the old one, `nextId` is unchanged, the invariant is kept |
| `MemoryDao.ProductStore.DeleteProduct` | src/main/java/com/example/lab2dao/dao/ProductDaoImpl.java:61-63 | the list becomes the old one with every entry carrying the id removed, `nextId` is unchanged, the invariant is kept |
| `MemoryDao.ProductStore.GetAllProducts` | src/main/java/com/example/lab2dao/dao/ProductDaoImpl.java:70-72 | returns the current contents and changes nothing |
| `MemoryDao.ProductStore.SetDataSource` | src/main/java/com/example/lab2dao/dao/ProductDaoImpl.java:79-81 | changes nothing |
| `MemoryDao.AddToEmptyStore` | src/main/java/com/example/lab2dao/dao/ProductDaoImpl.java:37-40 | adding one product to a new store lists exactly that product with id 1 and its other fields as given |
| `MemoryDao.AddTwoDeleteFirst` | src/main/java/com/example/lab2dao/dao/ProductDaoImpl.java:37-63 | add two products to a new store, delete the first by its id: the list is exactly the second product, with id 2 |
| `Sheet.Serialize` | src/main/java/com/example/lab2dao/dao/ExcelProductDaoImpl.java:117-134 | the written sheet has one row more than there are products, row 0 is the header and product i is at row i + 1 |
| `Sheet.ParseRow` | src/main/java/com/example/lab2dao/dao/ExcelProductDaoImpl.java:93-98 | a row reads as a product exactly when it has at least four cells of types numeric, text, numeric, text, and then as the product made of those four cells |
| `Sheet.ParseProductRow` | src/main/java/com/example/lab2dao/dao/ExcelProductDaoImpl.java:93-98 | the four cells written for a product read back as that product |
| `Sheet.ParseFrom` | src/main/java/com/example/lab2dao/dao/ExcelProductDaoImpl.java:90-99 | a success holds one product per row from the starting row on, each what its row parses to; a failure names the first row at or after the start that does not parse, and every row before it parses |
| `Sheet.ReadSheet` | src/main/java/com/example/lab2dao/dao/ExcelProductDaoImpl.java:90-99 | row 0 is skipped: a success holds one product per later row, in row order; a failure names a row from 1 on that does not parse |
| `Sheet.ParseSerializedFrom` | src/main/java/com/example/lab2dao/dao/ExcelProductDaoImpl.java:90-98 | the data rows of a written sheet from row k + 1 on read back as the products from k on |
| `Sheet.RoundTrip` | src/main/java/com/example/lab2dao/dao/ExcelProductDaoImpl.java:91-98 | reading back what was saved skips the header and yields the same products in the same order |
| `Sheet.EmptySheet` | src/main/java/com/example/lab2dao/dao/ExcelProductDaoImpl.java:90-91 | a sheet with no rows or only the header holds no products |
| `Sheet.WriteRows` | src/main/java/com/example/lab2dao/dao/ExcelProductDaoImpl.java:120-134 | the row-building loop writes the header at row 0 and product i's id, name, quantity, tag at row i + 1 |
| `Sheet.ReadRows` | src/main/java/com/example/lab2dao/dao/ExcelProductDaoImpl.java:90-99 | the row loop skips row 0 and computes exactly `Sheet.ReadSheet`: the sheet's products, or the first malformed row |
| `Sheet.Store` | src/main/java/com/example/lab2dao/dao/ExcelProductDaoImpl.java:114-136 | a write fails exactly on a path that cannot be written; otherwise that path then holds exactly the new rows and no other path changes |
| `ExcelDao.ExcelStore.constructor` | src/main/java/com/example/lab2dao/dao/ExcelProductDaoImpl.java:25 | the default file is `products.xlsx` |
| `ExcelDao.ExcelStore.SetDataSource` | src/main/java/com/example/lab2dao/dao/ExcelProductDaoImpl.java:32-34 | the path every later read and write uses becomes the given one |
| `ExcelDao.ExcelStore.GetAllProducts` | src/main/java/com/example/lab2dao/dao/ExcelProductDaoImpl.java:83-106 | a missing file reads as no products, an unreadable one is a read error, an opened sheet yields its data rows in order |
| `ExcelDao.ExcelStore.SaveAllProducts` | src/main/java/com/example/lab2dao/dao/ExcelProductDaoImpl.java:113-140 | a write error exactly on an unwritable path; a successful write reads back as exactly the saved products and touches no other file |
| `ExcelDao.ReadProducts` | src/main/java/com/example/lab2dao/dao/ExcelProductDaoImpl.java:83-106 | a missing file reads as no products, an unreadable one is a read error, and an opened sheet reads as `Sheet.ReadSheet` of its rows (its data rows in order, or the first malformed row); so the read fails exactly on an unreadable file or a malformed row |
| `ExcelDao.SaveProducts` | src/main/java/com/example/lab2dao/dao/ExcelProductDaoImpl.java:113-140 | fails with a write error exactly on an unwritable path; otherwise the file reads back as exactly the products and no other path changes |
| `ExcelDao.AddEffect` | src/main/java/com/example/lab2dao/dao/ExcelProductDaoImpl.java:42-48 | succeeds exactly when the file reads, a new id exists and the path can be written; any failure is reported with the disk unchanged; success returns the product stamped with the intended new id |
| `ExcelDao.UpdateEffect` | src/main/java/com/example/lab2dao/dao/ExcelProductDaoImpl.java:55-64 | fails exactly when the read fails or the file cannot be written, and then leaves the disk unchanged |
| `ExcelDao.DeleteEffect` | src/main/java/com/example/lab2dao/dao/ExcelProductDaoImpl.java:71-75 | fails exactly when the read fails or the file cannot be written, and then leaves the disk unchanged |
| `ExcelDao.ExcelStore.AddProduct` | src/main/java/com/example/lab2dao/dao/ExcelProductDaoImpl.java:42-48 | the product gets an id larger than every stored id (1 on an empty sheet) and reads back appended after the unchanged earlier products; its disk and result are those of `ExcelDao.AddEffect` |
| `ExcelDao.ExcelStore.UpdateProduct` | src/main/java/com/example/lab2dao/dao/ExcelProductDaoImpl.java:55-64 | the file reads back as the first-match replacement of the old list; with no match it reads back unchanged; disk and outcome are those of `ExcelDao.UpdateEffect` |
| `ExcelDao.ExcelStore.DeleteProduct` | src/main/java/com/example/lab2dao/dao/ExcelProductDaoImpl.java:71-75 | the file reads back without any product carrying the id, the others in order; an absent id reads back unchanged; disk and outcome are those of `ExcelDao.DeleteEffect` |
| `LegacyExcelDao.LegacyExcelStore.constructor` | src/main/java/com/example/lab2dao/ExcelProductDaoImpl.java:11 | the default file is `products.xlsx` |
| `LegacyExcelDao.LegacyExcelStore.SetDataSource` | src/main/java/com/example/lab2dao/ExcelProductDaoImpl.java:14-16 | the path every later read and write uses becomes the given one |
| `LegacyExcelDao.LegacyExcelStore.GetAllProducts` | src/main/java/com/example/lab2dao/ExcelProductDaoImpl.java:47-69 | a missing or unreadable file reads as no products; an opened sheet yields its data rows in order (`Sheet.ReadSheet`); the only error is a malformed row of an opened sheet |
| `LegacyExcelDao.LegacyExcelStore.SaveAllProducts` | src/main/java/com/example/lab2dao/ExcelProductDaoImpl.java:71-98 | never fails: on a writable path the file reads back as exactly the saved products, otherwise the disk is unchanged |
| `LegacyExcelDao.ReadProducts` | src/main/java/com/example/lab2dao/ExcelProductDaoImpl.java:47-69 | a missing or unreadable file reads as no products; an opened sheet reads as `Sheet.ReadSheet` of its rows (its data rows in order); the read fails exactly on a malformed row of an opened sheet |
| `LegacyExcelDao.SaveProducts` | src/main/java/com/example/lab2dao/ExcelProductDaoImpl.java:71-98 | on an unwritable path the disk is unchanged; otherwise the file reads back as exactly the products; no other path changes |
| `LegacyExcelDao.AddEffect` | src/main/java/com/example/lab2dao/ExcelProductDaoImpl.java:19-25 | fails exactly when an opened sheet has a malformed row or no new id exists, each with the disk unchanged; otherwise it succeeds, even when the write fails, and returns the product stamped with the intended new id |
| `LegacyExcelDao.UpdateEffect` | src/main/java/com/example/lab2dao/ExcelProductDaoImpl.java:28-37 | fails exactly when an opened sheet has a malformed row, and then leaves the disk unchanged |
| `LegacyExcelDao.DeleteEffect` | src/main/java/com/example/lab2dao/ExcelProductDaoImpl.java:40-44 | fails exactly when an opened sheet has a malformed row, and then leaves the disk unchanged |
| `LegacyExcelDao.LegacyExcelStore.AddProduct` | src/main/java/com/example/lab2dao/ExcelProductDaoImpl.java:19-25 | the id is larger than every id read (1 for none) and the product reads back appended; after an unreadable file the id is 1 and the file becomes a one-product sheet; a failed write still reports success with the disk unchanged |
| `LegacyExcelDao.LegacyExcelStore.UpdateProduct` | src/main/java/com/example/lab2dao/ExcelProductDaoImpl.java:28-37 | writes back the first-match replacement of the list read, even when nothing matched (then it reads back unchanged) |
| `LegacyExcelDao.LegacyExcelStore.DeleteProduct` | src/main/java/com/example/lab2dao/ExcelProductDaoImpl.java:40-44 | writes back the list read without any entry carrying the id, others in order, even when nothing matched |

## Findings

| source | as written | input that shows it | evidently intended | confidence | as-written member | corrected member |
|---|---|---|---|---|---|---|
| src/main/java/com/example/lab2dao/dao/ExcelProductDaoImpl.java:44 (and src/main/java/com/example/lab2dao/ExcelProductDaoImpl.java:21) | `max + 1` on Java `int` wraps to `-2^31` when the largest stored id is `2^31-1` | a sheet holding ids `-2^31` and `2^31-1`: the new product gets id `-2^31`, a duplicate | a new id larger than every stored id, and a failure when none exists | medium, not executed | `ProductList.NewIdAsWritten` (shown by `ProductList.NewIdAsWrittenCollides`) | `ProductList.NewId` (proved by `ProductList.NewIdFresh`; both spreadsheet stores return `IdOverflow` instead) |

## Left out

- File I/O, Apache POI and the XLSX encoding: the workbook is a sequence of rows of typed cells, and the file system is the value `Disk`, passed in and returned. Which paths are unreadable or unwritable is part of that value, not observed.
- Numeric cells are read as `double` and cast to `int`; the model keeps them as `int32` cells, so fractional or out-of-range numbers in a hand-edited sheet are not modelled. Blank cells, null tags and sparse row numbering are not modelled either; a missing cell or one of the wrong type is a `MalformedRow` error (in both copies, since the root copy catches only I/O failures).
- A failed write is modelled as leaving the file as it was; a write that fails half way and truncates the file (crash atomicity) is not modelled.
- Products are values: the stores keep and return copies, and the assigned id comes back as the stamped product. The Java code stores the caller's own object and hands out lists sharing those objects, so a caller mutating a product after `addProduct`, or the stamping of the caller's object before a failed write, are not modelled.
- JavaFX observable properties (`idProperty()` and the others) and change notification are not modelled.
- MemoryDao.ProductStore.AddProduct: requires `nextId < 2^31-1`; after that many additions Java's `nextId++` would wrap to `-2^31`, which the model excludes instead of modelling.
- ExcelDao.ExcelStore.AddProduct: returns `IdOverflow` where the Java code would wrap the id past `2^31-1` (see Findings).
- ExcelDao.AddEffect: returns `IdOverflow` where the Java code would wrap the id past `2^31-1` (see Findings).
- LegacyExcelDao.LegacyExcelStore.AddProduct: returns `IdOverflow` where the Java code would wrap the id past `2^31-1` (see Findings).
- LegacyExcelDao.AddEffect: returns `IdOverflow` where the Java code would wrap the id past `2^31-1` (see Findings).
- The root-package store prints the stack trace of a swallowed write failure to standard error; that logging is output only and is not modelled.
- The data-access interface is not modelled as a type of its own; each store class offers its five operations with the interface's names. Its comments promise an exception for a missing id, but no implementation throws one; the model follows the implementations' silent no-op.
- The PostgreSQL store, the JavaFX controllers and the application bootstrap are not part of this model.
