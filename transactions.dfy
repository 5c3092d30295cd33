/**
 * The uploaded transaction table: the five columns the analysis needs, the
 * check that they are present, and the cleaning step that drops unusable rows.
 */
module Transactions {
  import opened Wrappers
  import opened Sequences

  /** Seconds in one day; an InvoiceDate is a whole number of seconds since an epoch. */
  const Day: int := 86400

  type CustomerId = int
  type InvoiceNo = string

  /**
   * One transaction line, reduced to the columns the analysis reads.
   * `customer` is None where the CustomerID cell is empty; `unitPrice` is exact.
   */
  datatype Row = Row(invoice: InvoiceNo, quantity: int, date: int, unitPrice: real, customer: Option<CustomerId>)

  /** The columns an upload must carry, in the order the error message lists them. */
  const RequiredColumns: seq<string> := ["CustomerID", "InvoiceDate", "Quantity", "UnitPrice", "InvoiceNo"]

  /** Whether every name in `wanted` is one of `columns`, checked one name at a time. */
  function AllPresent(wanted: seq<string>, columns: seq<string>): (ok: bool)
    ensures ok <==> forall w :: w in wanted ==> w in columns
  {
    wanted == [] || (wanted[0] in columns && AllPresent(wanted[1..], columns))
  }

  /** The column check that gates the analysis: it passes exactly when all five required names are present. */
  function HasRequiredColumns(columns: seq<string>): (ok: bool)
    ensures ok <==> "CustomerID" in columns && "InvoiceDate" in columns && "Quantity" in columns
                    && "UnitPrice" in columns && "InvoiceNo" in columns
  {
    AllPresent(RequiredColumns, columns)
  }

  /** The row has a CustomerID. */
  predicate HasCustomer(r: Row)
  {
    r.customer.Some?
  }

  /** The row is a sale: strictly positive quantity and unit price (returns and free lines fail this). */
  predicate IsSale(r: Row)
  {
    r.quantity > 0 && r.unitPrice > 0.0
  }

  /** A row that survives cleaning. */
  predicate Keep(r: Row)
  {
    HasCustomer(r) && IsSale(r)
  }

  /** First cleaning pass: drop the rows whose CustomerID is missing. */
  function DropMissingCustomer(rows: seq<Row>): (kept: seq<Row>)
    ensures forall r :: r in kept <==> r in rows && HasCustomer(r)
    ensures |kept| <= |rows|
  {
    Filter(rows, HasCustomer)
  }

  /** Second cleaning pass: keep only rows with positive Quantity and UnitPrice. */
  function KeepSales(rows: seq<Row>): (kept: seq<Row>)
    ensures forall r :: r in kept <==> r in rows && IsSale(r)
    ensures |kept| <= |rows|
  {
    Filter(rows, IsSale)
  }

  /** The cleaned table the RFM step is computed from. */
  function Clean(rows: seq<Row>): (cleaned: seq<Row>)
    ensures forall r :: r in cleaned <==> r in rows && Keep(r)
    ensures |cleaned| <= |rows|
  {
    KeepSales(DropMissingCustomer(rows))
  }

  /** The two passes amount to one filter by `Keep`. */
  lemma CleanIsFilter(rows: seq<Row>)
    ensures Clean(rows) == Filter(rows, Keep)
  {
    FilterFilter(rows, HasCustomer, IsSale, Keep);
  }

  /** Cleaning keeps every surviving row exactly as often as it occurs, and no other row. */
  lemma CleanMultiplicity(rows: seq<Row>, r: Row)
    ensures multiset(Clean(rows))[r] == if Keep(r) then multiset(rows)[r] else 0
  {
    CleanIsFilter(rows);
    FilterMultiplicity(rows, Keep, r);
  }

  /** Cleaning works row by row and keeps the original order: it distributes over concatenation. */
  lemma CleanAppend(a: seq<Row>, b: seq<Row>)
    ensures Clean(a + b) == Clean(a) + Clean(b)
  {
    CleanIsFilter(a + b);
    CleanIsFilter(a);
    CleanIsFilter(b);
    FilterAppend(a, b, Keep);
  }

  /** A single row survives cleaning exactly when it has a customer and is a sale. */
  lemma CleanSingle(r: Row)
    ensures Clean([r]) == if Keep(r) then [r] else []
  {
    CleanIsFilter([r]);
    FilterSnoc([], r, Keep);
    assert [] + [r] == [r];
  }

  /** Cleaning an already cleaned table changes nothing. */
  lemma CleanIdempotent(rows: seq<Row>)
    ensures Clean(Clean(rows)) == Clean(rows)
  {
    var cleaned := Clean(rows);
    CleanIsFilter(cleaned);
    assert forall i :: 0 <= i < |cleaned| ==> cleaned[i] in cleaned;
    FilterKeepsAll(cleaned, Keep);
  }

  /** Every row of a cleaned table is usable. */
  lemma CleanedRowsAreKept(rows: seq<Row>)
    ensures forall i :: 0 <= i < |Clean(rows)| ==> Keep(Clean(rows)[i])
  {
    var cleaned := Clean(rows);
    assert forall i :: 0 <= i < |cleaned| ==> cleaned[i] in cleaned;
  }
}
