/**
 * RFM aggregation: one Recency / Frequency / Monetary record per customer,
 * computed from a transaction table. The functions below define each
 * measure per customer; `CalculateRfm` computes the whole table in one pass
 * over the rows and is proved to agree with them.
 */
module Rfm {
  import opened Wrappers
  import opened Sequences
  import opened Transactions

  /** One row of the RFM table, in the fixed field order Recency, Frequency, Monetary. */
  datatype RfmRecord = RfmRecord(customer: CustomerId, recency: int, frequency: int, monetary: real)

  function Max(a: int, b: int): int
  {
    if a >= b then a else b
  }

  /**
   * The TotalAmount of one line: Quantity times UnitPrice, exactly. At a
   * positive price the amount is positive exactly for a positive quantity,
   * so sales add and returns subtract.
   */
  function Amount(r: Row): (amount: real)
    ensures IsSale(r) ==> amount > 0.0
    ensures r.unitPrice > 0.0 ==> (amount > 0.0 <==> r.quantity > 0)
  {
    var amount := r.quantity as real * r.unitPrice;
    assert r.unitPrice > 0.0 ==> (amount > 0.0 <==> r.quantity > 0) by {
      if r.unitPrice > 0.0 {
        if r.quantity > 0 {
          assert r.quantity as real >= 1.0;
          assert amount >= r.unitPrice;
        } else {
          assert r.quantity as real <= 0.0;
          assert amount <= 0.0;
        }
      }
    }
    amount
  }

  /** The customers that occur in the table (rows without a CustomerID form no group). */
  function Customers(rows: seq<Row>): set<CustomerId>
  {
    if rows == [] then {}
    else
      var r := rows[|rows| - 1];
      Customers(rows[..|rows| - 1]) + if r.customer.Some? then {r.customer.value} else {}
  }

  /** A customer occurs in the table exactly when some row carries that CustomerID. */
  lemma {:induction false} CustomersMembership(rows: seq<Row>, c: CustomerId)
    ensures c in Customers(rows) <==> exists i :: 0 <= i < |rows| && rows[i].customer == Some(c)
    decreases |rows|
  {
    if rows != [] {
      var init := rows[..|rows| - 1];
      CustomersMembership(init, c);
      assert forall i :: 0 <= i < |init| ==> init[i] == rows[i];
    }
  }

  /** The group of one customer: that customer's rows, in table order. */
  function RowsOf(rows: seq<Row>, c: CustomerId): seq<Row>
  {
    Filter(rows, (r: Row) => r.customer == Some(c))
  }

  /** The latest InvoiceDate among some rows. */
  function MaxDate(s: seq<Row>): (m: int)
    requires s != []
    ensures forall i :: 0 <= i < |s| ==> s[i].date <= m
    ensures exists i :: 0 <= i < |s| && s[i].date == m
  {
    if |s| == 1 then s[0].date
    else
      var init := s[..|s| - 1];
      assert forall i :: 0 <= i < |init| ==> init[i] == s[i];
      Max(MaxDate(init), s[|s| - 1].date)
  }

  /** The distinct InvoiceNo values among some rows. */
  function InvoiceNos(s: seq<Row>): set<InvoiceNo>
  {
    if s == [] then {} else InvoiceNos(s[..|s| - 1]) + {s[|s| - 1].invoice}
  }

  /** The invoice numbers collected are exactly the InvoiceNo values that occur in the rows. */
  lemma {:induction false} InvoiceNosMembership(s: seq<Row>, n: InvoiceNo)
    ensures n in InvoiceNos(s) <==> exists i :: 0 <= i < |s| && s[i].invoice == n
    decreases |s|
  {
    if s != [] {
      var init := s[..|s| - 1];
      InvoiceNosMembership(init, n);
      assert forall i :: 0 <= i < |init| ==> init[i] == s[i];
    }
  }

  /** The sum of the TotalAmount of some rows. */
  function Total(s: seq<Row>): real
  {
    if s == [] then 0.0 else Total(s[..|s| - 1]) + Amount(s[|s| - 1])
  }

  /** The date Recency is measured from: one day after the latest InvoiceDate of the whole table. */
  function ReferenceDate(rows: seq<Row>): (reference: int)
    requires rows != []
    ensures forall i :: 0 <= i < |rows| ==> rows[i].date + Day <= reference
    ensures exists i :: 0 <= i < |rows| && reference == rows[i].date + Day
  {
    MaxDate(rows) + Day
  }

  /** A customer's latest InvoiceDate. */
  function LastPurchase(rows: seq<Row>, c: CustomerId): int
    requires c in Customers(rows)
  {
    RowsOfNonEmpty(rows, c);
    MaxDate(RowsOf(rows, c))
  }

  /**
   * Whole days from the customer's latest purchase to the reference date:
   * the floor of the difference in days, at least one because the reference
   * date lies a day past every purchase.
   */
  function Recency(rows: seq<Row>, c: CustomerId): (days: int)
    requires c in Customers(rows)
    ensures rows != []
    ensures days * Day <= ReferenceDate(rows) - LastPurchase(rows, c) < (days + 1) * Day
    ensures days >= 1
  {
    LastPurchaseAtMostMax(rows, c);
    (ReferenceDate(rows) - LastPurchase(rows, c)) / Day
  }

  /**
   * The number of distinct invoices of the customer: at least one and at
   * most the customer's number of rows, and zero for an absent customer.
   */
  function Frequency(rows: seq<Row>, c: CustomerId): (count: nat)
    ensures c in Customers(rows) ==> 1 <= count <= |RowsOf(rows, c)|
    ensures c !in Customers(rows) ==> count == 0
  {
    RowsOfNonEmpty(rows, c);
    InvoiceNosSize(RowsOf(rows, c));
    |InvoiceNos(RowsOf(rows, c))|
  }

  /** The customer's total spending; on a table of sales it is positive exactly for the customers that occur. */
  function Monetary(rows: seq<Row>, c: CustomerId): (spent: real)
    ensures (forall i :: 0 <= i < |rows| ==> IsSale(rows[i])) ==> (spent > 0.0 <==> c in Customers(rows))
  {
    GroupTotalSign(rows, c);
    Total(RowsOf(rows, c))
  }

  /** The RFM record the table must hold for customer `c`; on a table of sales all three measures are positive. */
  function RfmOf(rows: seq<Row>, c: CustomerId): (record: RfmRecord)
    requires c in Customers(rows)
    ensures record.customer == c && record.recency >= 1 && record.frequency >= 1
    ensures (forall i :: 0 <= i < |rows| ==> IsSale(rows[i])) ==> record.monetary > 0.0
  {
    RfmRecord(c, Recency(rows, c), Frequency(rows, c), Monetary(rows, c))
  }

  /** `record` is the RFM record of customer `c` in `rows`. */
  predicate IsRecordOf(rows: seq<Row>, c: CustomerId, record: RfmRecord)
  {
    c in Customers(rows) && record == RfmOf(rows, c)
  }

  /** A customer has a non-empty group exactly when the customer occurs in the table. */
  lemma RowsOfNonEmpty(rows: seq<Row>, c: CustomerId)
    ensures c in Customers(rows) <==> RowsOf(rows, c) != []
  {
    CustomersMembership(rows, c);
    if c in Customers(rows) {
      var i :| 0 <= i < |rows| && rows[i].customer == Some(c);
      assert rows[i] in RowsOf(rows, c);
    }
  }

  /** A row's date never exceeds the latest date of the rows it belongs to. */
  lemma DateAtMostMax(s: seq<Row>, r: Row)
    requires r in s
    ensures r.date <= MaxDate(s)
  {
    var i :| 0 <= i < |s| && s[i] == r;
  }

  /** How a customer's group grows when one row is appended to the table. */
  lemma RowsOfSnoc(rows: seq<Row>, r: Row, c: CustomerId)
    ensures RowsOf(rows + [r], c) == if r.customer == Some(c) then RowsOf(rows, c) + [r] else RowsOf(rows, c)
  {
    assert (rows + [r])[..|rows|] == rows;
  }

  lemma MaxDateSnoc(s: seq<Row>, r: Row)
    requires s != []
    ensures MaxDate(s + [r]) == Max(MaxDate(s), r.date)
  {
    assert (s + [r])[..|s|] == s;
  }

  lemma InvoiceNosSnoc(s: seq<Row>, r: Row)
    ensures InvoiceNos(s + [r]) == InvoiceNos(s) + {r.invoice}
  {
    assert (s + [r])[..|s|] == s;
  }

  lemma TotalSnoc(s: seq<Row>, r: Row)
    ensures Total(s + [r]) == Total(s) + Amount(r)
  {
    assert (s + [r])[..|s|] == s;
  }

  /** The per-customer state the one-pass aggregation keeps: latest date, invoices seen, running total. */
  datatype Acc = Acc(last: int, invoices: set<InvoiceNo>, total: real)

  /** What the aggregation state of customer `c` must be after reading `rows`. */
  function Accumulated(rows: seq<Row>, c: CustomerId): Acc
    requires c in Customers(rows)
  {
    Acc(LastPurchase(rows, c), InvoiceNos(RowsOf(rows, c)), Monetary(rows, c))
  }

  /** Appending another customer's row leaves the aggregation state of `c` as it was. */
  lemma AccumulatedOther(rows: seq<Row>, r: Row, c: CustomerId)
    requires c in Customers(rows + [r]) && r.customer != Some(c)
    ensures c in Customers(rows) && Accumulated(rows + [r], c) == Accumulated(rows, c)
  {
    RowsOfSnoc(rows, r, c);
    RowsOfNonEmpty(rows, c);
    RowsOfNonEmpty(rows + [r], c);
  }

  /** The first row of a customer starts that customer's aggregation state. */
  lemma AccumulatedFirst(rows: seq<Row>, r: Row, c: CustomerId)
    requires r.customer == Some(c) && c !in Customers(rows)
    ensures c in Customers(rows + [r])
    ensures Accumulated(rows + [r], c) == Acc(r.date, {r.invoice}, Amount(r))
  {
    assert (rows + [r])[|rows|] == r;
    RowsOfSnoc(rows, r, c);
    RowsOfNonEmpty(rows, c);
    assert RowsOf(rows + [r], c) == [] + [r];
    assert MaxDate([r]) == r.date;
    InvoiceNosSnoc([], r);
    TotalSnoc([], r);
  }

  /** A further row of a customer extends that customer's aggregation state. */
  lemma AccumulatedNext(rows: seq<Row>, r: Row, c: CustomerId)
    requires r.customer == Some(c) && c in Customers(rows)
    ensures c in Customers(rows + [r])
    ensures var a := Accumulated(rows, c);
            Accumulated(rows + [r], c) == Acc(Max(a.last, r.date), a.invoices + {r.invoice}, a.total + Amount(r))
  {
    assert (rows + [r])[|rows|] == r;
    RowsOfSnoc(rows, r, c);
    RowsOfNonEmpty(rows, c);
    var group := RowsOf(rows, c);
    InvoiceNosSnoc(group, r);
    TotalSnoc(group, r);
    MaxDateSnoc(group, r);
  }

  /** Which customers occur after one row is appended. */
  lemma CustomersSnoc(rows: seq<Row>, r: Row)
    ensures Customers(rows + [r]) == Customers(rows) + if r.customer.Some? then {r.customer.value} else {}
  {
    assert (rows + [r])[..|rows|] == rows;
  }

  /** Folds one row into the per-customer aggregation state. */
  function Absorb(groups: map<CustomerId, Acc>, r: Row): map<CustomerId, Acc>
  {
    match r.customer
    case None => groups
    case Some(c) =>
      if c in groups then
        var a := groups[c];
        groups[c := Acc(Max(a.last, r.date), a.invoices + {r.invoice}, a.total + Amount(r))]
      else
        groups[c := Acc(r.date, {r.invoice}, Amount(r))]
  }

  /** The aggregation state after reading `prefix`: one correct entry per customer, keys listed in ascending order. */
  ghost predicate GroupsAfter(prefix: seq<Row>, groups: map<CustomerId, Acc>, keys: seq<CustomerId>)
  {
    && groups.Keys == Customers(prefix)
    && Ascending(keys) && |keys| == |groups.Keys|
    && (forall c :: c in keys <==> c in groups)
    && (forall c :: c in groups ==> groups[c] == Accumulated(prefix, c))
  }

  /** Reading one more row adds its customer, if new, to the aggregated customers. */
  lemma AbsorbKeys(prefix: seq<Row>, r: Row, groups: map<CustomerId, Acc>)
    requires groups.Keys == Customers(prefix)
    ensures Absorb(groups, r).Keys == Customers(prefix + [r])
  {
    CustomersSnoc(prefix, r);
  }

  /** Reading one more row keeps every customer's aggregation state correct. */
  lemma AbsorbValues(prefix: seq<Row>, r: Row, groups: map<CustomerId, Acc>)
    requires groups.Keys == Customers(prefix)
    requires forall c :: c in groups ==> groups[c] == Accumulated(prefix, c)
    ensures forall c :: c in Absorb(groups, r) ==> c in Customers(prefix + [r]) && Absorb(groups, r)[c] == Accumulated(prefix + [r], c)
  {
    AbsorbKeys(prefix, r, groups);
    var after := Absorb(groups, r);
    forall c | c in after
      ensures c in Customers(prefix + [r]) && after[c] == Accumulated(prefix + [r], c)
    {
      if r.customer != Some(c) {
        AccumulatedOther(prefix, r, c);
      } else if c in groups {
        AccumulatedNext(prefix, r, c);
      } else {
        AccumulatedFirst(prefix, r, c);
      }
    }
  }

  /** Reading one more row keeps the aggregation state correct. */
  lemma AbsorbStep(prefix: seq<Row>, r: Row, groups: map<CustomerId, Acc>, keys: seq<CustomerId>)
    requires GroupsAfter(prefix, groups, keys)
    ensures r.customer.Some? && r.customer.value !in groups ==>
              r.customer.value !in keys && GroupsAfter(prefix + [r], Absorb(groups, r), InsertAscending(keys, r.customer.value))
    ensures !(r.customer.Some? && r.customer.value !in groups) ==> GroupsAfter(prefix + [r], Absorb(groups, r), keys)
  {
    AbsorbKeys(prefix, r, groups);
    AbsorbValues(prefix, r, groups);
  }

  /** Reading row `i` extends the aggregation state of the rows before it to the rows up to and including it. */
  lemma GroupsAfterNext(rows: seq<Row>, i: int, groups: map<CustomerId, Acc>, keys: seq<CustomerId>)
    requires 0 <= i < |rows|
    requires GroupsAfter(rows[..i], groups, keys)
    ensures var r := rows[i];
            r.customer.Some? && r.customer.value !in groups ==>
              r.customer.value !in keys && GroupsAfter(rows[..i + 1], Absorb(groups, r), InsertAscending(keys, r.customer.value))
    ensures var r := rows[i];
            !(r.customer.Some? && r.customer.value !in groups) ==> GroupsAfter(rows[..i + 1], Absorb(groups, r), keys)
  {
    assert rows[..i + 1] == rows[..i] + [rows[i]];
    AbsorbStep(rows[..i], rows[i], groups, keys);
  }

  /** The latest date of the rows up to row `i` is the larger of the previous latest date and row `i`'s date. */
  lemma LatestNext(rows: seq<Row>, i: int)
    requires 0 <= i < |rows|
    ensures MaxDate(rows[..i + 1]) == if i == 0 then rows[0].date else Max(MaxDate(rows[..i]), rows[i].date)
  {
    if i > 0 {
      assert rows[..i + 1] == rows[..i] + [rows[i]];
      MaxDateSnoc(rows[..i], rows[i]);
    }
  }

  /**
   * The grouping pass: reads the rows once, tracking the latest InvoiceDate
   * and, per customer, the aggregation state; `keys` lists the customers in
   * ascending order.
   */
  method GroupByCustomer(rows: seq<Row>) returns (latest: int, groups: map<CustomerId, Acc>, keys: seq<CustomerId>)
    requires rows != []
    ensures latest == MaxDate(rows)
    ensures GroupsAfter(rows, groups, keys)
  {
    latest := rows[0].date;
    groups := map[];
    keys := [];
    var i := 0;
    while i < |rows|
      invariant 0 <= i <= |rows|
      invariant 0 < i ==> latest == MaxDate(rows[..i])
      invariant GroupsAfter(rows[..i], groups, keys)
    {
      var r := rows[i];
      LatestNext(rows, i);
      latest := if i == 0 then r.date else Max(latest, r.date);
      GroupsAfterNext(rows, i, groups, keys);
      if r.customer.Some? && r.customer.value !in groups {
        keys := InsertAscending(keys, r.customer.value);
      }
      groups := Absorb(groups, r);
      i := i + 1;
    }
    assert rows[..|rows|] == rows;
  }

  /** The record built from a finished aggregation state is the customer's RFM record. */
  lemma RecordFromAccumulated(rows: seq<Row>, c: CustomerId)
    requires c in Customers(rows)
    ensures rows != []
    ensures var a := Accumulated(rows, c);
            RfmRecord(c, (MaxDate(rows) + Day - a.last) / Day, |a.invoices|, a.total) == RfmOf(rows, c)
  {
  }

  /** Turns the finished aggregation state into table rows, one per key, in the order of `keys`. */
  function Emit(groups: map<CustomerId, Acc>, keys: seq<CustomerId>, latest: int): (table: seq<RfmRecord>)
    requires forall k :: 0 <= k < |keys| ==> keys[k] in groups
  {
    seq(|keys|, k requires 0 <= k < |keys| =>
      var a := groups[keys[k]];
      RfmRecord(keys[k], (latest + Day - a.last) / Day, |a.invoices|, a.total))
  }

  /** Emitting the state of customers `cs` gives one row per customer, in ascending CustomerID order. */
  lemma EmitCoversCustomers(cs: set<CustomerId>, groups: map<CustomerId, Acc>, keys: seq<CustomerId>, latest: int)
    requires groups.Keys == cs && Ascending(keys) && |keys| == |cs|
    requires forall c :: c in keys <==> c in groups
    requires forall k :: 0 <= k < |keys| ==> keys[k] in groups
    ensures var table := Emit(groups, keys, latest);
            && |table| == |cs|
            && (forall i, j :: 0 <= i < j < |table| ==> table[i].customer < table[j].customer)
            && (forall c :: c in cs <==> exists k :: 0 <= k < |table| && table[k].customer == c)
  {
    var table := Emit(groups, keys, latest);
    forall c | c in cs
      ensures exists k :: 0 <= k < |table| && table[k].customer == c
    {
      assert c in keys;
      var k :| 0 <= k < |keys| && keys[k] == c;
      assert table[k].customer == c;
    }
  }

  /** Emitting a correct aggregation state with the table's latest date gives each customer's RFM record. */
  lemma EmitRecords(rows: seq<Row>, groups: map<CustomerId, Acc>, keys: seq<CustomerId>)
    requires rows != [] && GroupsAfter(rows, groups, keys)
    requires forall k :: 0 <= k < |keys| ==> keys[k] in groups
    ensures var table := Emit(groups, keys, MaxDate(rows));
            forall k :: 0 <= k < |table| ==> IsRecordOf(rows, table[k].customer, table[k])
  {
    var table := Emit(groups, keys, MaxDate(rows));
    forall k | 0 <= k < |table|
      ensures IsRecordOf(rows, table[k].customer, table[k])
    {
      RecordFromAccumulated(rows, keys[k]);
    }
  }

  /**
   * `table` is the RFM table of `rows`: exactly one record per customer, in
   * ascending CustomerID order, each holding that customer's measures.
   */
  ghost predicate IsRfmTable(rows: seq<Row>, table: seq<RfmRecord>)
  {
    && |table| == |Customers(rows)|
    && (forall i, j :: 0 <= i < j < |table| ==> table[i].customer < table[j].customer)
    && (forall c :: c in Customers(rows) <==> exists k :: 0 <= k < |table| && table[k].customer == c)
    && (forall k :: 0 <= k < |table| ==> IsRecordOf(rows, table[k].customer, table[k]))
  }

  /**
   * Groups the table by customer in ascending CustomerID order and computes
   * each customer's Recency, Frequency and Monetary.
   */
  method CalculateRfm(rows: seq<Row>) returns (table: seq<RfmRecord>)
    ensures IsRfmTable(rows, table)
  {
    if rows == [] {
      return [];
    }
    var latest, groups, keys := GroupByCustomer(rows);
    assert forall k :: 0 <= k < |keys| ==> keys[k] in keys;
    table := Emit(groups, keys, latest);
    EmitCoversCustomers(Customers(rows), groups, keys, latest);
    EmitRecords(rows, groups, keys);
  }

  // Properties of the RFM measures

  /** A customer's latest purchase lies within the table's date range. */
  lemma LastPurchaseAtMostMax(rows: seq<Row>, c: CustomerId)
    requires c in Customers(rows)
    ensures rows != [] && LastPurchase(rows, c) <= MaxDate(rows)
  {
    RowsOfNonEmpty(rows, c);
    var group := RowsOf(rows, c);
    var k :| 0 <= k < |group| && group[k].date == MaxDate(group);
    assert group[k] in group;
    DateAtMostMax(rows, group[k]);
  }

  /** Recency is exactly one when the latest purchase is within a day of the table's latest InvoiceDate. */
  lemma RecencyIsOne(rows: seq<Row>, c: CustomerId)
    requires c in Customers(rows)
    ensures rows != []
    ensures Recency(rows, c) == 1 <==> MaxDate(rows) - LastPurchase(rows, c) < Day
  {
    LastPurchaseAtMostMax(rows, c);
  }

  /** A customer holding the table's latest InvoiceDate has Recency exactly one. */
  lemma LatestCustomerRecency(rows: seq<Row>, i: int)
    requires 0 <= i < |rows| && rows[i].customer.Some? && rows[i].date == MaxDate(rows)
    ensures rows[i].customer.value in Customers(rows)
    ensures Recency(rows, rows[i].customer.value) == 1
  {
    var c := rows[i].customer.value;
    CustomersMembership(rows, c);
    assert rows[i] in RowsOf(rows, c);
    RowsOfNonEmpty(rows, c);
    DateAtMostMax(RowsOf(rows, c), rows[i]);
    RecencyIsOne(rows, c);
  }

  /** There are never more distinct invoices than rows, and at least one when there is a row. */
  lemma {:induction false} InvoiceNosSize(s: seq<Row>)
    ensures |InvoiceNos(s)| <= |s|
    ensures s != [] ==> |InvoiceNos(s)| >= 1
    decreases |s|
  {
    if s != [] {
      InvoiceNosSize(s[..|s| - 1]);
    }
  }

  /** The invoices counted for a customer are exactly the InvoiceNo values on that customer's rows. */
  lemma FrequencyCountsInvoices(rows: seq<Row>, c: CustomerId, n: InvoiceNo)
    ensures n in InvoiceNos(RowsOf(rows, c)) <==>
            exists i :: 0 <= i < |rows| && rows[i].customer == Some(c) && rows[i].invoice == n
  {
    var group := RowsOf(rows, c);
    InvoiceNosMembership(group, n);
    if n in InvoiceNos(group) {
      var k :| 0 <= k < |group| && group[k].invoice == n;
      assert group[k] in group;
      var i :| 0 <= i < |rows| && rows[i] == group[k];
    }
    if exists i :: 0 <= i < |rows| && rows[i].customer == Some(c) && rows[i].invoice == n {
      var i :| 0 <= i < |rows| && rows[i].customer == Some(c) && rows[i].invoice == n;
      assert rows[i] in group;
      var k :| 0 <= k < |group| && group[k] == rows[i];
    }
  }

  /**
   * One more row raises a customer's Frequency by one when it is that
   * customer's and carries an invoice not seen for them before, and leaves it
   * unchanged otherwise: duplicate lines of one invoice are not counted twice.
   */
  lemma FrequencySnoc(rows: seq<Row>, r: Row, c: CustomerId)
    ensures Frequency(rows + [r], c) ==
            Frequency(rows, c) + if r.customer == Some(c) && r.invoice !in InvoiceNos(RowsOf(rows, c)) then 1 else 0
  {
    RowsOfSnoc(rows, r, c);
    InvoiceNosSnoc(RowsOf(rows, c), r);
    assert Frequency(rows, c) == |InvoiceNos(RowsOf(rows, c))|;
    assert Frequency(rows + [r], c) == |InvoiceNos(RowsOf(rows + [r], c))|;
  }

  /** Monetary is the exact running sum of Quantity times UnitPrice over the customer's rows. */
  lemma MonetarySnoc(rows: seq<Row>, r: Row, c: CustomerId)
    ensures Monetary([], c) == 0.0
    ensures Monetary(rows + [r], c) == Monetary(rows, c) + if r.customer == Some(c) then Amount(r) else 0.0
  {
    RowsOfSnoc(rows, r, c);
    TotalSnoc(RowsOf(rows, c), r);
  }

  /** Rows that are all sales add up to a positive amount, if there is one. */
  lemma {:induction false} TotalPositive(s: seq<Row>)
    requires forall i :: 0 <= i < |s| ==> IsSale(s[i])
    ensures s != [] ==> Total(s) > 0.0
    ensures Total(s) >= 0.0
    decreases |s|
  {
    if s != [] {
      assert IsSale(s[|s| - 1]);
      TotalPositive(s[..|s| - 1]);
    }
  }

  /** On a table of sales, a customer's rows add up to a positive amount exactly when the customer occurs. */
  lemma GroupTotalSign(rows: seq<Row>, c: CustomerId)
    ensures (forall i :: 0 <= i < |rows| ==> IsSale(rows[i])) ==> (Total(RowsOf(rows, c)) > 0.0 <==> c in Customers(rows))
  {
    var group := RowsOf(rows, c);
    RowsOfNonEmpty(rows, c);
    if forall i :: 0 <= i < |rows| ==> IsSale(rows[i]) {
      forall k | 0 <= k < |group|
        ensures IsSale(group[k])
      {
        assert group[k] in group;
        var i :| 0 <= i < |rows| && rows[i] == group[k];
      }
      TotalPositive(group);
    }
  }

  /** Midnight of 2024-01-01 in seconds since the Unix epoch. */
  const Jan1: int := 1704067200

  /**
   * Worked example: one customer with two invoices, 2 x 10.00 on 2024-01-01
   * and 1 x 5.00 on 2024-01-10.
   */
  const ExampleRows: seq<Row> := [Row("INV1", 2, Jan1, 10.0, Some(1)), Row("INV2", 1, Jan1 + 9 * Day, 5.0, Some(1))]

  /** The example has one customer, whose group is the whole table, and its reference date is 2024-01-11. */
  lemma ExampleGroup()
    ensures Customers(ExampleRows) == {1}
    ensures RowsOf(ExampleRows, 1) == ExampleRows
    ensures ReferenceDate(ExampleRows) == Jan1 + 10 * Day
  {
    var a, b := ExampleRows[0], ExampleRows[1];
    assert [] + [a] == [a] && [a] + [b] == ExampleRows;
    CustomersSnoc([], a);
    CustomersSnoc([a], b);
    RowsOfSnoc([], a, 1);
    RowsOfSnoc([a], b, 1);
    MaxDateSnoc([a], b);
  }

  /** The example customer bought last on 2024-01-10, so its Recency is one day. */
  lemma ExampleRecency()
    ensures 1 in Customers(ExampleRows)
    ensures Recency(ExampleRows, 1) == 1
  {
    ExampleGroup();
    var a, b := ExampleRows[0], ExampleRows[1];
    assert [a] + [b] == ExampleRows;
    MaxDateSnoc([a], b);
    assert LastPurchase(ExampleRows, 1) == Jan1 + 9 * Day;
  }

  /** Two rows with different invoice numbers count as two invoices. */
  lemma InvoiceNosPair(a: Row, b: Row)
    requires a.invoice != b.invoice
    ensures |InvoiceNos([a, b])| == 2
  {
    assert [] + [a] == [a] && [a] + [b] == [a, b];
    InvoiceNosSnoc([], a);
    InvoiceNosSnoc([a], b);
    assert InvoiceNos([a, b]) == {a.invoice, b.invoice};
  }

  /** The example customer has two distinct invoices. */
  lemma ExampleFrequency()
    ensures Frequency(ExampleRows, 1) == 2
  {
    ExampleGroup();
    assert "INV1"[3] != "INV2"[3];
    InvoiceNosPair(ExampleRows[0], ExampleRows[1]);
    assert ExampleRows == [ExampleRows[0], ExampleRows[1]];
  }

  /** The example customer spent 2 x 10.00 + 1 x 5.00 = 25.00. */
  lemma ExampleMonetary()
    ensures Monetary(ExampleRows, 1) == 25.0
  {
    ExampleGroup();
    var a, b := ExampleRows[0], ExampleRows[1];
    assert [] + [a] == [a] && [a] + [b] == ExampleRows;
    TotalSnoc([], a);
    TotalSnoc([a], b);
  }

  /** The example customer's RFM record is (Recency 1, Frequency 2, Monetary 25.00). */
  lemma ExampleRecord()
    ensures 1 in Customers(ExampleRows)
    ensures RfmOf(ExampleRows, 1) == RfmRecord(1, 1, 2, 25.0)
  {
    ExampleRecency();
    ExampleFrequency();
    ExampleMonetary();
  }
}
