# Clustify RFM segmentation — a Dafny model

Clustify is a Streamlit app (`app.py`). A user uploads a CSV of retail
transactions and the app sorts the customers into marketing segments. Its
core is one data pipeline, and that pipeline is what this project models:

1. **Column check.** The upload must have the five columns CustomerID,
   InvoiceDate, Quantity, UnitPrice and InvoiceNo. Otherwise the app shows an
   error that lists all five columns and analyses nothing.
2. **Cleaning.** Rows without a CustomerID are dropped. So are rows whose
   Quantity or UnitPrice is not positive.
3. **RFM table** (`calculate_rfm`). The reference date is the latest
   InvoiceDate plus one day. Rows are grouped by customer, and each customer
   gets:
   - Recency: whole days from their latest purchase to the reference date;
   - Frequency: the number of distinct invoices;
   - Monetary: the sum of Quantity × UnitPrice.
4. **Clamp** (the first step of `preprocess_data`). Every measure that is not
   positive becomes 1.
5. **Prediction and labelling.** A classifier gives each customer a cluster
   id. `get_label_from_id` names the cluster from the `CLUSTER_INSIGHTS`
   catalog, or "Unknown" for an id the catalog lacks.
6. **Dashboard figures and export.**
   - The app counts the customers of cluster 1 (VIP) and cluster 2 (at risk).
   - It turns the selected segment name back into a cluster id, taking the
     first catalog entry with that label.
   - It exports the rows of that cluster.

Files:

| file | module | contents |
|---|---|---|
| `wrappers.dfy` | `Wrappers` | `Option` and `Result` |
| `sequences.dfy` | `Sequences` | order-preserving `Filter` and its laws; insertion into an ascending sequence |
| `transactions.dfy` | `Transactions` | transaction rows, column check, cleaning |
| `rfm.dfy` | `Rfm` | the RFM measures as functions; `CalculateRfm`, a group-by loop proved against them; a worked example |
| `preprocessing.dfy` | `Preprocessing` | feature vectors and the clamp |
| `catalog.dfy` | `SegmentCatalog` | the segment catalog, label lookup, reverse lookup |
| `pipeline.dfy` | `Pipeline` | attaching clusters and segments, per-cluster counts, export, the whole `Analyze` step |

Representation:

- InvoiceDate is an integer count of seconds. The value is already parsed.
- A day is 86400 seconds. `Timedelta.days` is floor division, and Dafny's
  `/` by a positive divisor is floor division too.
- Quantity is an `int`.
- UnitPrice and every amount are exact `real`s.
- CustomerID is an `Option<int>`, where `None` is a missing value.
- pandas' `groupby` sorts its keys, so the RFM table is ordered by ascending
  CustomerID.
- The classifier is a function parameter `classify` from feature vector to
  cluster id. It stands for the whole chain `log1p`, `scaler.transform` and
  `model.predict`.

How the app fails, and how the model states each failure:

- When a required column is missing, the error message names all five
  required columns, not only the missing ones. `Pipeline.Analyze` returns
  `Err(MissingColumns(RequiredColumns))`.
- When no rows are left after cleaning, the scaler rejects the empty table
  and the catch-all handler (lines 240-241) reports the exception.
  `Pipeline.Analyze` returns `Err(NoSamples)`.
- When the selected segment has no catalog entry ("Unknown"), the list at
  line 207 is empty, indexing it raises, and the same handler reports the
  exception. `Pipeline.ExportRows` returns `Err(NoClusterForSegment(name))`.

## Model

| member | source | states |
|---|---|---|
| Transactions.AllPresent | app.py:143 | the check passes exactly when every wanted column is among the input's columns |
| Transactions.HasRequiredColumns | app.py:141-144 | the check passes exactly when CustomerID, InvoiceDate, Quantity, UnitPrice and InvoiceNo are all present |
| Transactions.DropMissingCustomer | app.py:148 | a row survives the first pass exactly when it is an input row with a CustomerID |
| Transactions.KeepSales | app.py:149 | a row survives the second pass exactly when it is an input row with Quantity > 0 and UnitPrice > 0 |
| Transactions.Clean | app.py:148-149 | a row survives cleaning exactly when it is an input row with a CustomerID, Quantity > 0 and UnitPrice > 0; the result is no longer than the input |
| Transactions.CleanIsFilter | app.py:148-149 | the two consecutive filters equal one order-preserving filter by the combined condition |
| Transactions.CleanMultiplicity | app.py:148-149 | each kept row keeps all of its copies, and each dropped row keeps none |
| Transactions.CleanAppend | app.py:148-149 | cleaning works row by row: cleaning a concatenation concatenates the cleaned parts, so order is kept |
| Transactions.CleanSingle | app.py:148-149 | a single row is kept exactly when it passes both filters |
| Transactions.CleanIdempotent | app.py:148-149 | cleaning a cleaned table changes nothing |
| Transactions.CleanedRowsAreKept | app.py:148-149 | every cleaned row has a CustomerID, a positive Quantity and a positive UnitPrice |
| Sequences.Filter | app.py:149 | a boolean-mask selection keeps exactly the elements that satisfy the mask, and never more elements than the input has |
| Sequences.FilterAppend | app.py:149 | masking a concatenation concatenates the masked parts, in order |
| Sequences.FilterMultiplicity | app.py:149 | masking keeps every copy of a selected element and no copy of a rejected one |
| Sequences.FilterFilter | app.py:148-149 | two successive masks equal one mask by their conjunction |
| Sequences.InsertAscending | app.py:115 | inserting a new key into the sorted group keys keeps them strictly ascending and adds exactly that key |
| Rfm.Amount | app.py:112 | a sale line has a positive TotalAmount, and at a positive price the amount is positive exactly when the quantity is |
| Rfm.CustomersMembership | app.py:115 | the groups are exactly the CustomerIDs present in the rows |
| Rfm.MaxDate | app.py:113 | the latest InvoiceDate is at least every row's date and is some row's date |
| Rfm.InvoiceNosMembership | app.py:117 | the counted invoices are exactly the InvoiceNo values that occur in the rows |
| Rfm.ReferenceDate | app.py:113 | the reference date is at least one day after every InvoiceDate and exactly one day after some row's date, so it is the latest InvoiceDate plus one day |
| Rfm.Recency | app.py:116 | Recency is the floor of (reference date − latest purchase) in days, and at least 1 |
| Rfm.Frequency | app.py:117 | Frequency is at least 1 and at most the customer's number of rows, and 0 for a CustomerID that does not occur |
| Rfm.Monetary | app.py:118 | on rows that are all sales, Monetary is positive exactly for the customers that occur |
| Rfm.RfmOf | app.py:115-119 | a customer's record carries its CustomerID, Recency ≥ 1 and Frequency ≥ 1, and positive Monetary on rows that are all sales |
| Rfm.RowsOfNonEmpty | app.py:115 | a customer has a non-empty group exactly when it occurs in the rows |
| Rfm.GroupByCustomer | app.py:113-118 | one pass over the rows yields the latest date and, per customer in ascending order, the latest purchase, the invoice set and the total amount of that customer's rows |
| Rfm.CalculateRfm | app.py:110-122 | the table has one record per distinct CustomerID, in strictly ascending CustomerID order, and each record holds that customer's Recency, Frequency and Monetary measured from the shared reference date |
| Rfm.LastPurchaseAtMostMax | app.py:113-116 | a customer's latest purchase is no later than the table's latest InvoiceDate |
| Rfm.RecencyIsOne | app.py:113-116 | Recency is 1 exactly when the latest purchase is within a day of the table's latest InvoiceDate |
| Rfm.LatestCustomerRecency | app.py:113-116 | a customer holding the table's latest InvoiceDate has Recency 1 |
| Rfm.InvoiceNosSize | app.py:117 | there are never more distinct invoices than rows, and at least one for a non-empty group |
| Rfm.FrequencyCountsInvoices | app.py:117 | the invoices counted for a customer are exactly the InvoiceNo values on that customer's rows |
| Rfm.FrequencySnoc | app.py:117 | another row raises Frequency by one only when it belongs to the customer and has an unseen InvoiceNo, so a repeated invoice is not counted twice |
| Rfm.MonetarySnoc | app.py:112-118 | Monetary starts at 0 and grows by exactly Quantity × UnitPrice of each row of the customer |
| Rfm.TotalPositive | app.py:112-118 | a non-empty run of sales rows sums to a positive amount |
| Rfm.ExampleGroup | app.py:113-115 | for two invoices of one customer on 2024-01-01 and 2024-01-10 there is one group and the reference date is 2024-01-11 |
| Rfm.ExampleRecency | app.py:116 | that customer's Recency is 1 |
| Rfm.ExampleFrequency | app.py:117 | that customer's Frequency is 2 |
| Rfm.ExampleMonetary | app.py:118 | that customer's Monetary is 2 × 10.00 + 1 × 5.00 = 25.00 |
| Rfm.ExampleRecord | app.py:110-122 | that customer's record is (1, 1, 2, 25.00) |
| Preprocessing.FeaturesOf | app.py:125 | the classifier input is Recency, Frequency and Monetary in that order, and is positive exactly when all three measures are |
| Preprocessing.ClampInt | app.py:127 | an integer measure becomes positive; positive values are unchanged and the others become 1 |
| Preprocessing.ClampReal | app.py:127 | the same for the real-valued Monetary |
| Preprocessing.Clamp | app.py:125-127 | the clamped vector is positive, equals its input when that is already positive, and clamps each of Recency, Frequency and Monetary in its own position |
| Preprocessing.ClampIdempotent | app.py:127 | clamping twice is clamping once |
| Preprocessing.ClampTable | app.py:124-127 | the clamped table has one positive vector per record, in record order |
| Preprocessing.ClampIsIdentityOnCleanedTable | app.py:124-127 | on an RFM table of cleaned rows every measure is already positive, so the clamp changes nothing |
| SegmentCatalog.CatalogEntries | app.py:41-98 | the catalog `ClusterInsights` has exactly the ids 0–3, labelled Lost / Low Value, VIP / Champions, At Risk High Value and New / Potential; ids 1 and 2 are the VIP and at-risk clusters |
| SegmentCatalog.LabelOf | app.py:132-133 | ids in the catalog get their catalog label, and the label is "Unknown" exactly for ids outside 0–3 |
| SegmentCatalog.MatchingIds | app.py:207 | the list holds exactly the catalog ids whose label is the selected name |
| SegmentCatalog.ClusterIdOf | app.py:207 | a found id has the selected label, and the lookup fails exactly when no catalog entry has that label |
| SegmentCatalog.LabelsDistinct | app.py:41-98 | no two catalog entries share a label, and none is labelled "Unknown" |
| SegmentCatalog.LabelIdentifiesCluster | app.py:41-98 | a catalog id is the only cluster id, in or out of the catalog, that shows its label |
| SegmentCatalog.LabelRoundTrip | app.py:207 | looking up the label of a catalog id gives that id back |
| SegmentCatalog.IdRoundTrip | app.py:207 | a name that resolves to an id is that id's label |
| SegmentCatalog.UnknownHasNoId | app.py:207 | looking up "Unknown" fails |
| Pipeline.AttachSegments | app.py:155-156 | each record is kept in place with its cluster id beside it, and its segment is that cluster's label; the segment is "Unknown" exactly when the cluster is not in the catalog |
| Pipeline.ClusterRows | app.py:167-168 | the rows selected for a cluster are exactly the table rows with that cluster id |
| Pipeline.ClusterCountIsOccurrences | app.py:167-168 | the count for a cluster equals the number of times that id occurs in the Cluster column |
| Pipeline.ExportRows | app.py:229 | the export fails exactly when the reverse lookup fails, and the error names the selected segment; otherwise it holds exactly the table rows whose Cluster is the looked-up id |
| Pipeline.ExportIsSegmentFilter | app.py:229 | on a labelled table the export succeeds exactly when some catalog entry has the selected name, it yields exactly the rows showing that segment in table order, and "Unknown" cannot be exported |
| Pipeline.NoCustomersMeansNoRows | app.py:148-150 | the cleaned table has no customers exactly when it has no rows |
| Pipeline.SegmentCustomers | app.py:150-156 | given the RFM table of cleaned rows, each record gets the cluster the classifier gives its clamped measures and that cluster's label |
| Pipeline.Analyze | app.py:141-168 | the column error happens exactly when a required column is missing; with the columns present the run fails exactly when cleaning leaves no rows, and then with `NoSamples`; no other error occurs; a successful result is the labelled RFM table of the cleaned rows with the VIP and at-risk counts of clusters 1 and 2 |

## Left out

- The Streamlit page is presentation and is not modelled. That covers the page configuration, CSS, sidebar, upload widget, metric widgets, charts, selectbox, preview and download button.
- The segment a user picks is a parameter `selected` of `ExportRows`. Its options come from the Segment column (line 203), and nothing constrains the choice.
- `pd.read_csv` and `to_csv` are library I/O. A table is its column names plus a sequence of already-typed rows.
- `pd.to_datetime` is string parsing. Dates are already-parsed integer seconds, with any fraction of a second dropped.
- `load_model` and `joblib.load` read opaque pickled files. A missing model file only stops the app before analysis, and that path is not modelled.
- `np.log1p`, `scaler.transform` and `model.predict` are floating-point numerics over fitted foreign objects. Together they become the parameter `classify`, applied to the clamped features.
- The average-spending metric (line 164) is a floating-point mean shown only as text, so it is not modelled.
- Floating-point rounding is not modelled, because amounts are exact `real`s. `Rfm.Monetary` and `Rfm.Amount` hold for exact arithmetic.
- `Pipeline.Analyze` models the catch-all handler (lines 240-241) only for an empty cleaned table. `Pipeline.ExportRows` models it for a segment with no catalog entry. Other exceptions, such as malformed cell values, are not modelled.
- A missing Quantity or UnitPrice cell cannot be represented, because both are always-present numbers in a row. pandas reads such a cell as `NaN`, and `NaN > 0` is false, so line 149 drops that row; the model has no such row to drop.
- `Pipeline.Analyze` does not model the export step (lines 207-229). That step depends on a user choice made after the analysis, so it is `Pipeline.ExportRows`, a separate function.
- A missing InvoiceDate cell cannot be represented, because every row carries an integer date. In the app such a row survives cleaning, since lines 148-149 test only CustomerID, Quantity and UnitPrice. `pd.to_datetime` makes the cell `NaT` (line 111), and `max()` skips it (lines 113 and 116). The row still counts towards Frequency and Monetary. A customer whose rows all lack a date gets a NaN Recency, which the clamp at line 127 turns into 1. So on such input the clamp is not the identity that `Preprocessing.ClampIsIdentityOnCleanedTable` states for the model's rows.
- pandas groups and counts `NaN` InvoiceNo values in its own way. InvoiceNo is always a present string here.
