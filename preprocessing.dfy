/**
 * The exact part of preparing the classifier input: select the three RFM
 * columns in their fixed order and replace every non-positive value by 1.
 */
module Preprocessing {
  import opened Transactions
  import opened Rfm

  /** One classifier input row, always in the order Recency, Frequency, Monetary. */
  datatype FeatureVector = FeatureVector(recency: int, frequency: int, monetary: real)

  /**
   * Selects the Recency, Frequency and Monetary columns of a record, in that
   * order; the CustomerID is not part of the classifier input.
   */
  function FeaturesOf(record: RfmRecord): (v: FeatureVector)
    ensures v.recency == record.recency && v.frequency == record.frequency && v.monetary == record.monetary
    ensures IsPositive(v) <==> record.recency > 0 && record.frequency > 0 && record.monetary > 0.0
  {
    FeatureVector(record.recency, record.frequency, record.monetary)
  }

  predicate IsPositive(v: FeatureVector)
  {
    v.recency > 0 && v.frequency > 0 && v.monetary > 0.0
  }

  /** The clamp on a whole-number column: positive values stay, anything else becomes 1. */
  function ClampInt(x: int): (y: int)
    ensures y > 0
    ensures x > 0 ==> y == x
    ensures x <= 0 ==> y == 1
  {
    if x > 0 then x else 1
  }

  /** The clamp on the Monetary column. */
  function ClampReal(x: real): (y: real)
    ensures y > 0.0
    ensures x > 0.0 ==> y == x
    ensures x <= 0.0 ==> y == 1.0
  {
    if x > 0.0 then x else 1.0
  }

  /** The clamp applied to every value of a row; each value stays in its own column. */
  function Clamp(v: FeatureVector): (w: FeatureVector)
    ensures IsPositive(w)
    ensures IsPositive(v) ==> w == v
    ensures w.recency == ClampInt(v.recency) && w.frequency == ClampInt(v.frequency) && w.monetary == ClampReal(v.monetary)
  {
    FeatureVector(ClampInt(v.recency), ClampInt(v.frequency), ClampReal(v.monetary))
  }

  /** Clamping twice is clamping once. */
  lemma ClampIdempotent(v: FeatureVector)
    ensures Clamp(Clamp(v)) == Clamp(v)
  {
  }

  /** The clamped feature matrix: row `i` comes from record `i` of the RFM table. */
  function ClampTable(table: seq<RfmRecord>): (m: seq<FeatureVector>)
    ensures |m| == |table|
    ensures forall i :: 0 <= i < |m| ==> IsPositive(m[i])
    ensures forall i :: 0 <= i < |m| ==> m[i] == Clamp(FeaturesOf(table[i]))
  {
    seq(|table|, i requires 0 <= i < |table| => Clamp(FeaturesOf(table[i])))
  }

  /**
   * On an RFM table computed from cleaned rows the clamp changes nothing:
   * every Recency and Frequency is at least one and every Monetary positive.
   */
  lemma ClampIsIdentityOnCleanedTable(rows: seq<Row>, table: seq<RfmRecord>)
    requires forall i :: 0 <= i < |rows| ==> Keep(rows[i])
    requires forall k :: 0 <= k < |table| ==> IsRecordOf(rows, table[k].customer, table[k])
    ensures forall k :: 0 <= k < |table| ==> IsPositive(FeaturesOf(table[k]))
    ensures forall k :: 0 <= k < |table| ==> ClampTable(table)[k] == FeaturesOf(table[k])
  {
    forall k | 0 <= k < |table|
      ensures IsPositive(FeaturesOf(table[k]))
    {
      assert forall i :: 0 <= i < |rows| ==> IsSale(rows[i]);
      assert table[k] == RfmOf(rows, table[k].customer);
    }
  }
}
