/**
 * The dashboard's analysis run: check the columns, clean the rows, compute
 * the RFM table, classify every customer, attach cluster and segment, count
 * the VIP and at-risk customers, and select the rows of one segment for export.
 */
module Pipeline {
  import opened Wrappers
  import opened Sequences
  import opened Transactions
  import opened Rfm
  import opened Preprocessing
  import opened SegmentCatalog

  /** A row of the result table: the customer's RFM record with its Cluster and Segment columns. */
  datatype SegmentRow = SegmentRow(rfm: RfmRecord, cluster: int, segment: string)

  /** The ways an analysis run ends without a result. */
  datatype PipelineError =
    | MissingColumns(required: seq<string>)  // the upload lacks a required column; the message lists all five
    | NoSamples                              // nothing survives cleaning, so the scaler receives an empty matrix
    | NoClusterForSegment(segment: string)   // the selected segment has no catalog entry

  /** What a successful run shows: the labelled table and the two headline counts. */
  datatype Analysis = Analysis(labelled: seq<SegmentRow>, vipCount: nat, atRiskCount: nat)

  /**
   * Adds the Cluster column (the classifier's output, row by row) and the
   * Segment column (the label of each cluster) to the RFM table.
   */
  method AttachSegments(table: seq<RfmRecord>, clusters: seq<int>) returns (labelled: seq<SegmentRow>)
    requires |clusters| == |table|
    ensures |labelled| == |table|
    ensures forall i :: 0 <= i < |table| ==> labelled[i].rfm == table[i] && labelled[i].cluster == clusters[i]
    ensures forall i :: 0 <= i < |table| ==> labelled[i].segment == LabelOf(clusters[i])
    ensures forall i :: 0 <= i < |table| ==> (labelled[i].segment == UnknownLabel <==> clusters[i] !in ClusterInsights)
  {
    labelled := [];
    var i := 0;
    while i < |table|
      invariant 0 <= i <= |table|
      invariant |labelled| == i
      invariant forall k :: 0 <= k < i ==> labelled[k] == SegmentRow(table[k], clusters[k], LabelOf(clusters[k]))
    {
      labelled := labelled + [SegmentRow(table[i], clusters[i], LabelOf(clusters[i]))];
      i := i + 1;
    }
  }

  /** Every row's Segment is the label of its Cluster. */
  predicate Labelled(labelled: seq<SegmentRow>)
  {
    forall i :: 0 <= i < |labelled| ==> labelled[i].segment == LabelOf(labelled[i].cluster)
  }

  /** Selects the rows whose Cluster is `k`. */
  function InCluster(k: int): SegmentRow -> bool
  {
    (r: SegmentRow) => r.cluster == k
  }

  /** Selects the rows whose Segment is `segment`. */
  function InSegment(segment: string): SegmentRow -> bool
  {
    (r: SegmentRow) => r.segment == segment
  }

  /** The rows of one cluster, in table order. */
  function ClusterRows(labelled: seq<SegmentRow>, k: int): (rows: seq<SegmentRow>)
    ensures forall r :: r in rows <==> r in labelled && r.cluster == k
  {
    Filter(labelled, InCluster(k))
  }

  /** The Cluster column. */
  function Clusters(labelled: seq<SegmentRow>): (ids: seq<int>)
    ensures |ids| == |labelled|
    ensures forall i :: 0 <= i < |labelled| ==> ids[i] == labelled[i].cluster
  {
    seq(|labelled|, i requires 0 <= i < |labelled| => labelled[i].cluster)
  }

  /** The number of customers in cluster `k` is the number of times `k` occurs in the Cluster column. */
  lemma {:induction false} ClusterCountIsOccurrences(labelled: seq<SegmentRow>, k: int)
    ensures |ClusterRows(labelled, k)| == multiset(Clusters(labelled))[k]
    decreases |labelled|
  {
    if labelled != [] {
      var init, r := labelled[..|labelled| - 1], labelled[|labelled| - 1];
      assert labelled == init + [r];
      FilterSnoc(init, r, InCluster(k));
      ClusterCountIsOccurrences(init, k);
      assert Clusters(labelled) == Clusters(init) + [r.cluster];
    }
  }

  /** The rows of the segment chosen for download: an error when the name has no catalog entry. */
  function ExportRows(labelled: seq<SegmentRow>, selected: string): (r: Result<seq<SegmentRow>, PipelineError>)
    ensures r.Err? <==> ClusterIdOf(selected).Err?
    ensures r.Err? ==> r.error == NoClusterForSegment(selected)
    ensures r.Ok? ==> forall x :: x in r.value <==> x in labelled && x.cluster == ClusterIdOf(selected).value
  {
    match ClusterIdOf(selected)
    case Err(_) => Err(NoClusterForSegment(selected))
    case Ok(k) => Ok(ClusterRows(labelled, k))
  }

  /**
   * On a labelled table, exporting a catalog segment yields exactly the rows
   * showing that segment, in table order; "Unknown" cannot be exported.
   */
  lemma ExportIsSegmentFilter(labelled: seq<SegmentRow>, selected: string)
    requires Labelled(labelled)
    ensures ExportRows(labelled, selected).Ok? <==> exists k :: k in ClusterInsights && ClusterInsights[k].name == selected
    ensures ExportRows(labelled, selected).Ok? ==> ExportRows(labelled, selected).value == Filter(labelled, InSegment(selected))
    ensures selected == UnknownLabel ==> ExportRows(labelled, selected).Err?
  {
    UnknownHasNoId();
    match ClusterIdOf(selected)
    case Err(_) =>
    case Ok(k) =>
      forall i | 0 <= i < |labelled|
        ensures InCluster(k)(labelled[i]) == InSegment(selected)(labelled[i])
      {
        LabelIdentifiesCluster(k, labelled[i].cluster);
      }
      FilterCongruent(labelled, InCluster(k), InSegment(selected));
  }

  /** A cleaned table is empty exactly when it has no customers. */
  lemma NoCustomersMeansNoRows(rows: seq<Row>)
    ensures Customers(Clean(rows)) == {} <==> Clean(rows) == []
  {
    var cleaned := Clean(rows);
    if cleaned != [] {
      assert cleaned[0] in cleaned;
      CustomersMembership(cleaned, cleaned[0].customer.value);
    }
  }

  /** The RFM columns of the result table. */
  function Records(labelled: seq<SegmentRow>): (table: seq<RfmRecord>)
    ensures |table| == |labelled|
    ensures forall i :: 0 <= i < |labelled| ==> table[i] == labelled[i].rfm
  {
    seq(|labelled|, i requires 0 <= i < |labelled| => labelled[i].rfm)
  }

  /**
   * `out` is the segmented customer table of the cleaned rows: its RFM
   * columns form the RFM table, each Cluster is the classifier's answer for
   * that customer's (Recency, Frequency, Monetary), and each Segment is the
   * label of its Cluster.
   */
  ghost predicate IsSegmentTable(cleaned: seq<Row>, classify: FeatureVector -> int, out: seq<SegmentRow>)
  {
    && IsRfmTable(cleaned, Records(out))
    && (forall k :: 0 <= k < |out| ==> out[k].cluster == classify(FeaturesOf(out[k].rfm)))
    && Labelled(out)
  }

  /** Classifies every customer of a cleaned table and labels the result. */
  method SegmentCustomers(cleaned: seq<Row>, table: seq<RfmRecord>, classify: FeatureVector -> int) returns (labelled: seq<SegmentRow>)
    requires forall i :: 0 <= i < |cleaned| ==> Keep(cleaned[i])
    requires IsRfmTable(cleaned, table)
    ensures IsSegmentTable(cleaned, classify, labelled)
  {
    var features := ClampTable(table);
    var clusters := seq(|features|, i requires 0 <= i < |features| => classify(features[i]));
    ClampIsIdentityOnCleanedTable(cleaned, table);
    labelled := AttachSegments(table, clusters);
    assert Records(labelled) == table;
    assert IsRfmTable(cleaned, Records(labelled));
    forall k | 0 <= k < |labelled|
      ensures labelled[k].cluster == classify(FeaturesOf(labelled[k].rfm))
    {
      assert labelled[k].cluster == clusters[k] == classify(features[k]);
      assert features[k] == FeaturesOf(table[k]);
    }
    assert Labelled(labelled);
  }

  /**
   * One analysis run over an uploaded table. `classify` stands for the
   * trained model applied to a clamped feature row (log transform, scaling
   * and the k-means prediction together).
   */
  method Analyze(columns: seq<string>, rows: seq<Row>, classify: FeatureVector -> int) returns (result: Result<Analysis, PipelineError>)
    ensures result == Err(MissingColumns(RequiredColumns)) <==> !HasRequiredColumns(columns)
    ensures HasRequiredColumns(columns) ==> (result == Err(NoSamples) <==> Clean(rows) == [])
    ensures HasRequiredColumns(columns) ==> (result.Err? <==> Clean(rows) == [])
    ensures result.Err? ==> result.error == MissingColumns(RequiredColumns) || result.error == NoSamples
    ensures result.Ok? ==> IsSegmentTable(Clean(rows), classify, result.value.labelled)
    ensures result.Ok? ==> result.value.vipCount == |ClusterRows(result.value.labelled, VipCluster)|
    ensures result.Ok? ==> result.value.atRiskCount == |ClusterRows(result.value.labelled, AtRiskCluster)|
  {
    if !HasRequiredColumns(columns) {
      return Err(MissingColumns(RequiredColumns));
    }
    var cleaned := Clean(rows);
    var table := CalculateRfm(cleaned);
    NoCustomersMeansNoRows(rows);
    if table == [] {
      return Err(NoSamples);
    }
    CleanedRowsAreKept(rows);
    var labelled := SegmentCustomers(cleaned, table, classify);
    var vip := |ClusterRows(labelled, VipCluster)|;
    var atRisk := |ClusterRows(labelled, AtRiskCluster)|;
    result := Ok(Analysis(labelled, vip, atRisk));
  }
}
