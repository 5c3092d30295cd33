/**
 * The segment catalog: the fixed table from cluster id to the segment's
 * label, description, characteristics and recommended strategy, with the
 * lookups the dashboard makes in both directions.
 */
module SegmentCatalog {
  import opened Wrappers
  import opened Sequences

  datatype Insight = Insight(name: string, description: string, characteristics: seq<string>, strategy: seq<string>)

  /** The label given to a cluster id the catalog does not know. */
  const UnknownLabel: string := "Unknown"

  const VipCluster: int := 1
  const AtRiskCluster: int := 2

  const LostLabel: string := "Lost / Low Value"
  const VipLabel: string := "VIP / Champions"
  const AtRiskLabel: string := "At Risk High Value"
  const NewLabel: string := "New / Potential"

  /** The catalog, keyed by the cluster ids the trained model produces. */
  const ClusterInsights: map<int, Insight> := map[
    0 := Insight(
      LostLabel,
      "Pelanggan hampir hilang dan kontribusi sangat kecil.",
      ["Recency tinggi (>400 hari, lama tidak belanja)",
       "Frequency rendah (1–2 kali)",
       "Monetary rendah (~Rp584 ribu)"],
      ["📉 Retargeting via WhatsApp/Email (Hemat Biaya)",
       "🏷️ Tawarkan produk 'Clearance Sale' atau harga rendah",
       "🚫 Jangan habiskan budget iklan besar di sini"]),
    1 := Insight(
      VipLabel,
      "Pelanggan paling loyal dan paling menguntungkan.",
      ["Recency rendah (~10 hari, baru saja belanja)",
       "Frequency tertinggi (~19 kali transaksi)",
       "Monetary fantastis (~Rp10.8 juta)"],
      ["👑 Program VIP Exclusive & Loyalty Points",
       "🎁 Early Access untuk produk baru",
       "💎 Upsell produk premium / Bundling eksklusif"]),
    2 := Insight(
      AtRiskLabel,
      "Pelanggan mulai tidak aktif, namun punya potensi daya beli tinggi.",
      ["Recency cukup tinggi (~118 hari tidak belanja)",
       "Frequency menengah (~7–8 kali)",
       "Monetary menengah-tinggi (~Rp3.5 juta)"],
      ["🔔 Personal Reminder: 'We Miss You'",
       "🎫 Penawaran Diskon Targeted / Cashback agresif",
       "❓ Survey kepuasan: Tanyakan kenapa berhenti belanja"]),
    3 := Insight(
      NewLabel,
      "Pelanggan baru yang masih membangun hubungan dengan brand.",
      ["Recency sedang (~36 hari)",
       "Frequency rendah (~2 kali)",
       "Monetary kecil (~Rp776 ribu)"],
      ["👋 Welcome Journey & Edukasi Produk",
       "🛒 Cross-sell produk pelengkap yang murah",
       "🎟️ Voucher diskon untuk pembelian kedua"])
  ]

  /** The catalog's ids in its iteration order. */
  const CatalogIds: seq<int> := [0, 1, 2, 3]

  /** Why the reverse lookup can fail: no catalog entry has the label, so the match list is empty. */
  datatype LookupError = NoClusterWithLabel(segment: string)

  /** The segment label of a cluster id; ids outside the catalog get "Unknown" instead of an error. */
  function LabelOf(clusterId: int): (segment: string)
    ensures clusterId in ClusterInsights ==> segment == ClusterInsights[clusterId].name
    ensures segment == UnknownLabel <==> !(0 <= clusterId <= 3)
  {
    if clusterId in ClusterInsights then ClusterInsights[clusterId].name else UnknownLabel
  }

  /** Whether catalog entry `k` carries the label `segment`. */
  function HasLabel(segment: string): int -> bool
  {
    k => k in ClusterInsights && ClusterInsights[k].name == segment
  }

  /** The ids whose entry carries `segment`, in catalog order. */
  function MatchingIds(segment: string): (ids: seq<int>)
    ensures forall k :: k in ids <==> k in CatalogIds && k in ClusterInsights && ClusterInsights[k].name == segment
  {
    Filter(CatalogIds, HasLabel(segment))
  }

  /** The cluster id of a segment label: the first matching entry, or an error when none matches. */
  function ClusterIdOf(segment: string): (r: Result<int, LookupError>)
    ensures r.Ok? ==> r.value in ClusterInsights && ClusterInsights[r.value].name == segment
    ensures r.Err? <==> forall k :: k in ClusterInsights ==> ClusterInsights[k].name != segment
  {
    var ids := MatchingIds(segment);
    if ids == [] then Err(NoClusterWithLabel(segment)) else Ok(ids[0])
  }

  /**
   * The catalog has exactly the ids 0 to 3, listed in that order by
   * `CatalogIds`, labelled Lost, VIP, At Risk and New; the VIP and at-risk
   * cluster ids counted on the dashboard carry the matching labels.
   */
  lemma CatalogEntries()
    ensures ClusterInsights.Keys == {0, 1, 2, 3}
    ensures forall k :: k in ClusterInsights <==> k in CatalogIds
    ensures ClusterInsights[0].name == LostLabel && ClusterInsights[1].name == VipLabel
    ensures ClusterInsights[2].name == AtRiskLabel && ClusterInsights[3].name == NewLabel
    ensures ClusterInsights[VipCluster].name == VipLabel && ClusterInsights[AtRiskCluster].name == AtRiskLabel
  {
  }

  /** No two catalog entries share a label, and none is labelled "Unknown". */
  lemma LabelsDistinct()
    ensures forall i, j :: i in ClusterInsights && j in ClusterInsights && i != j ==>
              ClusterInsights[i].name != ClusterInsights[j].name
    ensures forall i :: i in ClusterInsights ==> ClusterInsights[i].name != UnknownLabel
  {
    assert LostLabel[0] == 'L' && VipLabel[0] == 'V' && AtRiskLabel[0] == 'A' && NewLabel[0] == 'N' && UnknownLabel[0] == 'U';
  }

  /** A catalog id is the only cluster id, in or out of the catalog, that shows its label. */
  lemma LabelIdentifiesCluster(k: int, c: int)
    requires k in ClusterInsights
    ensures LabelOf(c) == LabelOf(k) <==> c == k
  {
    LabelsDistinct();
  }

  /** Looking up the label of a catalog id gives that id back. */
  lemma LabelRoundTrip(clusterId: int)
    requires clusterId in ClusterInsights
    ensures ClusterIdOf(LabelOf(clusterId)) == Ok(clusterId)
  {
    var ids := MatchingIds(LabelOf(clusterId));
    assert clusterId in ids;
    assert ids[0] in ids;
    LabelIdentifiesCluster(clusterId, ids[0]);
  }

  /** A label that resolves to an id is that id's label. */
  lemma IdRoundTrip(segment: string)
    requires ClusterIdOf(segment).Ok?
    ensures LabelOf(ClusterIdOf(segment).value) == segment
  {
  }

  /** The "Unknown" segment has no catalog entry, so looking it up fails. */
  lemma UnknownHasNoId()
    ensures ClusterIdOf(UnknownLabel).Err?
  {
    LabelsDistinct();
  }
}
