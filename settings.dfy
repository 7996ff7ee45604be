/** The per-point overrides shipped with the tools (settings.py): ten points
    whose plan position is held fixed while the height is adjusted. */
module Settings {
  import opened Common
  import opened GamaXml

  const HoldPlanAdjustHeight: Override := Override(Some("xy"), Some("Z"))

  const SamplePointSettings: PointSettings := map[
    "1P25" := HoldPlanAdjustHeight,
    "2P5" := HoldPlanAdjustHeight,
    "8P5" := HoldPlanAdjustHeight,
    "23" := HoldPlanAdjustHeight,
    "533" := HoldPlanAdjustHeight,
    "536" := HoldPlanAdjustHeight,
    "507" := HoldPlanAdjustHeight,
    "8P9" := HoldPlanAdjustHeight,
    "604" := HoldPlanAdjustHeight,
    "611" := HoldPlanAdjustHeight
  ]

  /** Merging a record for one of the listed points marks it fix="xy", adj="Z". */
  lemma ListedPointHoldsPlan(a: Attrs, point: seq<string>)
    requires UniqueNames(a) && |point| >= 4 && Lookup(a, "id") == Some(point[0])
    requires point[0] in SamplePointSettings
    ensures var r := UpdatedPoint(a, point, SamplePointSettings).attrs;
      Lookup(r, "fix") == Some("xy") && Lookup(r, "adj") == Some("Z")
  {
    UpdateOverrideFlags(a, point, SamplePointSettings);
  }

  /** A point that is not listed gets the default adj="XYZ" and no fix. */
  lemma UnlistedPointAdjustsAll(a: Attrs, point: seq<string>)
    requires UniqueNames(a) && |point| >= 4 && Lookup(a, "id") == Some(point[0])
    requires point[0] !in SamplePointSettings
    ensures var r := UpdatedPoint(a, point, SamplePointSettings).attrs;
      Lookup(r, "fix") == None && Lookup(r, "adj") == Some("XYZ")
  {
    UpdateDefaultFlags(a, point, SamplePointSettings);
  }
}
