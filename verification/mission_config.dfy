/** Which inhabitant type works which map feature (lib/game/missions/mission-config.ts).
    The display labels and emoji of the configuration are not modelled. */
module MissionConfig {
  import opened Wrappers

  datatype MissionTypeConfig = MissionTypeConfig(feature: string, resource: string)

  /** `MISSION_CONFIG`, in the insertion order `Object.entries` and `Object.keys` follow. */
  const MISSION_CONFIG: seq<(string, MissionTypeConfig)> := [
    ("lumberjack", MissionTypeConfig("foret", "bois")),
    ("miner", MissionTypeConfig("montagne", "pierre"))
  ]

  /** `Object.keys` of a configuration. */
  function Keys(entries: seq<(string, MissionTypeConfig)>): (ks: seq<string>)
    ensures |ks| == |entries|
    ensures forall i :: 0 <= i < |entries| ==> ks[i] == entries[i].0
  {
    if entries == [] then [] else [entries[0].0] + Keys(entries[1..])
  }

  /** `MISSION_CAPABLE_TYPES`. */
  function MissionCapableTypes(): seq<string>
  {
    Keys(MISSION_CONFIG)
  }

  /** The configuration of a key, as `MISSION_CONFIG[key]`. */
  function Lookup(entries: seq<(string, MissionTypeConfig)>, key: string): (r: Option<MissionTypeConfig>)
    ensures r.None? <==> forall i :: 0 <= i < |entries| ==> entries[i].0 != key
    ensures r.Some? ==> exists i :: 0 <= i < |entries| && entries[i] == (key, r.value)
  {
    if entries == [] then None
    else if entries[0].0 == key then Some(entries[0].1)
    else Lookup(entries[1..], key)
  }

  /** `find` over the entries: the key of the first entry whose feature matches. */
  function FindByFeature(entries: seq<(string, MissionTypeConfig)>, feature: string): (r: Option<string>)
    ensures r.None? <==> forall i :: 0 <= i < |entries| ==> entries[i].1.feature != feature
    ensures r.Some? ==> exists i :: 0 <= i < |entries| && entries[i].0 == r.value
                                    && entries[i].1.feature == feature
                                    && forall j :: 0 <= j < i ==> entries[j].1.feature != feature
  {
    if entries == [] then None
    else if entries[0].1.feature == feature then Some(entries[0].0)
    else
      var r := FindByFeature(entries[1..], feature);
      assert forall i :: 1 <= i < |entries| ==> entries[i] == entries[1..][i - 1];
      r
  }

  /** `getInhabitantTypeForFeature`. */
  function GetInhabitantTypeForFeature(feature: string): Option<string>
  {
    FindByFeature(MISSION_CONFIG, feature)
  }

  /** No two entries work the same feature, and no key appears twice. */
  ghost predicate Unambiguous(entries: seq<(string, MissionTypeConfig)>)
  {
    forall i, j :: 0 <= i < j < |entries| ==>
      entries[i].1.feature != entries[j].1.feature && entries[i].0 != entries[j].0
  }

  /** With distinct features, the reverse lookup inverts the forward one. */
  lemma FeatureRoundTrip(entries: seq<(string, MissionTypeConfig)>, key: string)
    requires Unambiguous(entries)
    requires Lookup(entries, key).Some?
    ensures FindByFeature(entries, Lookup(entries, key).value.feature) == Some(key)
  {
    var cfg := Lookup(entries, key).value;
    var r := FindByFeature(entries, cfg.feature);
    var i :| 0 <= i < |entries| && entries[i] == (key, cfg);
    assert r.Some?;
    var j :| 0 <= j < |entries| && entries[j].0 == r.value && entries[j].1.feature == cfg.feature
             && forall k :: 0 <= k < j ==> entries[k].1.feature != cfg.feature;
    assert i == j;
  }

  lemma ConfigIsUnambiguous()
    ensures Unambiguous(MISSION_CONFIG)
  {
  }

  /** The two configured workers, an unconfigured feature, and the key list. */
  lemma ConfiguredFeatures(feature: string)
    ensures GetInhabitantTypeForFeature("foret") == Some("lumberjack")
    ensures GetInhabitantTypeForFeature("montagne") == Some("miner")
    ensures feature != "foret" && feature != "montagne" ==> GetInhabitantTypeForFeature(feature) == None
    ensures MissionCapableTypes() == ["lumberjack", "miner"]
  {
    assert MISSION_CONFIG[1..][1..] == [];
  }

  /** Every mission-capable type has a feature whose reverse lookup gives it back. */
  lemma CapableTypesRoundTrip(key: string)
    requires key in MissionCapableTypes()
    ensures Lookup(MISSION_CONFIG, key).Some?
    ensures GetInhabitantTypeForFeature(Lookup(MISSION_CONFIG, key).value.feature) == Some(key)
  {
    ConfigIsUnambiguous();
    FeatureRoundTrip(MISSION_CONFIG, key);
  }
}
