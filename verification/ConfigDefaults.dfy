/**
 Configuration payloads: JSON values, their recursive merge, and the effective
 configuration of a payload. Objects are maps: the order of their keys is not modelled.
 */
module ConfigDefaults {
  import opened Wrappers

  datatype Json =
    | Null
    | Bool(flag: bool)
    | Number(value: real)
    | Text(text: string)
    | List(items: seq<Json>)
    | Object(fields: map<string, Json>)

  // Overrides win, except that objects are merged with objects at every depth.
  function Merge(base: Json, over: Json): Json
    decreases over
  {
    if base.Object? && over.Object? then
      Object(map k | k in base.fields.Keys + over.fields.Keys ::
               if k !in over.fields then base.fields[k]
               else if k !in base.fields then over.fields[k]
               else Merge(base.fields[k], over.fields[k]))
    else over
  }

  // The merged value of one overridden key.
  function Merged(base: map<string, Json>, over: map<string, Json>, k: string): Json
    requires k in over
  {
    if k in base then Merge(base[k], over[k]) else over[k]
  }

  // The loop over the overrides, on a copy of the base. whole is the object of the overrides.
  method DeepMerge(base: map<string, Json>, over: map<string, Json>, ghost whole: Json) returns (merged: map<string, Json>)
    requires whole == Object(over)
    ensures Object(merged) == Merge(Object(base), Object(over))
    decreases whole, 1
  {
    merged := base;
    var keys := over.Keys;
    ghost var done: set<string> := {};
    while keys != {}
      invariant done <= over.Keys && done !! keys && forall k :: k in over <==> k in done || k in keys
      invariant HalfMerged(base, over, done, merged)
      decreases |keys|
    {
      var key :| key in keys;
      HalfNext(base, over, done, merged, key);
      var value := MergeOne(base, over, merged, key, whole);
      merged := merged[key := value];
      keys, done := keys - {key}, done + {key};
    }
    assert done == over.Keys;
    HalfAll(base, over, merged);
  }

  // The value of one key: merged if both sides are objects, replaced otherwise.
  method MergeOne(base: map<string, Json>, over: map<string, Json>, merged: map<string, Json>, key: string,
                  ghost whole: Json)
    returns (value: Json)
    requires whole == Object(over) && key in over
    requires key in merged <==> key in base
    requires key in merged ==> merged[key] == base[key]
    ensures value == Merged(base, over, key)
    decreases whole, 0
  {
    value := over[key];
    if value.Object? && key in merged && merged[key].Object? {
      var inner := DeepMerge(merged[key].fields, value.fields, value);
      value := Object(inner);
    }
  }

  // The result while the keys in done have been dealt with.
  ghost predicate HalfMerged(base: map<string, Json>, over: map<string, Json>, done: set<string>, m: map<string, Json>)
    requires done <= over.Keys
  {
    && m.Keys == base.Keys + done
    && (forall k | k in done :: m[k] == Merged(base, over, k))
    && (forall k | k in base && k !in done :: m[k] == base[k])
  }

  lemma HalfNext(base: map<string, Json>, over: map<string, Json>, done: set<string>, m: map<string, Json>, key: string)
    requires done <= over.Keys && key in over && key !in done && HalfMerged(base, over, done, m)
    ensures HalfMerged(base, over, done + {key}, m[key := Merged(base, over, key)])
    ensures key in m <==> key in base
    ensures key in m ==> m[key] == base[key]
  {
  }

  lemma HalfAll(base: map<string, Json>, over: map<string, Json>, m: map<string, Json>)
    requires HalfMerged(base, over, over.Keys, m)
    ensures Object(m) == Merge(Object(base), Object(over))
  {
    var r := Merge(Object(base), Object(over)).fields;
    assert r.Keys == m.Keys;
    forall k | k in m ensures r[k] == m[k] {
      if k in over {
        assert m[k] == Merged(base, over, k);
      }
    }
    assert r == m;
  }

  // -------------------------------------------------------------------- merge laws

  lemma {:induction false} MergeLeftIdempotent(d: Json, p: Json)
    ensures Merge(d, Merge(d, p)) == Merge(d, p)
    decreases p
  {
    if d.Object? && p.Object? {
      var m := Merge(d, p);
      var mm := Merge(d, m);
      forall k | k in mm.fields ensures k in m.fields && mm.fields[k] == m.fields[k] {
        if k in d.fields && k in p.fields {
          MergeLeftIdempotent(d.fields[k], p.fields[k]);
        } else if k in d.fields {
          MergeSelf(d.fields[k]);
        }
      }
      assert mm.fields.Keys == m.fields.Keys;
      assert mm.fields == m.fields;
    }
  }

  lemma {:induction false} MergeSelf(d: Json)
    ensures Merge(d, d) == d
    decreases d
  {
    if d.Object? {
      forall k | k in d.fields ensures Merge(d.fields[k], d.fields[k]) == d.fields[k] {
        MergeSelf(d.fields[k]);
      }
      assert Merge(d, d).fields == d.fields;
    }
  }

  lemma {:induction false} MergeRightIdempotent(a: Json, b: Json)
    ensures Merge(Merge(a, b), b) == Merge(a, b)
    decreases b
  {
    if a.Object? && b.Object? {
      var m := Merge(a, b);
      var mm := Merge(m, b);
      forall k | k in mm.fields ensures k in m.fields && mm.fields[k] == m.fields[k] {
        if k in a.fields && k in b.fields {
          MergeRightIdempotent(a.fields[k], b.fields[k]);
        } else if k in b.fields {
          MergeSelf(b.fields[k]);
        }
      }
      assert mm.fields.Keys == m.fields.Keys;
      assert mm.fields == m.fields;
    } else {
      MergeSelf(b);
    }
  }

  // Every key of the base is there already, at every depth at which both have objects.
  predicate Covers(base: Json, over: Json)
    decreases over
  {
    base.Object? && over.Object? ==>
      forall k | k in base.fields :: k in over.fields && Covers(base.fields[k], over.fields[k])
  }

  // Merging fills nothing in exactly when the overrides have every key of the base.
  lemma {:induction false} MergeKeepsExactly(base: Json, over: Json)
    ensures Merge(base, over) == over <==> Covers(base, over)
    decreases over
  {
    if base.Object? && over.Object? {
      var m := Merge(base, over);
      forall k | k in base.fields && k in over.fields
        ensures m.fields[k] == over.fields[k] <==> Covers(base.fields[k], over.fields[k])
      {
        MergeKeepsExactly(base.fields[k], over.fields[k]);
      }
      if Covers(base, over) {
        assert m.fields.Keys == over.fields.Keys;
        assert m.fields == over.fields;
      } else {
        var k :| k in base.fields && !(k in over.fields && Covers(base.fields[k], over.fields[k]));
        assert k in m.fields;
      }
    }
  }

  // An object none of whose values is an object, or no object at all.
  predicate Flat(j: Json) { j.Object? ==> forall k | k in j.fields :: !j.fields[k].Object? }

  // An object has every key of a flat one.
  predicate HasKeysOf(base: Json, over: Json) { base.Object? && over.Object? ==> base.fields.Keys <= over.fields.Keys }

  lemma FlatMergeKeepsExactly(base: Json, over: Json)
    requires Flat(base)
    ensures Merge(base, over) == over <==> HasKeysOf(base, over)
  {
    MergeKeepsExactly(base, over);
  }

  lemma MergeEmpty(d: Json)
    requires d.Object?
    ensures Merge(d, Object(map[])) == d
  {
    assert Merge(d, Object(map[])).fields == d.fields;
  }

  // ------------------------------------------------------------ effective payloads

  const CURRENT_SCHEMA_VERSION := 2

  function Corners(points: seq<(real, real)>): Json {
    List(seq(|points|, i requires 0 <= i < |points| => List([Number(points[i].0), Number(points[i].1)])))
  }

  const V1_DEFAULTS: map<string, Json> := map[
    "roi_polygon" := Corners([(0.0, 0.0), (1.0, 0.0), (1.0, 1.0), (0.0, 1.0)]),
    "gate_line" := Corners([(0.5, 0.0), (0.5, 1.0)]),
    "pre_gate_zone" := Corners([(0.3, 0.0), (0.5, 0.0), (0.5, 1.0), (0.3, 1.0)]),
    "post_gate_zone" := Corners([(0.5, 0.0), (0.7, 0.0), (0.7, 1.0), (0.5, 1.0)]),
    "confidence_threshold" := Number(0.45),
    "mask_iou_threshold" := Number(0.40),
    "merge_area_ratio" := Number(1.50),
    "discrepancy_threshold" := Number(0.08),
    "ring_slots" := Number(8.0),
    "batch_wait_ms" := Number(30.0),
    "max_consecutive_drops" := Number(3.0),
    "warning_light_threshold" := Number(0.90),
    "gpu_sharing_mode" := Text("strict")]

  const V2_ADDITIONS: map<string, Json> := map[
    "merge_signals" := Object(map[
      "area_enabled" := Bool(true), "shape_enabled" := Bool(true), "temporal_enabled" := Bool(true),
      "print_mark_enabled" := Bool(true), "min_votes" := Number(2.0)]),
    "latent_track_grace_frames" := Number(5.0),
    "tracking_cost_weights" := Object(map["mask_iou" := Number(0.7), "centroid_distance" := Number(0.3)]),
    "area_integral" := Object(map["min_confidence" := Number(0.30), "smoothing_window" := Number(10.0)]),
    "latency_p95_pause_threshold_ms" := Number(120.0)]

  const V2_DEFAULTS: map<string, Json> := V1_DEFAULTS + V2_ADDITIONS

  datatype Error = UnknownSchemaVersion(version: int)

  function Defaults(version: int): Result<map<string, Json>, Error> {
    if version <= 1 then Ok(V1_DEFAULTS)
    else if version == 2 then Ok(V2_DEFAULTS)
    else Err(UnknownSchemaVersion(version))
  }

  method GetConfigWithDefaults(payload: Option<map<string, Json>>, version: int := CURRENT_SCHEMA_VERSION)
    returns (r: Result<map<string, Json>, Error>)
    ensures r == Effective(payload, version)
  {
    var base;
    if version <= 1 {
      base := V1_DEFAULTS;
    } else if version == 2 {
      base := V2_DEFAULTS;
    } else {
      return Err(UnknownSchemaVersion(version));
    }
    if payload.None? || payload.value == map[] {
      MergeEmpty(Object(base));
      return Ok(base);
    }
    var merged := DeepMerge(base, payload.value, Object(payload.value));
    return Ok(merged);
  }

  // The payload merged over its version's defaults; no payload counts as an empty one.
  function Effective(payload: Option<map<string, Json>>, version: int): Result<map<string, Json>, Error> {
    var d := Defaults(version);
    if d.Err? then Err(d.error)
    else Ok(Merge(Object(d.value), Object(if payload.Some? then payload.value else map[])).fields)
  }

  // Storing an effective payload and reading it back changes nothing.
  lemma EffectiveIsStable(payload: Option<map<string, Json>>, version: int)
    requires Effective(payload, version).Ok?
    ensures Effective(Some(Effective(payload, version).value), version) == Effective(payload, version)
  {
    var d := Object(Defaults(version).value);
    var p := Object(if payload.Some? then payload.value else map[]);
    MergeLeftIdempotent(d, p);
    assert Merge(d, p) == Object(Effective(payload, version).value);
  }

  // Changing one entry of something already merged over the defaults, and merging again.
  lemma ChangeOne(d: map<string, Json>, before: map<string, Json>, key: string, value: Json)
    requires Merge(Object(d), Object(before)) == Object(before)
    ensures var after := Merge(Object(d), Object(before[key := value])).fields;
            && after.Keys == before.Keys + {key}
            && (forall k | k in before && k != key :: after[k] == before[k])
            && after[key] == if key in d then Merge(d[key], value) else value
  {
    var again := Merge(Object(d), Object(before)).fields;
    var after := Merge(Object(d), Object(before[key := value])).fields;
    assert d.Keys <= before.Keys by {
      forall k | k in d ensures k in before {
        assert k in again;
      }
    }
    assert after.Keys == before.Keys + {key};
    forall k | k in before && k != key ensures after[k] == before[k] {
      assert after[k] == again[k];
    }
  }

  // Changing one setting of an effective payload and storing it as a new version leaves
  // every other effective setting alone; and the changed one reads back as written
  // unless an object default fills it up.
  lemma OneSettingChanges(payload: Option<map<string, Json>>, version: int, key: string, value: Json)
    requires Effective(payload, version).Ok?
    ensures var before := Effective(payload, version).value;
            var after := Effective(Some(before[key := value]), version);
            && after.Ok? && after.value.Keys == before.Keys + {key}
            && (forall k | k in before && k != key :: after.value[k] == before[k])
            && after.value[key] == if key in Defaults(version).value then Merge(Defaults(version).value[key], value)
                                   else value
  {
    var d := Defaults(version).value;
    var p := if payload.Some? then payload.value else map[];
    MergeLeftIdempotent(Object(d), Object(p));
    ChangeOne(d, Merge(Object(d), Object(p)).fields, key, value);
  }

  // The region of interest in particular: stored under the current version, the polygon
  // reads back as drawn and nothing else moves.
  lemma RegionUpdateKeepsTheRest(payload: Option<map<string, Json>>, polygon: Json)
    requires polygon.List?
    ensures var before := Effective(payload, CURRENT_SCHEMA_VERSION).value;
            Effective(Some(before["roi_polygon" := polygon]), CURRENT_SCHEMA_VERSION)
            == Ok(before["roi_polygon" := polygon])
  {
    var before := Effective(payload, CURRENT_SCHEMA_VERSION).value;
    OneSettingChanges(payload, CURRENT_SCHEMA_VERSION, "roi_polygon", polygon);
    assert Effective(Some(before["roi_polygon" := polygon]), CURRENT_SCHEMA_VERSION).value
        == before["roi_polygon" := polygon];
  }

  // A payload merged over one set of defaults, changed in one entry and merged over an
  // extended set: an old entry stays as it is unless it is an object short of a key of an addition.
  lemma Upgrade(d: map<string, Json>, added: map<string, Json>, p: map<string, Json>, key: string, value: Json, k: string)
    requires forall x | x in d :: !d[x].Object? && x !in added
    requires k != key && forall x | x in added :: Flat(added[x])
    ensures var before := Merge(Object(d), Object(p)).fields;
            var after := Merge(Object(d + added), Object(before[key := value])).fields;
            && (k in after <==> k in before || k in added)
            && (k in before ==> (after[k] == before[k] <==> k !in added || HasKeysOf(added[k], before[k])))
            && (k in added && k !in before ==> after[k] == added[k])
  {
    var before := Merge(Object(d), Object(p)).fields;
    if k in added && k in before {
      FlatMergeKeepsExactly(added[k], before[k]);
    }
  }

  lemma V1IsFlat()
    ensures forall k | k in V1_DEFAULTS :: !V1_DEFAULTS[k].Object? && k !in V2_ADDITIONS
  {
  }

  lemma V2AdditionsAreFlat()
    ensures forall k | k in V2_ADDITIONS :: Flat(V2_ADDITIONS[k])
  {
  }

  // The region update stores every payload under the current version, an older one too:
  // what the older defaults know is kept, and the settings of the newer version appear.
  lemma RegionUpdateUpgrades(payload: Option<map<string, Json>>, version: int, polygon: Json, k: string)
    requires version <= 1 && k != "roi_polygon"
    ensures var before := Effective(payload, version).value;
            var after := Effective(Some(before["roi_polygon" := polygon]), CURRENT_SCHEMA_VERSION).value;
            && (k in after <==> k in before || k in V2_ADDITIONS)
            && (k in before ==>
                  (after[k] == before[k] <==> k !in V2_ADDITIONS || HasKeysOf(V2_ADDITIONS[k], before[k])))
            && (k in V2_ADDITIONS && k !in before ==> after[k] == V2_ADDITIONS[k])
  {
    var p := if payload.Some? then payload.value else map[];
    V1IsFlat();
    V2AdditionsAreFlat();
    Upgrade(V1_DEFAULTS, V2_ADDITIONS, p, "roi_polygon", polygon, k);
  }
}
