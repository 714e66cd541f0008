/** `generate_summary`: the claim-level report built from the per-image results. */
module Summary {
  import opened Records

  /** One entry of the report's `areas` list. */
  datatype AreaSummary = AreaSummary(
    area: string,
    damageConfirmed: bool,
    primaryPeril: string,
    count: nat,
    avgSeverity: real,
    representativeImages: seq<string>,
    notes: string)

  /** The report's `source_images` counters. */
  datatype SourceImages = SourceImages(total: nat, analyzed: nat, discardedLowQuality: nat, clusters: nat)

  /** The claim summary returned to the caller. */
  datatype ClaimSummary = ClaimSummary(
    claimId: string,
    sourceImages: SourceImages,
    overallDamageSeverity: real,
    areas: seq<AreaSummary>,
    dataGaps: seq<string>,
    confidence: real,
    generatedAt: string)

  /** The fixed annotations every summary carries. */
  const DataGaps: seq<string> := ["No attic photos"]
  const Confidence: real := 0.87
  const UnknownArea: string := "unknown"
  const Peril: string := "wind"

  /** The results whose `wind_damage` is truthy, in their original order. */
  function Damaged(results: seq<ImageResult>): (damaged: seq<ImageResult>)
    ensures |damaged| <= |results|
  {
    if results == [] then []
    else (if Truthy(results[0].windDamage) then [results[0]] else []) + Damaged(results[1..])
  }

  /** A result is kept exactly when its `wind_damage` is truthy. */
  lemma {:induction false} DamagedMembership(results: seq<ImageResult>)
    ensures forall r :: r in Damaged(results) <==> r in results && Truthy(r.windDamage)
  {
    if results != [] {
      DamagedMembership(results[1..]);
      assert forall r :: r in results <==> r == results[0] || r in results[1..];
    }
  }

  /** A single result is kept, once, exactly when it is truthy. */
  lemma DamagedOne(r: ImageResult)
    ensures Damaged([r]) == if Truthy(r.windDamage) then [r] else []
  {
    assert [r][1..] == [];
  }

  /** The filter distributes over concatenation: it keeps input order and repeats. */
  lemma {:induction false} DamagedAppend(xs: seq<ImageResult>, ys: seq<ImageResult>)
    ensures Damaged(xs + ys) == Damaged(xs) + Damaged(ys)
  {
    if xs == [] {
      assert xs + ys == ys;
    } else {
      var head := if Truthy(xs[0].windDamage) then [xs[0]] else [];
      assert (xs + ys)[0] == xs[0];
      assert (xs + ys)[1..] == xs[1..] + ys;
      DamagedAppend(xs[1..], ys);
      calc {
        Damaged(xs + ys);
        head + Damaged(xs[1..] + ys);
        head + (Damaged(xs[1..]) + Damaged(ys));
        (head + Damaged(xs[1..])) + Damaged(ys);
      }
    }
  }

  /** Sum of the severities. */
  function SeveritySum(items: seq<ImageResult>): int {
    if items == [] then 0 else items[0].severity + SeveritySum(items[1..])
  }

  /** The plain mean severity, 0.0 for no items; rounding to one decimal is not modelled. */
  function MeanSeverity(items: seq<ImageResult>): (mean: real)
    ensures items == [] ==> mean == 0.0
    ensures items != [] ==> mean * (|items| as real) == SeveritySum(items) as real
  {
    if items == [] then 0.0 else (SeveritySum(items) as real) / (|items| as real)
  }

  /** `img["area"] or "unknown"`: a missing or empty area is grouped as "unknown". */
  function AreaKey(r: ImageResult): (key: string)
    ensures key != []
    ensures r.area.Some? && r.area.value != [] ==> key == r.area.value
    ensures r.area.None? || r.area.value == [] ==> key == "unknown"
  {
    if r.area.None? || r.area.value == [] then UnknownArea else r.area.value
  }

  /** The distinct area keys of `items`, in order of first occurrence. */
  function AreaKeys(items: seq<ImageResult>): seq<string> {
    if items == [] then []
    else
      var keys := AreaKeys(items[..|items| - 1]);
      var k := AreaKey(items[|items| - 1]);
      if k in keys then keys else keys + [k]
  }

  /** The items grouped under area key `key`, in order. */
  function Members(items: seq<ImageResult>, key: string): seq<ImageResult> {
    if items == [] then []
    else
      var last := items[|items| - 1];
      Members(items[..|items| - 1], key) + (if AreaKey(last) == key then [last] else [])
  }

  /** Grouping distributes over concatenation: a group keeps input order and repeats. */
  lemma {:induction false} MembersAppend(xs: seq<ImageResult>, ys: seq<ImageResult>, key: string)
    ensures Members(xs + ys, key) == Members(xs, key) + Members(ys, key)
  {
    if ys == [] {
      assert xs + ys == xs;
    } else {
      var init := ys[..|ys| - 1];
      var last := ys[|ys| - 1];
      assert (xs + ys)[..|xs + ys| - 1] == xs + init;
      assert (xs + ys)[|xs + ys| - 1] == last;
      MembersAppend(xs, init, key);
    }
  }

  /** A key is listed exactly when some item carries it. */
  lemma {:induction false} AreaKeysMembership(items: seq<ImageResult>)
    ensures forall k :: k in AreaKeys(items) <==> exists r :: r in items && AreaKey(r) == k
  {
    if items != [] {
      var init := items[..|items| - 1];
      AreaKeysMembership(init);
      assert items == init + [items[|items| - 1]];
      assert forall r :: r in items <==> r in init || r == items[|items| - 1];
    }
  }

  /** There are no more keys than items. */
  lemma {:induction false} AreaKeysLength(items: seq<ImageResult>)
    ensures |AreaKeys(items)| <= |items|
  {
    if items != [] {
      AreaKeysLength(items[..|items| - 1]);
    }
  }

  /** No key is listed twice. */
  lemma {:induction false} AreaKeysDistinct(items: seq<ImageResult>)
    ensures forall i, j :: 0 <= i < j < |AreaKeys(items)| ==> AreaKeys(items)[i] != AreaKeys(items)[j]
  {
    if items != [] {
      AreaKeysDistinct(items[..|items| - 1]);
    }
  }

  /** A group holds exactly the items that carry its key. */
  lemma {:induction false} MembersMembership(items: seq<ImageResult>, key: string)
    ensures forall r :: r in Members(items, key) <==> r in items && AreaKey(r) == key
  {
    if items != [] {
      var init := items[..|items| - 1];
      MembersMembership(init, key);
      assert items == init + [items[|items| - 1]];
      assert forall r :: r in items <==> r in init || r == items[|items| - 1];
    }
  }

  /** A key that is not listed has an empty group. */
  lemma {:induction false} UnlistedKeyHasNoMembers(items: seq<ImageResult>, key: string)
    requires key !in AreaKeys(items)
    ensures Members(items, key) == []
  {
    if items != [] {
      UnlistedKeyHasNoMembers(items[..|items| - 1], key);
    }
  }

  /** Every listed key has a non-empty group. */
  lemma KeysHaveMembers(items: seq<ImageResult>)
    ensures forall k :: k in AreaKeys(items) ==> Members(items, k) != []
  {
    AreaKeysMembership(items);
    forall k | k in AreaKeys(items) ensures Members(items, k) != [] {
      var r :| r in items && AreaKey(r) == k;
      MembersMembership(items, k);
      assert r in Members(items, k);
    }
  }

  /** The `notes` text of an area entry. */
  function AreaNotes(area: string): (notes: string)
    ensures |notes| == |area| + 25 && notes[19..19 + |area|] == area
    ensures notes[..19] == "Damage detected in " && notes[19 + |area|..] == " area."
  {
    "Damage detected in " + area + " area."
  }

  /** The report entry for one area and its (non-empty) group of results. */
  function AreaSummaryOf(key: string, members: seq<ImageResult>): (entry: AreaSummary)
    requires members != []
    ensures entry.area == key && entry.count == |members| >= 1
    ensures entry.representativeImages == [members[0].url]
    ensures entry.avgSeverity * (|members| as real) == SeveritySum(members) as real
    ensures entry.damageConfirmed && entry.primaryPeril == "wind"
    ensures entry.notes == AreaNotes(key)
  {
    AreaSummary(key, true, Peril, |members|, MeanSeverity(members), [members[0].url], AreaNotes(key))
  }

  /** The report entries for the given keys, in the order of `keys`. */
  function SummariesFor(damaged: seq<ImageResult>, keys: seq<string>): (areas: seq<AreaSummary>)
    requires forall k :: k in keys ==> Members(damaged, k) != []
    ensures |areas| == |keys|
  {
    seq(|keys|, i requires 0 <= i < |keys| =>
      assert keys[i] in keys;
      AreaSummaryOf(keys[i], Members(damaged, keys[i])))
  }

  /** One report entry per area key, in first-occurrence order. */
  function AreasOf(damaged: seq<ImageResult>): seq<AreaSummary> {
    KeysHaveMembers(damaged);
    SummariesFor(damaged, AreaKeys(damaged))
  }

  /** The summary `generate_summary` returns; `timestamp` is the ISO time of the call. */
  function ExpectedSummary(claimId: string, allImages: seq<string>, results: seq<ImageResult>,
                           timestamp: string): (summary: ClaimSummary)
    ensures |summary.areas| <= |Damaged(results)| <= |results|
  {
    var damaged := Damaged(results);
    AreaKeysLength(damaged);
    ClaimSummary(
      claimId,
      SourceImages(|allImages|, |allImages|, 0, |allImages|),
      MeanSeverity(damaged),
      AreasOf(damaged),
      DataGaps,
      Confidence,
      timestamp + "Z")
  }

  /** `order` and `byArea` hold the groups of `items` the way `by_area` does:
      its keys in insertion order, each with its group. */
  ghost predicate Grouped(items: seq<ImageResult>, order: seq<string>, byArea: map<string, seq<ImageResult>>) {
    && order == AreaKeys(items)
    && (forall k :: k in byArea <==> k in order)
    && (forall k :: k in byArea ==> byArea[k] == Members(items, k))
  }

  /** Grouping one more result: its key is appended to the order if new, and the
      result is appended to its own group only. */
  lemma GroupedStep(items: seq<ImageResult>, x: ImageResult,
                    order: seq<string>, byArea: map<string, seq<ImageResult>>)
    requires Grouped(items, order, byArea)
    ensures var k := AreaKey(x);
      Grouped(items + [x],
              if k in byArea then order else order + [k],
              byArea[k := (if k in byArea then byArea[k] else []) + [x]])
  {
    var k := AreaKey(x);
    var items' := items + [x];
    assert items'[..|items'| - 1] == items;
    assert items'[|items'| - 1] == x;
    var order' := if k in byArea then order else order + [k];
    var byArea' := byArea[k := (if k in byArea then byArea[k] else []) + [x]];
    assert AreaKeys(items') == order';
    forall k' | k' in byArea'
      ensures byArea'[k'] == Members(items', k')
    {
      assert Members(items', k') == Members(items, k') + (if k == k' then [x] else []);
      if k' != k {
        assert k' in byArea;
      } else if k !in byArea {
        UnlistedKeyHasNoMembers(items, k);
      }
    }
  }

  /** `GroupedStep` for the next position of `items`. */
  lemma GroupedNext(items: seq<ImageResult>, i: nat, order: seq<string>, byArea: map<string, seq<ImageResult>>)
    requires i < |items| && Grouped(items[..i], order, byArea)
    ensures var k := AreaKey(items[i]);
      Grouped(items[..i + 1],
              if k in byArea then order else order + [k],
              byArea[k := (if k in byArea then byArea[k] else []) + [items[i]]])
  {
    assert items[..i + 1] == items[..i] + [items[i]];
    GroupedStep(items[..i], items[i], order, byArea);
  }

  /** The loop over `by_area.items()`: one report entry per key, in insertion order. */
  method AreaEntries(damaged: seq<ImageResult>, order: seq<string>, byArea: map<string, seq<ImageResult>>)
    returns (areas: seq<AreaSummary>)
    requires Grouped(damaged, order, byArea)
    ensures areas == AreasOf(damaged)
  {
    KeysHaveMembers(damaged);
    areas := [];
    var j := 0;
    while j < |order|
      invariant 0 <= j <= |order|
      invariant |areas| == j
      invariant forall t :: 0 <= t < j ==> areas[t] == SummariesFor(damaged, order)[t]
    {
      var area := order[j];
      assert area in order;
      areas := areas + [AreaSummaryOf(area, byArea[area])];
      j := j + 1;
    }
  }

  /** `generate_summary`: the dictionary of groups is filled in place, then read in
      insertion order (`order` keeps the order of the keys). */
  method GenerateSummary(claimId: string, allImages: seq<string>, results: seq<ImageResult>,
                         timestamp: string)
    returns (summary: ClaimSummary)
    ensures summary == ExpectedSummary(claimId, allImages, results, timestamp)
  {
    var damagedImages := Damaged(results);
    var avgSeverity := if damagedImages != [] then MeanSeverity(damagedImages) else 0.0;
    var areas: seq<AreaSummary> := [];
    if damagedImages != [] {
      var order: seq<string> := [];
      var byArea: map<string, seq<ImageResult>> := map[];
      var i := 0;
      while i < |damagedImages|
        invariant 0 <= i <= |damagedImages|
        invariant Grouped(damagedImages[..i], order, byArea)
      {
        var img := damagedImages[i];
        var area := AreaKey(img);
        GroupedNext(damagedImages, i, order, byArea);
        var group: seq<ImageResult> := [];
        if area in byArea {
          group := byArea[area];
        } else {
          order := order + [area];
        }
        byArea := byArea[area := group + [img]];
        i := i + 1;
      }
      assert damagedImages[..i] == damagedImages;
      areas := AreaEntries(damagedImages, order, byArea);
    }
    summary := ClaimSummary(
      claimId,
      SourceImages(|allImages|, |allImages|, 0, |allImages|),
      avgSeverity,
      areas,
      DataGaps,
      Confidence,
      timestamp + "Z");
  }

  /** The counters are fixed to the number of input images; nothing counts as discarded. */
  lemma SummaryCounts(claimId: string, allImages: seq<string>, results: seq<ImageResult>, timestamp: string)
    ensures var s := ExpectedSummary(claimId, allImages, results, timestamp);
      && s.claimId == claimId
      && s.sourceImages.total == |allImages|
      && s.sourceImages.analyzed == |allImages|
      && s.sourceImages.clusters == |allImages|
      && s.sourceImages.discardedLowQuality == 0
      && s.dataGaps == ["No attic photos"]
      && s.confidence == 0.87
      && s.generatedAt == timestamp + "Z"
  {
  }

  /** A kept result comes from the input and is damaged. */
  lemma DamagedFrom(results: seq<ImageResult>, r: ImageResult)
    requires r in Damaged(results)
    ensures exists k :: 0 <= k < |results| && results[k] == r && Truthy(r.windDamage)
  {
    DamagedMembership(results);
  }

  /** Severities within 0..4 sum to at most four per item. */
  lemma {:induction false} SeveritySumBounds(items: seq<ImageResult>)
    requires forall r :: r in items ==> 0 <= r.severity <= 4
    ensures 0 <= SeveritySum(items) <= 4 * |items|
  {
    if items != [] {
      assert items[0] in items;
      assert forall r :: r in items[1..] ==> r in items;
      SeveritySumBounds(items[1..]);
    }
  }

  /** The sum of a concatenation is the sum of the parts. */
  lemma {:induction false} SeveritySumAppend(xs: seq<ImageResult>, ys: seq<ImageResult>)
    ensures SeveritySum(xs + ys) == SeveritySum(xs) + SeveritySum(ys)
  {
    if xs == [] {
      assert xs + ys == ys;
    } else {
      assert (xs + ys)[0] == xs[0];
      assert (xs + ys)[1..] == xs[1..] + ys;
      SeveritySumAppend(xs[1..], ys);
    }
  }

  /** The mean of severities within 0..4 lies in [0, 4]. */
  lemma MeanSeverityBounds(items: seq<ImageResult>)
    requires forall r :: r in items ==> 0 <= r.severity <= 4
    ensures 0.0 <= MeanSeverity(items) <= 4.0
  {
    if items != [] {
      SeveritySumBounds(items);
      QuotientBounds(SeveritySum(items) as real, |items| as real, 4.0);
    }
  }

  /** A quotient of a value in [0, b * n] by a positive n lies in [0, b]. */
  lemma QuotientBounds(a: real, n: real, b: real)
    requires n > 0.0 && 0.0 <= a <= b * n
    ensures 0.0 <= a / n <= b
  {
    var q := a / n;
    assert q * n == a;
    if q > b {
      assert q * n > b * n;
    }
  }

  /** For severities in 0..4, every area's average severity lies in [0, 4]. */
  lemma AreaSeverityBounds(damaged: seq<ImageResult>, i: nat)
    requires forall r :: r in damaged ==> 0 <= r.severity <= 4
    requires i < |AreasOf(damaged)|
    ensures 0.0 <= AreasOf(damaged)[i].avgSeverity <= 4.0
  {
    var e := AreasOf(damaged)[i];
    AreaEntry(damaged, i);
    MembersMembership(damaged, e.area);
    MeanSeverityBounds(Members(damaged, e.area));
  }

  /** Nothing is damaged exactly when no result has a truthy `wind_damage`. */
  lemma DamagedEmpty(results: seq<ImageResult>)
    ensures Damaged(results) == [] <==> forall r :: r in results ==> !Truthy(r.windDamage)
  {
    DamagedMembership(results);
    if Damaged(results) != [] {
      assert Damaged(results)[0] in Damaged(results);
    }
  }

  /** There is an area entry exactly when some result is damaged. */
  lemma AreasEmpty(damaged: seq<ImageResult>)
    ensures AreasOf(damaged) == [] <==> damaged == []
  {
    if damaged != [] {
      AreaKeysMembership(damaged);
      assert damaged[0] in damaged;
      assert AreaKey(damaged[0]) in AreaKeys(damaged);
    }
  }

  /** With no truthy `wind_damage`, the overall severity is 0.0 and there are no areas. */
  lemma NoDamageSummary(claimId: string, allImages: seq<string>, results: seq<ImageResult>, timestamp: string)
    requires forall r :: r in results ==> !Truthy(r.windDamage)
    ensures ExpectedSummary(claimId, allImages, results, timestamp).overallDamageSeverity == 0.0
    ensures ExpectedSummary(claimId, allImages, results, timestamp).areas == []
  {
    DamagedEmpty(results);
  }

  /** With some damaged result, the overall severity is the plain mean of the damaged
      results' severities, and there is at least one area. */
  lemma OverallIsMean(claimId: string, allImages: seq<string>, results: seq<ImageResult>, timestamp: string)
    requires exists r :: r in results && Truthy(r.windDamage)
    ensures var d := Damaged(results);
      && d != []
      && ExpectedSummary(claimId, allImages, results, timestamp).overallDamageSeverity
         == (SeveritySum(d) as real) / (|d| as real)
      && ExpectedSummary(claimId, allImages, results, timestamp).areas != []
  {
    DamagedEmpty(results);
    AreasEmpty(Damaged(results));
  }

  /** For severities in 0..4, the overall severity lies in [0, 4]. */
  lemma OverallBounds(claimId: string, allImages: seq<string>, results: seq<ImageResult>, timestamp: string)
    requires forall r :: r in results ==> 0 <= r.severity <= 4
    ensures 0.0 <= ExpectedSummary(claimId, allImages, results, timestamp).overallDamageSeverity <= 4.0
  {
    DamagedMembership(results);
    MeanSeverityBounds(Damaged(results));
  }

  /** Total size of the groups of `keys`. */
  function GroupSizes(items: seq<ImageResult>, keys: seq<string>): nat {
    if keys == [] then 0 else |Members(items, keys[0])| + GroupSizes(items, keys[1..])
  }

  /** The sum of the `count` fields of a list of report entries. */
  function CountTotal(areas: seq<AreaSummary>): nat {
    if areas == [] then 0 else areas[0].count + CountTotal(areas[1..])
  }

  lemma {:induction false} GroupSizesAppendKey(items: seq<ImageResult>, keys: seq<string>, k: string)
    ensures GroupSizes(items, keys + [k]) == GroupSizes(items, keys) + |Members(items, k)|
  {
    if keys != [] {
      assert (keys + [k])[1..] == keys[1..] + [k];
      GroupSizesAppendKey(items, keys[1..], k);
    }
  }

  lemma {:induction false} GroupSizesAppendItem(items: seq<ImageResult>, x: ImageResult, keys: seq<string>)
    requires forall i, j :: 0 <= i < j < |keys| ==> keys[i] != keys[j]
    ensures GroupSizes(items + [x], keys) == GroupSizes(items, keys) + if AreaKey(x) in keys then 1 else 0
  {
    if keys != [] {
      assert (items + [x])[..|items|] == items;
      assert forall i, j :: 0 <= i < j < |keys[1..]| ==> keys[1..][i] != keys[1..][j] by {
        forall i, j | 0 <= i < j < |keys[1..]| ensures keys[1..][i] != keys[1..][j] {
          assert keys[1..][i] == keys[i + 1] && keys[1..][j] == keys[j + 1];
        }
      }
      GroupSizesAppendItem(items, x, keys[1..]);
      if AreaKey(x) == keys[0] {
        assert AreaKey(x) !in keys[1..] by {
          forall j | 0 <= j < |keys[1..]| ensures keys[1..][j] != keys[0] {
            assert keys[1..][j] == keys[j + 1];
          }
        }
      }
      assert AreaKey(x) in keys <==> AreaKey(x) == keys[0] || AreaKey(x) in keys[1..];
    }
  }

  /** The groups partition the items: their sizes add up to the number of items. */
  lemma {:induction false} GroupsPartition(items: seq<ImageResult>)
    ensures GroupSizes(items, AreaKeys(items)) == |items|
  {
    if items != [] {
      var init := items[..|items| - 1];
      var x := items[|items| - 1];
      assert items == init + [x];
      var keys := AreaKeys(init);
      var k := AreaKey(x);
      GroupsPartition(init);
      AreaKeysDistinct(init);
      GroupSizesAppendItem(init, x, keys);
      if k !in keys {
        GroupSizesAppendKey(items, keys, k);
        UnlistedKeyHasNoMembers(init, k);
        assert Members(items, k) == Members(init, k) + [x];
      }
    }
  }

  lemma {:induction false} CountTotalOfSummaries(damaged: seq<ImageResult>, keys: seq<string>)
    requires forall k :: k in keys ==> Members(damaged, k) != []
    ensures CountTotal(SummariesFor(damaged, keys)) == GroupSizes(damaged, keys)
  {
    if keys != [] {
      assert SummariesFor(damaged, keys)[1..] == SummariesFor(damaged, keys[1..]);
      CountTotalOfSummaries(damaged, keys[1..]);
    }
  }

  /** The area entries partition the damaged results: their counts add up to the
      number of damaged results. */
  lemma AreasPartitionDamaged(claimId: string, allImages: seq<string>, results: seq<ImageResult>, timestamp: string)
    ensures CountTotal(ExpectedSummary(claimId, allImages, results, timestamp).areas) == |Damaged(results)|
  {
    var d := Damaged(results);
    KeysHaveMembers(d);
    CountTotalOfSummaries(d, AreaKeys(d));
    GroupsPartition(d);
  }

  /** Each damaged result falls under exactly one area entry, named by its area key. */
  lemma AreasCoverDamaged(claimId: string, allImages: seq<string>, results: seq<ImageResult>,
                          timestamp: string, r: ImageResult)
    requires r in results && Truthy(r.windDamage)
    ensures var areas := ExpectedSummary(claimId, allImages, results, timestamp).areas;
      && (exists i :: 0 <= i < |areas| && areas[i].area == AreaKey(r))
      && (forall i, j :: 0 <= i < |areas| && 0 <= j < |areas| && areas[i].area == AreaKey(r)
            && areas[j].area == AreaKey(r)
            ==> i == j)
  {
    var d := Damaged(results);
    var keys := AreaKeys(d);
    DamagedMembership(results);
    AreaKeysMembership(d);
    AreaKeysDistinct(d);
    assert AreaKey(r) in keys;
    var i :| 0 <= i < |keys| && keys[i] == AreaKey(r);
    var areas := ExpectedSummary(claimId, allImages, results, timestamp).areas;
    assert areas[i].area == keys[i];
  }

  /** The first item carrying a key heads that key's group. */
  lemma {:induction false} MembersFirst(items: seq<ImageResult>, p: nat)
    requires p < |items|
    requires forall j :: 0 <= j < p ==> AreaKey(items[j]) != AreaKey(items[p])
    ensures Members(items, AreaKey(items[p])) != []
    ensures Members(items, AreaKey(items[p]))[0] == items[p]
  {
    var k := AreaKey(items[p]);
    var init := items[..|items| - 1];
    if p == |items| - 1 {
      AreaKeysMembership(init);
      assert k !in AreaKeys(init) by {
        forall r | r in init ensures AreaKey(r) != k {
          var j :| 0 <= j < |init| && init[j] == r;
          assert items[j] == r;
        }
      }
      UnlistedKeyHasNoMembers(init, k);
    } else {
      MembersFirst(init, p);
    }
  }

  /** Every area entry names a key carried by a damaged result, counts that key's
      damaged results, averages their severities, and shows the URL of the first of them. */
  lemma AreaEntry(damaged: seq<ImageResult>, i: nat)
    requires i < |AreasOf(damaged)|
    ensures var e := AreasOf(damaged)[i];
      && (exists p :: 0 <= p < |damaged| && AreaKey(damaged[p]) == e.area
            && (forall j :: 0 <= j < p ==> AreaKey(damaged[j]) != e.area)
            && e.representativeImages == [damaged[p].url])
      && e.count == |Members(damaged, e.area)| && e.count >= 1
      && e.avgSeverity == MeanSeverity(Members(damaged, e.area))
      && e.damageConfirmed && e.primaryPeril == "wind"
      && e.notes == AreaNotes(e.area)
  {
    var keys := AreaKeys(damaged);
    KeysHaveMembers(damaged);
    assert keys[i] in keys;
    var e := AreasOf(damaged)[i];
    assert e == AreaSummaryOf(keys[i], Members(damaged, keys[i]));
    AreaKeysMembership(damaged);
    var r :| r in damaged && AreaKey(r) == keys[i];
    var q :| 0 <= q < |damaged| && damaged[q] == r;
    var p := FirstWithKey(damaged, keys[i], q);
    MembersFirst(damaged, p);
  }

  /** The keys of a prefix come first, in the same order. */
  lemma {:induction false} AreaKeysPrefix(items: seq<ImageResult>, n: nat)
    requires n <= |items|
    ensures AreaKeys(items[..n]) <= AreaKeys(items)
    decreases |items|
  {
    if n < |items| {
      var init := items[..|items| - 1];
      assert init[..n] == items[..n];
      AreaKeysPrefix(init, n);
    } else {
      assert items[..n] == items;
    }
  }

  /** Areas appear in the order in which their first damaged result appears. */
  lemma AreasInFirstOccurrenceOrder(damaged: seq<ImageResult>, p: nat, q: nat)
    requires p < q < |damaged|
    requires forall j :: 0 <= j < p ==> AreaKey(damaged[j]) != AreaKey(damaged[p])
    requires forall j :: 0 <= j < q ==> AreaKey(damaged[j]) != AreaKey(damaged[q])
    ensures exists i, j ::
      && 0 <= i < j < |AreasOf(damaged)|
      && AreasOf(damaged)[i].area == AreaKey(damaged[p])
      && AreasOf(damaged)[j].area == AreaKey(damaged[q])
  {
    var before := damaged[..q];
    var kq := AreaKey(damaged[q]);
    AreaKeysMembership(before);
    assert kq !in AreaKeys(before) by {
      forall r | r in before ensures AreaKey(r) != kq {
        var j :| 0 <= j < |before| && before[j] == r;
        assert damaged[j] == r;
      }
    }
    assert damaged[..q + 1] == before + [damaged[q]];
    assert damaged[..q + 1][..q] == before;
    var upto := AreaKeys(damaged[..q + 1]);
    assert upto == AreaKeys(before) + [kq];
    assert before[p] == damaged[p];
    assert AreaKey(damaged[p]) in AreaKeys(before);
    var i :| 0 <= i < |AreaKeys(before)| && AreaKeys(before)[i] == AreaKey(damaged[p]);
    var j := |AreaKeys(before)|;
    AreaKeysPrefix(damaged, q + 1);
    var keys := AreaKeys(damaged);
    assert keys[i] == AreaKey(damaged[p]) && keys[j] == kq;
    KeysHaveMembers(damaged);
    assert keys[i] in keys && keys[j] in keys;
    assert AreasOf(damaged)[i].area == keys[i];
    assert AreasOf(damaged)[j].area == keys[j];
  }

  /** The first position in `items` whose key is `key`, given one at or before `q`. */
  function FirstWithKey(items: seq<ImageResult>, key: string, q: nat): (p: nat)
    requires q < |items| && AreaKey(items[q]) == key
    ensures p <= q && AreaKey(items[p]) == key
    ensures forall j :: 0 <= j < p ==> AreaKey(items[j]) != key
    decreases q
  {
    if q == 0 then 0
    else if exists j :: 0 <= j < q && AreaKey(items[j]) == key then
      var j :| 0 <= j < q && AreaKey(items[j]) == key;
      FirstWithKey(items, key, j)
    else q
  }

  /** A single damaged result gives its own severity overall and one area entry. */
  lemma SingleDamagedSummary(claimId: string, url: string, severity: int, area: string, timestamp: string)
    requires area != []
    ensures var r := ImageResult(url, Some(true), severity, Some(area), severity);
      var s := ExpectedSummary(claimId, [url], [r], timestamp);
      && s.overallDamageSeverity == severity as real
      && s.areas == [AreaSummary(area, true, Peril, 1, severity as real, [url], AreaNotes(area))]
  {
    var r := ImageResult(url, Some(true), severity, Some(area), severity);
    assert Damaged([r]) == [r] by {
      assert [r][1..] == [];
    }
    assert AreaKeys([r]) == [area] by {
      assert [r][..0] == [];
    }
    assert Members([r], area) == [r] by {
      assert [r][..0] == [];
    }
    assert SeveritySum([r]) == severity by {
      assert [r][1..] == [];
    }
    assert MeanSeverity([r]) == severity as real;
    KeysHaveMembers([r]);
    assert AreasOf([r]) == [AreaSummaryOf(area, [r])];
  }
}
