/** `lambda_handler`: validate the request, classify every image in order, and
    answer with the claim summary. */
module Handler {
  import opened Records
  import opened Detection
  import opened Summary

  /** The already-decoded request: `claim_id` and `images` may each be absent
      (an `images` of `null` reads the same as an absent one). */
  datatype Request = Request(claimId: Option<string>, images: Option<seq<string>>)

  /** The response body before JSON encoding. */
  datatype Body = ErrorBody(error: string) | SummaryBody(summary: ClaimSummary)

  datatype Response = Response(statusCode: int, body: Body)

  const DefaultClaimId: string := "UNKNOWN"
  const NoImagesError: string := "No images provided"

  /** `data.get("claim_id", "UNKNOWN")`. */
  function ClaimIdOf(request: Request): (claimId: string)
    ensures request.claimId.None? ==> claimId == "UNKNOWN"
    ensures request.claimId.Some? ==> claimId == request.claimId.value
  {
    match request.claimId
    case None => DefaultClaimId
    case Some(id) => id
  }

  /** `data.get("images", [])`, with `null` read as no images. */
  function ImagesOf(request: Request): (images: seq<string>)
    ensures request.images.None? ==> images == []
    ensures request.images.Some? ==> images == request.images.value
  {
    match request.images
    case None => []
    case Some(images) => images
  }

  /** The record built for one image: `quality` repeats the severity. */
  function ResultFor(imageUrl: string, d: Outcome): (r: ImageResult)
    ensures r.url == imageUrl && r.quality == r.severity
    ensures r.windDamage == d.isDamaged && r.severity == d.severity && r.area == d.area
  {
    ImageResult(imageUrl, d.isDamaged, d.severity, d.area, d.severity)
  }

  /** `results` holds one record per image, in input order, each from that image's detection. */
  predicate ResultsMatch(images: seq<string>, results: seq<ImageResult>,
                         parse: string -> Option<UrlParts>, classify: LabelRequest -> LabelResponse)
  {
    && |results| == |images|
    && forall k :: 0 <= k < |images| ==> results[k] == ResultFor(images[k], Assess(images[k], parse, classify))
  }

  /** `lambda_handler`. Besides the response it returns the per-image records
      (which the source writes to a file). */
  method LambdaHandler(request: Request, parse: string -> Option<UrlParts>,
                       classify: LabelRequest -> LabelResponse, timestamp: string)
    returns (response: Response, results: seq<ImageResult>)
    ensures ImagesOf(request) == []
            ==> response == Response(422, ErrorBody(NoImagesError)) && results == []
    ensures ImagesOf(request) != []
            ==> && ResultsMatch(ImagesOf(request), results, parse, classify)
                && response == Response(200, SummaryBody(
                     ExpectedSummary(ClaimIdOf(request), ImagesOf(request), results, timestamp)))
  {
    var claimId := ClaimIdOf(request);
    var images := ImagesOf(request);
    if images == [] {
      return Response(422, ErrorBody(NoImagesError)), [];
    }
    results := [];
    for i := 0 to |images|
      invariant |results| == i
      invariant forall k :: 0 <= k < i ==> results[k] == ResultFor(images[k], Assess(images[k], parse, classify))
    {
      var imageUrl := images[i];
      var d := DetectWindDamage(imageUrl, parse, classify);
      var result := ImageResult(imageUrl, d.isDamaged, d.severity, d.area, d.severity);
      results := results + [result];
    }
    var summary := GenerateSummary(claimId, images, results, timestamp);
    response := Response(200, SummaryBody(summary));
  }

  /** The two shapes a handler record can take: `(None, 0, None)`, or a detection
      with severity 0..4 in a known area; `quality` always repeats the severity. */
  predicate Shaped(r: ImageResult) {
    && r.quality == r.severity
    && 0 <= r.severity <= 4
    && (|| (r.windDamage == None && r.severity == 0 && r.area == None)
        || (r.windDamage == Some(true) && r.area.Some? && r.area.value in KnownAreas))
  }

  /** Every record carries its image's URL and has one of the two shapes. */
  lemma HandlerRecords(images: seq<string>, results: seq<ImageResult>,
                       parse: string -> Option<UrlParts>, classify: LabelRequest -> LabelResponse)
    requires ResultsMatch(images, results, parse, classify)
    ensures forall k :: 0 <= k < |results| ==> results[k].url == images[k] && Shaped(results[k])
  {
    forall k | 0 <= k < |results| ensures results[k].url == images[k] && Shaped(results[k]) {
      AssessShape(images[k], parse, classify);
    }
  }

  /** A damaged record of the handler's shape is grouped under its own, known area. */
  lemma ShapedDamagedArea(r: ImageResult)
    requires Shaped(r) && Truthy(r.windDamage)
    ensures AreaKey(r) in KnownAreas
  {
    KnownAreasNonEmpty(r.area.value);
  }

  /** A damaged record of either shape has a known, non-empty area, so the summary
      never groups it under "unknown". */
  lemma ShapedDamagedKey(results: seq<ImageResult>, r: ImageResult)
    requires forall k :: 0 <= k < |results| ==> Shaped(results[k])
    requires r in Damaged(results)
    ensures AreaKey(r) in KnownAreas
  {
    DamagedFrom(results, r);
    var k :| 0 <= k < |results| && results[k] == r && Truthy(r.windDamage);
    ShapedDamagedArea(results[k]);
  }

  /** For the handler's records: the counters equal the number of images, the
      overall severity and every area's average lie in [0, 4], every area is roof,
      siding or garage, and the area counts add up to the number of damaged images. */
  lemma HandlerSummary(images: seq<string>, results: seq<ImageResult>,
                       parse: string -> Option<UrlParts>, classify: LabelRequest -> LabelResponse,
                       claimId: string, timestamp: string)
    requires ResultsMatch(images, results, parse, classify)
    ensures var s := ExpectedSummary(claimId, images, results, timestamp);
      && s.sourceImages.total == |images| && s.sourceImages.analyzed == |images|
      && s.sourceImages.clusters == |images| && s.sourceImages.discardedLowQuality == 0
      && 0.0 <= s.overallDamageSeverity <= 4.0
      && (forall i :: 0 <= i < |s.areas| ==> s.areas[i].area in KnownAreas)
      && (forall i :: 0 <= i < |s.areas| ==> 0.0 <= s.areas[i].avgSeverity <= 4.0)
      && CountTotal(s.areas) == |Damaged(results)|
  {
    var s := ExpectedSummary(claimId, images, results, timestamp);
    HandlerRecords(images, results, parse, classify);
    forall r | r in results ensures 0 <= r.severity <= 4 {
      var k :| 0 <= k < |results| && results[k] == r;
      assert Shaped(results[k]);
    }
    OverallBounds(claimId, images, results, timestamp);
    AreasPartitionDamaged(claimId, images, results, timestamp);
    var d := Damaged(results);
    DamagedMembership(results);
    forall i | 0 <= i < |s.areas| ensures 0.0 <= s.areas[i].avgSeverity <= 4.0 {
      AreaSeverityBounds(d, i);
    }
    forall i | 0 <= i < |s.areas| ensures s.areas[i].area in KnownAreas {
      AreaEntry(d, i);
      var p :| 0 <= p < |d| && AreaKey(d[p]) == s.areas[i].area;
      ShapedDamagedKey(results, d[p]);
    }
  }

  /** The single label "Roof Damage" at 95.0 is detected as severity 4 in "roof". */
  lemma RoofDamageLabel()
    ensures FirstMatch([Label("Roof Damage", 95.0)]) == Outcome(Some(true), 4, Some("roof"))
  {
    var labels := [Label("Roof Damage", 95.0)];
    assert "Roof Damage" in LabelToArea && LabelToArea["Roof Damage"] == "roof";
    assert Severity.MapConfidenceToSeverity(95.0) == 4;
    assert FirstMatch(labels) == Matched(labels[0]);
  }

  /** One image whose only label is "Roof Damage" at 95.0 gives severity 4 in area
      "roof", with that image as the area's representative. */
  lemma RoofDamageScenario(imageUrl: string, parse: string -> Option<UrlParts>,
                           classify: LabelRequest -> LabelResponse, claimId: string, timestamp: string)
    requires parse(imageUrl).Some?
    requires classify(RequestFor(parse(imageUrl).value)) == Labels([Label("Roof Damage", 95.0)])
    ensures ResultFor(imageUrl, Assess(imageUrl, parse, classify))
         == ImageResult(imageUrl, Some(true), 4, Some("roof"), 4)
    ensures var s := ExpectedSummary(claimId, [imageUrl], [ImageResult(imageUrl, Some(true), 4, Some("roof"), 4)], timestamp);
      && s.overallDamageSeverity == 4.0
      && s.areas == [AreaSummary("roof", true, "wind", 1, 4.0, [imageUrl], AreaNotes("roof"))]
  {
    RoofDamageLabel();
    assert Assess(imageUrl, parse, classify) == FirstMatch([Label("Roof Damage", 95.0)]);
    SingleDamagedSummary(claimId, imageUrl, 4, "roof", timestamp);
  }
}
