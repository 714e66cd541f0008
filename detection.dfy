/** `detect_wind_damage`: split the image URL into a bucket and a key, ask the
    label-detection service for labels, and let the first label found in the
    fixed label table decide the area and the severity. */
module Detection {
  import opened Records
  import Severity

  /** `LABEL_TO_AREA`: the recognised label names and the area each stands for. */
  const LabelToArea: map<string, string> := map[
    "Roof Damage" := "roof",
    "Shingle Damage" := "roof",
    "Wind Damage" := "siding",
    "Siding Damage" := "siding",
    "Garage Damage" := "garage",
    "Door Damage" := "garage"]

  /** The areas the table can produce. */
  const KnownAreas: set<string> := {"roof", "siding", "garage"}

  /** No known area is the empty string. */
  lemma KnownAreasNonEmpty(area: string)
    requires area in KnownAreas
    ensures area != []
  {
  }

  /** The table's entries, one by one; its values are exactly the known areas. */
  lemma LabelTable()
    ensures LabelToArea.Keys == {"Roof Damage", "Shingle Damage", "Wind Damage",
                                 "Siding Damage", "Garage Damage", "Door Damage"}
    ensures LabelToArea["Roof Damage"] == "roof" && LabelToArea["Shingle Damage"] == "roof"
    ensures LabelToArea["Wind Damage"] == "siding" && LabelToArea["Siding Damage"] == "siding"
    ensures LabelToArea["Garage Damage"] == "garage" && LabelToArea["Door Damage"] == "garage"
    ensures LabelToArea.Values == KnownAreas
  {
  }

  /** The limits sent with every label request. */
  const MaxLabels: nat := 50
  const MinConfidence: real := 30.0

  /** The two components of a parsed URL that the handler uses. */
  datatype UrlParts = UrlParts(netloc: string, path: string)

  /** What the label-detection service is asked: an object in a bucket, and the limits. */
  datatype LabelRequest = LabelRequest(bucket: string, key: string, maxLabels: nat, minConfidence: real)

  /** The service's answer, in the order it returns the labels, or a raised error. */
  datatype LabelResponse = Labels(labels: seq<Label>) | Failure

  /** The triple `(is_damaged, severity, area)` returned for one image. */
  datatype Outcome = Outcome(isDamaged: Option<bool>, severity: int, area: Option<string>)

  /** `(None, 0, None)`: nothing recognised, or the classification failed. */
  const NoDetection: Outcome := Outcome(None, 0, None)

  /** `netloc.split('.')[0]`: the longest prefix of the host without a dot. */
  function BucketName(netloc: string): (bucket: string)
    ensures '.' !in bucket
    ensures bucket <= netloc
    ensures |bucket| == |netloc| || netloc[|bucket|] == '.'
  {
    if netloc == [] || netloc[0] == '.' then []
    else [netloc[0]] + BucketName(netloc[1..])
  }

  /** `path.lstrip('/')`: the path with every leading slash removed. */
  function ObjectKey(path: string): (key: string)
    ensures |key| <= |path| && key == path[|path| - |key|..]
    ensures forall i :: 0 <= i < |path| - |key| ==> path[i] == '/'
    ensures key == [] || key[0] != '/'
  {
    if path != [] && path[0] == '/' then ObjectKey(path[1..]) else path
  }

  /** The request sent for a parsed image URL. */
  function RequestFor(parts: UrlParts): (request: LabelRequest)
    ensures request.maxLabels == 50 && request.minConfidence == 30.0
    ensures '.' !in request.bucket && request.bucket <= parts.netloc
    ensures request.key == [] || request.key[0] != '/'
  {
    LabelRequest(BucketName(parts.netloc), ObjectKey(parts.path), MaxLabels, MinConfidence)
  }

  /** The detection a recognised label gives. */
  function Matched(found: Label): (d: Outcome)
    requires found.name in LabelToArea
    ensures d.isDamaged == Some(true) && 0 <= d.severity <= 4
    ensures d.area.Some? && d.area.value in KnownAreas
  {
    Outcome(Some(true), Severity.MapConfidenceToSeverity(found.confidence), Some(LabelToArea[found.name]))
  }

  /** Reference definition of the label scan: the first recognised label decides. */
  function FirstMatch(labels: seq<Label>): (d: Outcome)
    ensures d == NoDetection
         || exists i :: 0 <= i < |labels| && labels[i].name in LabelToArea && d == Matched(labels[i])
  {
    if labels == [] then NoDetection
    else if labels[0].name in LabelToArea then Matched(labels[0])
    else FirstMatch(labels[1..])
  }

  /** What `detect_wind_damage` returns for an image URL, given the URL parser and
      the label-detection service; either of them failing gives `NoDetection`. */
  function Assess(imageUrl: string, parse: string -> Option<UrlParts>,
                  classify: LabelRequest -> LabelResponse): (d: Outcome)
    ensures d.isDamaged.Some? ==> parse(imageUrl).Some? && classify(RequestFor(parse(imageUrl).value)).Labels?
  {
    match parse(imageUrl)
    case None => NoDetection
    case Some(parts) =>
      match classify(RequestFor(parts))
      case Failure => NoDetection
      case Labels(labels) => FirstMatch(labels)
  }

  /** `detect_wind_damage`, with the labels scanned by a loop that returns early. */
  method DetectWindDamage(imageUrl: string, parse: string -> Option<UrlParts>,
                          classify: LabelRequest -> LabelResponse)
    returns (d: Outcome)
    ensures d == Assess(imageUrl, parse, classify)
  {
    var parsed := parse(imageUrl);
    if parsed.None? {
      return NoDetection;
    }
    var bucketName := BucketName(parsed.value.netloc);
    var imageKey := ObjectKey(parsed.value.path);
    var response := classify(LabelRequest(bucketName, imageKey, MaxLabels, MinConfidence));
    if response.Failure? {
      return NoDetection;
    }
    var labels := response.labels;
    var i := 0;
    while i < |labels|
      invariant 0 <= i <= |labels|
      invariant FirstMatch(labels[i..]) == FirstMatch(labels)
    {
      var name := labels[i].name;
      var confidence := labels[i].confidence;
      if name in LabelToArea {
        var severity := Severity.MapConfidenceToSeverity(confidence);
        var area := LabelToArea[name];
        return Outcome(Some(true), severity, Some(area));
      }
      assert labels[i..][1..] == labels[i + 1..];
      i := i + 1;
    }
    return NoDetection;
  }

  /** The first recognised label, in service order, decides; the ones before it are skipped. */
  lemma {:induction false} FirstMatchIsFirstRecognised(labels: seq<Label>, i: nat)
    requires i < |labels| && labels[i].name in LabelToArea
    requires forall j :: 0 <= j < i ==> labels[j].name !in LabelToArea
    ensures FirstMatch(labels) == Matched(labels[i])
  {
    if i > 0 {
      FirstMatchIsFirstRecognised(labels[1..], i - 1);
    }
  }

  /** No recognised label at all gives `NoDetection`, and only then is nothing detected. */
  lemma {:induction false} FirstMatchNoneRecognised(labels: seq<Label>)
    ensures FirstMatch(labels) == NoDetection
        <==> forall j :: 0 <= j < |labels| ==> labels[j].name !in LabelToArea
  {
    if labels != [] {
      FirstMatchNoneRecognised(labels[1..]);
      if labels[0].name !in LabelToArea {
        assert forall j :: 1 <= j < |labels| ==> labels[j] == labels[1..][j - 1];
      }
    }
  }

  /** Labels after the deciding one are ignored. */
  lemma {:induction false} FirstMatchIgnoresLater(labels: seq<Label>, later: seq<Label>)
    requires FirstMatch(labels) != NoDetection
    ensures FirstMatch(labels + later) == FirstMatch(labels)
  {
    assert labels != [];
    assert (labels + later)[0] == labels[0];
    if labels[0].name !in LabelToArea {
      assert (labels + later)[1..] == labels[1..] + later;
      FirstMatchIgnoresLater(labels[1..], later);
    }
  }

  /** Every result is `NoDetection` or a detection with severity 0..4 in a known area. */
  lemma {:induction false} FirstMatchShape(labels: seq<Label>)
    ensures var d := FirstMatch(labels);
      d == NoDetection
      || (d.isDamaged == Some(true) && 0 <= d.severity <= 4
          && d.area.Some? && d.area.value in KnownAreas)
  {
    if labels != [] && labels[0].name !in LabelToArea {
      FirstMatchShape(labels[1..]);
    }
  }

  /** A failing parser or service gives `NoDetection`; otherwise the labels decide. */
  lemma AssessShape(imageUrl: string, parse: string -> Option<UrlParts>,
                    classify: LabelRequest -> LabelResponse)
    ensures parse(imageUrl).None? ==> Assess(imageUrl, parse, classify) == NoDetection
    ensures parse(imageUrl).Some? && classify(RequestFor(parse(imageUrl).value)).Failure?
            ==> Assess(imageUrl, parse, classify) == NoDetection
    ensures var d := Assess(imageUrl, parse, classify);
      d == NoDetection
      || (d.isDamaged == Some(true) && 0 <= d.severity <= 4
          && d.area.Some? && d.area.value in KnownAreas)
  {
    match parse(imageUrl)
    case None =>
    case Some(parts) =>
      match classify(RequestFor(parts))
      case Failure =>
      case Labels(labels) => FirstMatchShape(labels);
  }
}
