# Wind-damage claim handler, modelled in Dafny

This project models the request handler of a wind-damage claim assessor. The handler
takes a claim id and a list of image URLs. For each image it asks a label-detection
service for labels and reads a damage area and a severity from the first label it
recognises. It then builds a claim summary: an overall mean severity, and one entry
per damaged area.

The model has five modules. The source is the single file `lambda/handler.py`; the
modules follow its parts:

- `Records` (`records.dfy`): Python's `None`-or-value (`Option`), the service's
  `Label`, and the per-image `ImageResult` record.
- `Severity` (`severity.dfy`): the five-band confidence-to-severity step function.
- `Detection` (`detection.dfy`): the label table; the URL split into bucket and key;
  the label scan. A scan's result is an `Outcome` triple. `DetectWindDamage` is a method with the scan loop and its early
  return. It is proved equal to `Assess`, whose first-match rule is `FirstMatch`.
- `Summary` (`summary.dfy`): `generate_summary`. `GenerateSummary` is a method that
  fills the by-area dictionary in place. The dictionary is a `map` plus a `seq` of
  its keys in insertion order, which is the order Python dictionaries keep. The
  method is proved equal to `ExpectedSummary`, which is built from `Damaged`,
  `AreaKeys` (the distinct area keys in first-occurrence order) and `Members` (one
  area's group).
- `Handler` (`handler.dfy`): `lambda_handler`. It validates the request, runs the
  per-image loop and returns the response.

Collaborators become parameters:

- `parse: string -> Option<UrlParts>` stands for `urlparse`. `None` means it raised.
- `classify: LabelRequest -> LabelResponse` stands for the label-detection call.
  `Failure` stands for anything the `try` block catches, such as a service error or
  an answer without `Labels`.
- `timestamp` stands for `datetime.utcnow().isoformat()`.

Only the handler's code is modelled. The handler's test (test/test_handler.py:15-19)
patches `download_image`, `get_perceptual_hash`, `get_blur_score` and `requests.get`.
The handler defines none of them. The code has no blur filtering, no hashing, no
quality-weighted mean and no rule that confirms an area only with two images. It uses
a plain mean, sets `damage_confirmed` to `True` for every area, and fixes `analyzed`
and `clusters` to the input length. The model follows the code.

One fact about the code falls out of the proofs. The handler only ever builds
records that are `(None, 0, None)` or a detection in roof, siding or garage. So the
`or "unknown"` fallback in `generate_summary` never fires when `lambda_handler` is
the caller (`Handler.ShapedDamagedKey`).

## Model

| member | source | states |
|---|---|---|
| `Severity.MapConfidenceToSeverity` | lambda/handler.py:17-27 | the severity is always an integer in 0..4 |
| `Severity.SeverityBands` | lambda/handler.py:17-27 | severity 4, 3, 2, 1, 0 exactly for confidence >= 90, in [75, 90), [60, 75), [45, 60) and < 45 |
| `Severity.SeverityAtLeast` | lambda/handler.py:17-27 | severity >= k exactly when the confidence reaches the k-th breakpoint (45, 60, 75, 90) |
| `Severity.SeverityCountsBreakpoints` | lambda/handler.py:17-27 | the severity equals the number of breakpoints the confidence reaches (an independent definition) |
| `Severity.SeverityMonotone` | lambda/handler.py:17-27 | a higher confidence never gives a lower severity |
| `Detection.LabelTable` | lambda/handler.py:8-15 | the six recognised names, their areas, and that the table's values are exactly roof, siding and garage |
| `Detection.BucketName` | lambda/handler.py:72 | the bucket is a prefix of the netloc, contains no '.', and is followed by a '.' or by the end of the netloc |
| `Detection.ObjectKey` | lambda/handler.py:73 | the key is a suffix of the path, everything before it is '/', and it does not start with '/' |
| `Detection.RequestFor` | lambda/handler.py:72-79 | the service request asks for at most 50 labels with minimum confidence 30; its bucket has no '.' and is a prefix of the netloc; its key does not start with '/' |
| `Detection.Matched` | lambda/handler.py:85-89 | a recognised label gives a damaged outcome `(True, s, area)` with s in 0..4 and area in roof, siding or garage |
| `Detection.FirstMatch` | lambda/handler.py:81-91 | the scan gives `(None, 0, None)` or the outcome of some recognised label in the list |
| `Detection.Assess` | lambda/handler.py:69-95 | a damaged outcome is only reported when the URL parses and the service returns labels for that URL's request |
| `Detection.DetectWindDamage` | lambda/handler.py:69-95 | the label-scan loop with early return gives `Assess`: `(None, 0, None)` when parsing or the service fails, else the first-match result for the service's labels |
| `Detection.FirstMatchIsFirstRecognised` | lambda/handler.py:81-89 | when label i is the first with a name in the table, the result is `(True, severity of its confidence, its table area)`; unrecognised labels before it are skipped |
| `Detection.FirstMatchNoneRecognised` | lambda/handler.py:81-91 | the result is `(None, 0, None)` if and only if no label name is in the table |
| `Detection.FirstMatchIgnoresLater` | lambda/handler.py:81-89 | labels after the deciding one do not change the result |
| `Detection.FirstMatchShape` | lambda/handler.py:81-91 | every scan result is `(None, 0, None)` or `(True, 0..4, roof/siding/garage)` |
| `Detection.AssessShape` | lambda/handler.py:69-95 | a failing parser or service gives `(None, 0, None)`; every outcome has one of the two shapes |
| `Records.Truthy` | lambda/handler.py:98 | Python truthiness of `wind_damage`; its falsy values are stated by `Records.FalsyValues` |
| `Records.FalsyValues` | lambda/handler.py:98 | `wind_damage` is falsy exactly when it is `None` or `False` |
| `Summary.Damaged` | lambda/handler.py:98 | the damaged list is no longer than the results |
| `Summary.DamagedOne` | lambda/handler.py:98 | one result is kept, once, exactly when its `wind_damage` is truthy |
| `Summary.DamagedAppend` | lambda/handler.py:98 | filtering a concatenation is concatenating the filtered parts, so the filter keeps input order and repeated results |
| `Summary.SeveritySum` | lambda/handler.py:99 | the `sum(...)` of severities; `Summary.SeveritySumAppend` and `Summary.SeveritySumBounds` state its properties |
| `Summary.SeveritySumAppend` | lambda/handler.py:99 | the sum over a concatenation is the sum of the parts' sums |
| `Summary.SeveritySumBounds` | lambda/handler.py:99 | severities in 0..4 sum to between 0 and four times their number |
| `Summary.MeanSeverity` | lambda/handler.py:99 | 0.0 for an empty list; otherwise the mean times the list's length is the severity sum |
| `Summary.AreaKey` | lambda/handler.py:119 | a non-empty area is its own key; a missing or empty area is "unknown"; a key is never empty |
| `Summary.AreaKeys` | lambda/handler.py:117-122 | the `by_area` keys in insertion order; `Summary.AreaKeysMembership`, `Summary.AreaKeysDistinct` and `Summary.AreasInFirstOccurrenceOrder` state its properties |
| `Summary.Members` | lambda/handler.py:117-122 | the group `by_area[area]`; `Summary.MembersMembership`, `Summary.MembersFirst` and `Summary.MembersAppend` state its properties |
| `Summary.MembersAppend` | lambda/handler.py:117-122 | grouping a concatenation concatenates the groups, so a group keeps input order and repeated results |
| `Summary.AreaKeysLength` | lambda/handler.py:117-122 | there are no more distinct area keys than damaged results |
| `Summary.AreaNotes` | lambda/handler.py:133 | the note is "Damage detected in ", then the area, then " area.", and 25 characters longer than the area |
| `Summary.AreaSummaryOf` | lambda/handler.py:124-134 | an entry for a non-empty group carries its key, the group's size (at least 1), the group's mean severity, the first member's URL as its only representative, confirmation, peril "wind", and the note "Damage detected in {area} area." |
| `Summary.SummariesFor` | lambda/handler.py:124-134 | one entry per key, in key order (the contract gives the length; `Summary.AreaEntry` gives every field of each entry, notes included) |
| `Summary.AreasOf` | lambda/handler.py:116-134 | the `areas` list, one entry per `by_area` key; `Summary.AreaEntry` (every field, notes included), `Summary.AreasCoverDamaged` and `Summary.AreasInFirstOccurrenceOrder` state its properties |
| `Summary.AreaSeverityBounds` | lambda/handler.py:124-125 | for severities in 0..4, every area entry's average lies in [0, 4] |
| `Summary.ExpectedSummary` | lambda/handler.py:97-137 | the summary has no more area entries than damaged results, and no more damaged results than results |
| `Summary.DamagedMembership` | lambda/handler.py:98 | a result is kept exactly when its `wind_damage` is truthy |
| `Summary.DamagedEmpty` | lambda/handler.py:98 | the damaged list is empty exactly when no result has a truthy `wind_damage` |
| `Summary.AreaEntries` | lambda/handler.py:124-134 | the loop over the filled dictionary's keys in insertion order gives `AreasOf` of the damaged results |
| `Summary.GenerateSummary` | lambda/handler.py:97-137 | the in-place grouping loop and the area loop give `ExpectedSummary` |
| `Summary.SummaryCounts` | lambda/handler.py:101-114 | `total`, `analyzed` and `clusters` equal the number of images; `discarded_low_quality` is 0; the claim id, data gaps, confidence 0.87 and `timestamp + "Z"` are carried over |
| `Summary.MeanSeverityBounds` | lambda/handler.py:99 | the mean of severities in 0..4 lies in [0, 4] |
| `Summary.NoDamageSummary` | lambda/handler.py:98-116 | with no damaged result, the overall severity is 0.0 and there are no areas |
| `Summary.OverallIsMean` | lambda/handler.py:98-99 | with some damaged result, the overall severity is the sum of their severities over their number, and there is at least one area |
| `Summary.OverallBounds` | lambda/handler.py:98-99 | for severities in 0..4 the overall severity lies in [0, 4] |
| `Summary.AreasEmpty` | lambda/handler.py:116-134 | there is an area entry exactly when some result is damaged |
| `Summary.AreaKeysMembership` | lambda/handler.py:117-122 | an area key is a dictionary key exactly when some damaged result carries it |
| `Summary.AreaKeysDistinct` | lambda/handler.py:117-122 | no area key is listed twice |
| `Summary.MembersMembership` | lambda/handler.py:117-122 | an area's group holds exactly the damaged results with that key |
| `Summary.GroupsPartition` | lambda/handler.py:117-122 | the group sizes add up to the number of damaged results |
| `Summary.MembersFirst` | lambda/handler.py:117-122 | the first damaged result with a key heads that key's group |
| `Summary.AreasPartitionDamaged` | lambda/handler.py:117-134 | the area entries' counts add up to the number of damaged results |
| `Summary.AreasCoverDamaged` | lambda/handler.py:117-134 | each damaged result falls under exactly one area entry, the one named by its area key ("unknown" for a missing or empty area) |
| `Summary.AreaEntry` | lambda/handler.py:124-134 | an entry's count is its group's size (at least 1), its average is its group's mean, its representative is the URL of the first damaged result of that area, it is confirmed with peril "wind", and its note is "Damage detected in {area} area." |
| `Summary.AreasInFirstOccurrenceOrder` | lambda/handler.py:117-124 | area entries appear in the order in which each area's first damaged result appears |
| `Summary.SingleDamagedSummary` | lambda/handler.py:97-134 | a single damaged result gives its own severity overall and a single area entry of count 1 |
| `Handler.ClaimIdOf` | lambda/handler.py:35 | an absent claim id becomes "UNKNOWN"; a given one is kept |
| `Handler.ImagesOf` | lambda/handler.py:36 | absent images become the empty list; a given list is kept |
| `Handler.ResultFor` | lambda/handler.py:49-55 | the record carries the image URL and the outcome's damage flag, severity and area, with `quality` equal to the severity |
| `Handler.LambdaHandler` | lambda/handler.py:29-67 | no images (missing, null or empty) gives status 422 with "No images provided" and no records; otherwise one record per image in input order, each from that image's detection, and status 200 with the summary of those records |
| `Handler.HandlerRecords` | lambda/handler.py:44-56 | every record carries its image's URL, has `quality == severity` and severity 0..4, and is `(None, 0, None)` or a detection in a known area |
| `Handler.ShapedDamagedKey` | lambda/handler.py:119 | every damaged record the handler builds is grouped under roof, siding or garage, never "unknown" |
| `Handler.HandlerSummary` | lambda/handler.py:44-58 | for the handler's records the counters equal the number of images, the overall severity and every area's average lie in [0, 4], every area is roof, siding or garage, and the area counts add up to the damaged count |
| `Handler.RoofDamageLabel` | test/test_handler.py:39-44 | the single label "Roof Damage" at 95.0 scans to `(True, 4, "roof")` |
| `Handler.RoofDamageScenario` | test/test_handler.py:39-53 | one image with the single label "Roof Damage" at 95.0 gives the record `(True, 4, "roof")`, overall severity 4.0 and one "roof" entry for that image |

## Left out

- JSON decoding of the request body and encoding of the response. `Request` is the
  decoded data, and `Body` holds the summary or the error text before encoding.
- `Handler.ClaimIdOf`: an explicit JSON `null` claim id gives `None` in the source.
  The model's `Request` cannot express it, so an absent id becomes "UNKNOWN".
- A non-list `images` value, such as a string that Python would iterate character by
  character, is outside the decoded `Request` type.
- The write of the results and summary to `/tmp/damage_summary.json`, and all
  `print` logging. These are I/O. `LambdaHandler` returns the records instead.
- The label-detection client and the call itself. They are the pure parameter
  `classify`, so "classifies nothing" on an empty request shows up only as an empty
  record list.
- `urlparse` is the parameter `parse`, and `datetime.utcnow()` is `timestamp`.
- `Summary.MeanSeverity`: does not model `round(..., 1)` or floating point. The
  overall and per-area severities are exact real means of the integer severities.
  They still lie in [0, 4].
- `Summary.GenerateSummary`: the new group is created and extended in one map
  update (`byArea[area := group + [img]]`), not in the two steps the source takes.
  The resulting dictionary is the same.
- Stack and application provisioning (`stack.py`, `app.py`) have no algorithmic
  content. The functions the test patches (`download_image`,
  `get_perceptual_hash`, `get_blur_score`) are not in the handler.
