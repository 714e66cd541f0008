/** Value types shared by the handler's parts: Python's `None`-or-value,
    the classifier's labels and the per-image result record. */
module Records {

  /** A value or Python's `None`. */
  datatype Option<+T> = None | Some(value: T)

  /** One label returned by the label-detection service: a name and a confidence as the service reports it. */
  datatype Label = Label(name: string, confidence: real)

  /** The record `lambda_handler` builds for one image.
      `windDamage` holds Python's `True` or `None` (`Some(false)` stands for `False`). */
  datatype ImageResult = ImageResult(
    url: string,
    windDamage: Option<bool>,
    severity: int,
    area: Option<string>,
    quality: int)

  /** Python truthiness of a `True`/`False`/`None` value. */
  predicate Truthy(b: Option<bool>) {
    b == Some(true)
  }

  /** Only `None` and `False` are falsy. */
  lemma FalsyValues(b: Option<bool>)
    ensures !Truthy(b) <==> b == None || b == Some(false)
  {
    match b
    case None =>
    case Some(v) => assert v || !v;
  }
}
