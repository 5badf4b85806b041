/**
 The shared data model of the photo-analysis app (types.ts), together with the
 two small failure-carrying wrappers the rest of the model uses.

 Scores are JavaScript numbers that the app never inspects: they are modelled
 as `real` and are only ever copied, never computed with.
 */
module Types {

  /** A value that may be absent (`null` / `undefined` in the app). */
  datatype Option<+T> = None | Some(value: T)

  /** The settlement of a promise: a value, or the error it was rejected with. */
  datatype Result<+T, +E> = Success(value: T) | Failure(error: E)

  /** A thrown JavaScript error; only its message is observable to the model. */
  datatype JsError = JsError(message: string)

  /** The five supported interface and response languages. */
  datatype Language = En | Ar | Fr | Es | Ja

  /** One scored facial feature of an analysis. */
  datatype FeatureAnalysis = FeatureAnalysis(feature: string, score: real, comment: string)

  /** The structured reply of the remote model, as the app stores and renders it. */
  datatype AnalysisResult = AnalysisResult(
    overallScore: real,
    potentialScore: real,
    summary: string,
    faceShape: string,
    skinQuality: string,
    features: seq<FeatureAnalysis>,
    improvements: seq<string>,
    bestFeature: string)

  /**
   An image chosen by the user. `base64` is `None` exactly when the data URL it
   was cut from holds no comma: the app's `split(',')[1]` then yields
   `undefined`, which the declared `string` type does not show.
   */
  datatype UploadedImage = UploadedImage(base64: Option<string>, mimeType: string, previewUrl: string)

  /** The field names of AnalysisResult, in declaration order. */
  const ResultFieldNames: seq<string> :=
    ["overallScore", "potentialScore", "summary", "faceShape", "skinQuality",
     "features", "improvements", "bestFeature"]

  /** The field names of FeatureAnalysis, in declaration order. */
  const FeatureFieldNames: seq<string> := ["feature", "score", "comment"]

  /** No name occurs twice in `names`. */
  predicate Distinct(names: seq<string>)
  {
    forall i, j :: 0 <= i < j < |names| ==> names[i] != names[j]
  }
}
