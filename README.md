# Image-classification relay: upload and batch prediction

The relay is a small Express server (`server.js`). It has two handlers.
`POST /upload` stores an uploaded image in the `uploads` directory under its
original file name. `POST /predict` takes a list of references to stored
images. For each one it sends the image bytes to an external Custom Vision
classifier and collects one result per reference, in input order.

This project models those two handlers in Dafny:

- The uploads directory is a `map<string, seq<byte>>`, held as the field
  `uploads` of class `Server.Server`. `Upload` rewrites this field in place.
- The request body's `images` value is a JavaScript value (`JsValues.Value`).
  This keeps the `Array.isArray` check and the property reads `image.image`
  and `error.response.data.error` as the code performs them. Either read
  throws on `null` or `undefined`.
- The classifier and the file read are oracles, indexed by the position of
  the item being processed (`Batch.World`). The classifier oracle yields a
  `Classifier.Reply`.
- `Batch.HandlePredict` is the prediction handler as a pure function.
  `Server.Server.Predict` is the handler's loop, written imperatively with
  `continue` and an explicit try/catch split. It is proved equal to that
  function.
- Each result is a `Batch.PredictionResult`. It is either `Predicted(path,
  predictions)` or `Failed(path, error)`, so every result carries exactly one
  of `predictions` or `error` by construction.
- `Fixed.ToFixed2` is `Number.prototype.toFixed(2)` computed on exact reals.
  `Fixed.ParseFixed2` reads the strings it produces back, which lets the
  two-decimal format be proved as a round trip.

The model follows the code in three places where a reader might expect
otherwise:

- The handler is meant to never let an exception leave the batch loop. In
  the code, the catch block can itself throw, and then the exception leaves
  the loop. This happens in three cases:
  1. The item is `null` or `undefined`. The `image.image` at server.js:82
     throws, and the catch block reads it again at server.js:112.
  2. The reference is not a string and cannot be converted to one, such as
     an object with a `toString` key, or an array holding one. `path.join`
     rejects it at server.js:82, and the log line at server.js:112 then
     fails to convert it.
  3. The classifier's error reply has a body that cannot be logged. Either
     the body is JSON `null`, so `error.response.data.error` at
     server.js:115 throws, or its `error` is truthy and its `code` or
     `message` cannot be converted at server.js:116-117.

  In all three cases the handler sends nothing. The model calls this
  outcome `Unanswered` (see `Batch.Escapes`, `JsValues.ToStringThrows` and
  `Batch.ErrorBodyLogThrows`). Provided every read and every classifier
  call returns, the model proves that the batch is answered exactly when
  no item falls into any of these cases.
- A read failure after the existence check does not get the missing-file
  error. The read sits inside the try block, so it yields
  `"Prediction failed"`.
- A returned probability is not a number from 0 to 100. It is the string
  that `toFixed(2)` produces, and the model returns that string.

## Model

| member | source | states |
|---|---|---|
| `Fixed.Hundredths` | server.js:106 | The hundredths count lies within one half of `100·x`, so it is toFixed's rounding of a non-negative value. |
| `Fixed.HundredthsNearest` | server.js:106 | The hundredths count is an integer nearest to `100·x`. On a tie it is the larger candidate. |
| `Fixed.ToFixed2` | server.js:106 | The printed value has exactly two digits after the point. It starts with a minus sign exactly when the value is negative. |
| `Fixed.ToFixed2RoundTrip` | server.js:106 | Reading the printed string back gives the rounded value in hundredths, sign included. |
| `Fixed.PercentInRange` | server.js:106 | A probability in [0, 1], times 100 and printed, has no sign and reads back as 0.00 to 100.00. |
| `Classifier.Organize` | server.js:104-107 | The `.map` over the classifier's predictions gives one prediction per entry, in order, with the tag copied unchanged. |
| `Classifier.OrganizedPercentages` | server.js:104-107 | If every returned probability is in [0, 1], every returned percentage string is a two-decimal value from 0.00 to 100.00. |
| `Batch.ProcessItem` | server.js:81-123 | One item ends the request exactly when `Escapes` holds: the item is null or undefined, the reference is a non-string that cannot be converted, or the error reply's body cannot be logged. Otherwise it yields one result whose `path` is the item's `image`. |
| `Batch.ProcessAll` | server.js:80-124 | A completed loop has exactly as many results as items. |
| `Batch.HandlePredict` | server.js:67-127 | A non-array `images` gets 400 with the exact invalid-input message. An array gets either no answer or 200 with one result per reference. |
| `Batch.ProcessAllPointwise` | server.js:80-124 | The loop completes exactly when no item escapes. Its i-th result is then the result item i yields on its own. |
| `Batch.ResultAt` | server.js:80-124 | In a sent response, the result at position i is the one item i yields on its own. |
| `Batch.BatchShape` | server.js:77-126 | An array request is unanswered exactly when some item escapes. Otherwise the response is 200, the result count equals the reference count, and each result's `path` is that reference's `image`, in input order. |
| `Batch.MissingFileReported` | server.js:86-90 | A reference to a file that is not stored never ends the request. It yields `{path, error: "Image file does not exist"}`, which is the result at its position whenever the batch is answered. |
| `Batch.PredictionsCopied` | server.js:92-109 | A successful classifier call never ends the request. In an answered batch, its result holds predictions in the classifier's order. Their count matches, tags are unchanged, and each probability is `(p*100).toFixed(2)`. |
| `Batch.FailureReportedGenerically` | server.js:82-122 | A failure other than a missing file yields `{path, error: "Prediction failed"}` unless the catch block's own logging throws (`Escapes`). This covers a non-string reference (rejected by `path.join` at server.js:82, before the existence check) and, after the existence check, a failed read, a rejected call and a reply without predictions. |
| `Batch.ReferenceWithToStringKeyEscapes` | server.js:82-112 | A batch whose one reference is `{"toString": null}` goes unanswered: `path.join` rejects the reference, and converting it for the log line throws. |
| `Batch.ResultIndependentOfOtherItems` | server.js:80-124 | Failures are isolated. The result at a position depends only on the item at that position. |
| `Server.Server.constructor` | server.js:44-48 | The server starts over the files already in the uploads directory. |
| `Server.Server.Upload` | server.js:57-64 | With no file: 400 `"No file uploaded."` and storage unchanged. With a file: stored under its original name, overwriting any earlier entry, and the response is `{images: [{image: name}]}`. |
| `Server.Server.Predict` | server.js:67-127 | The loop, with the catch block's throwing log lines, has a response equal to `HandlePredict` on the current uploads. This gives the 400 for a non-array input, and for an array input one result per reference with that reference as `path`, in order. |
| `Server.UploadThenPredict` | server.js:50-63 | Predicting on a just-uploaded name never reports a missing file. It goes unanswered exactly when the read succeeds and the classifier's error reply has a body that cannot be logged. Otherwise the result has predictions exactly when the read and the classifier call succeed, and says "Prediction failed" when they do not. |
| `Server.NeverUploadedReported` | server.js:86-90 | Predicting on a name never uploaded gives the single result `{path: name, error: "Image file does not exist"}`. |
| `Server.LastUploadWins` | server.js:50-51 | After two uploads under one name, only the second content is stored. Prediction behaves as if the first upload never happened. |

## Left out

- Express setup, CORS, body parsing, static serving of `/uploads`, dotenv configuration and `app.listen` (server.js:15-22, 37-41, 129-135). These are framework plumbing. `Predict` takes the value of the body's `images` property directly; a missing property is `Undefined`.
- Winston logging (server.js:25-35, 69, 73, 83, 87, 110, 112-121): where and how lines are written. The catch block's log lines are modelled only in the ways they can throw: reading `error.response.data.error`, and converting `image.image`, `error.code` and `error.message` to strings. The other log lines cannot throw on the values that reach them: they hold strings or `JSON.stringify` of parsed JSON.
- Batch.BatchShape: every collaborator call is assumed to complete. The `await axios.post(...)` at server.js:93 sets no timeout, so a stalled classifier (or a stalled read) leaves the request unanswered even though no item escapes; the model's oracles always return, so the "no item escapes, hence answered" half holds only under that assumption.
- The axios call (server.js:93-101): endpoint, key and headers. The call is an oracle per item position returning `Classifier.Reply`.
- The shape of a successful classifier body is modelled coarsely. `Answered(None)` stands for every body without a usable `predictions` array (missing, not an array, null body), and all of these throw and end as "Prediction failed". Entries are taken to be `{tagName: string, probability: number}`. Null entries, which throw, and non-numeric probabilities, which JavaScript coerces, are not modelled.
- Floating point. `(p * 100).toFixed(2)` is computed on exact reals. The binary64 rounding of the product and of its decimal expansion is not modelled. Neither are NaN, infinities, or magnitudes of 1e21 and above, which `toFixed` prints in exponent form.
- Path semantics of `path.join` (server.js:82). A reference is a plain key into the storage map. Traversal such as `../x`, and `""` or `"."` naming the uploads directory itself (which exists but cannot be read), are not modelled.
- Multer details: a file sent under a field other than `file` (multer rejects the request), disk write errors, and original names that contain path separators.
- What happens after an exception escapes the handler. The model stops at `Unanswered`. Whether the client then sees a hang, a 500 or a crashed process depends on the Express and Node versions.
- `JSON.stringify` of the response. A result whose `path` is `undefined` loses its `path` key when serialized. Results are modelled as the objects before serialization.
- `JsValues.Get` reads own fields only. Built-in properties (such as `length` of a string) are not modelled, because the handlers only read `image`, `predictions`, `error`, `code` and `message`. The `toString` key of a parsed object is the one inherited name that matters, and `JsValues.ToStringThrows` models it.
- Concurrency between requests and uploads. Each handler runs on one snapshot of the storage map.
