/**
 * The two request handlers of server.js over the uploads directory, which
 * the upload handler writes in place and the prediction handler reads.
 */
module Server {
  import opened Options
  import opened JsValues
  import opened Classifier
  import opened Batch

  const NoFileUploaded := "No file uploaded."

  /** The multipart `file` field as multer hands it over. */
  datatype UploadedFile = UploadedFile(originalName: string, content: seq<byte>)

  /** A predict request body's `images` naming one stored file, as the upload response hands it out. */
  function SingleReference(name: string): Value {
    Arr([Obj(map["image" := Str(name)])])
  }

  class Server {
    /** The uploads directory. */
    var uploads: Storage

    constructor (existing: Storage)
      ensures uploads == existing
    {
      uploads := existing;
    }

    /**
     * POST /upload: without a file, 400 and nothing stored; with one, the
     * file is stored under its original name, replacing any earlier file of
     * that name, and the name is returned as the image reference.
     */
    method Upload(file: Option<UploadedFile>) returns (resp: Response)
      modifies this
      ensures file.None? ==> resp == Response(400, Text(NoFileUploaded)) && uploads == old(uploads)
      ensures file.Some? ==>
        resp == Response(200, UploadedJson([file.value.originalName])) &&
        uploads == old(uploads)[file.value.originalName := file.value.content]
    {
      if file.None? {
        return Response(400, Text(NoFileUploaded));
      }
      uploads := uploads[file.value.originalName := file.value.content];
      resp := Response(200, UploadedJson([file.value.originalName]));
    }

    /**
     * POST /predict: rejects a non-array `images`; otherwise walks the
     * references in order and pushes one result per reference.
     */
    method Predict(images: Value, world: World) returns (resp: Response)
      ensures resp == HandlePredict(uploads, images, world)
      ensures !images.Arr? ==> resp == Response(400, ErrorJson(InvalidImages))
      ensures images.Arr? && resp.Response? ==>
        resp.status == 200 && |resp.body.results| == |images.items| &&
        forall i :: 0 <= i < |images.items| ==> Get(images.items[i], "image") == Some(resp.body.results[i].path)
    {
      if !images.Arr? {
        return Response(400, ErrorJson(InvalidImages));
      }
      var items := images.items;
      var results: seq<PredictionResult> := [];
      var k := 0;
      while k < |items|
        invariant 0 <= k <= |items|
        invariant ProcessAll(uploads, items[..k], world) == Some(results)
      {
        assert items[..k + 1][..k] == items[..k];
        var image := items[k];
        var thrown: Option<Thrown> := None;
        // try
        var ref := Get(image, "image");
        if ref.None? || !ref.value.Str? {
          thrown := Some(Thrown(None));
        } else if ref.value.s !in uploads {
          results := results + [Failed(ref.value, FileMissing)];
          k := k + 1;
          continue;
        } else if world.readFails(k) {
          thrown := Some(Thrown(None));
        } else {
          match world.classify(k, uploads[ref.value.s]) {
            case Refused(data) =>
              thrown := Some(Thrown(data));
            case Answered(None) =>
              thrown := Some(Thrown(None));
            case Answered(Some(raw)) =>
              results := results + [Predicted(ref.value, Organize(raw))];
          }
        }
        // catch
        if thrown.Some? {
          var path := Get(image, "image");
          var data := thrown.value.responseData;
          var logThrows := path.None? || ToStringThrows(path.value);
          if !logThrows && data.Some? {
            var detail := Get(data.value, "error");
            logThrows := detail.None? ||
              (Truthy(detail.value) &&
               (ToStringThrows(Get(detail.value, "code").value) || ToStringThrows(Get(detail.value, "message").value)));
          }
          if logThrows {
            ProcessAllPointwise(uploads, items, world);
            return Unanswered;
          }
          results := results + [Failed(path.value, PredictionFailed)];
        }
        k := k + 1;
      }
      assert items[..|items|] == items;
      resp := Response(200, ResultsJson(results));
      BatchShape(uploads, images, world);
    }
  }

  /**
   * Uploading a file and then predicting on the name the upload returned
   * never reports a missing file: the result is the file's predictions, or
   * "Prediction failed" when reading or classifying it fails; the request
   * goes unanswered only when the classifier's error reply has a body that
   * cannot be logged.
   */
  lemma UploadThenPredict(storage: Storage, file: UploadedFile, world: World)
    ensures var resp := HandlePredict(storage[file.originalName := file.content], SingleReference(file.originalName), world);
      var reply := world.classify(0, file.content);
      (resp == Unanswered <==>
        !world.readFails(0) && reply.Refused? && reply.response.Some? && ErrorBodyLogThrows(reply.response.value)) &&
      (resp.Response? ==>
        resp.status == 200 && |resp.body.results| == 1 &&
        resp.body.results[0].path == Str(file.originalName) &&
        (resp.body.results[0].Predicted? <==> !world.readFails(0) && reply.Answered? && reply.predictions.Some?) &&
        (resp.body.results[0].Failed? ==> resp.body.results[0].error == PredictionFailed))
  {
    var images := SingleReference(file.originalName);
    BatchShape(storage[file.originalName := file.content], images, world);
    assert Get(images.items[0], "image") == Some(Str(file.originalName));
  }

  /** Predicting on a name that was never uploaded yields the one "does not exist" result. */
  lemma NeverUploadedReported(storage: Storage, name: string, world: World)
    requires name !in storage
    ensures HandlePredict(storage, SingleReference(name), world) ==
      Response(200, ResultsJson([Failed(Str(name), FileMissing)]))
  {
    var items := SingleReference(name).items;
    assert items[..0] == [];
    assert Get(items[0], "image") == Some(Str(name));
    assert ProcessItem(storage, items[0], 0, world) == Some(Failed(Str(name), FileMissing));
    ProcessAllPointwise(storage, items, world);
  }

  /** Two uploads under one name: only the second one's content is visible to prediction. */
  lemma LastUploadWins(storage: Storage, first: UploadedFile, second: UploadedFile, images: Value, world: World)
    requires first.originalName == second.originalName
    ensures var both := storage[first.originalName := first.content][second.originalName := second.content];
      both[second.originalName] == second.content &&
      HandlePredict(both, images, world) == HandlePredict(storage[second.originalName := second.content], images, world)
  {
    var both := storage[first.originalName := first.content][second.originalName := second.content];
    assert both == storage[second.originalName := second.content];
  }
}
