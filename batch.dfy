/**
 * The `/predict` handler of server.js as a specification: how one image
 * reference becomes one result (or ends the request), and how the batch
 * loop strings the items together.
 */
module Batch {
  import opened Options
  import opened JsValues
  import opened Classifier

  newtype byte = x: int | 0 <= x < 256

  /** The uploads directory: stored file name to file content. */
  type Storage = map<string, seq<byte>>

  const InvalidImages := "Invalid input format. 'images' should be an array."
  const FileMissing := "Image file does not exist"
  const PredictionFailed := "Prediction failed"

  /** One entry of the response array: exactly one of `predictions` or `error` beside `path`. */
  datatype PredictionResult =
    | Predicted(path: Value, predictions: seq<Prediction>)
    | Failed(path: Value, error: string)

  datatype Body =
    | Text(text: string)
    | ErrorJson(error: string)
    | UploadedJson(images: seq<string>)
    | ResultsJson(results: seq<PredictionResult>)

  /**
   * What a handler sends back. `Unanswered`: an exception escaped the
   * handler, so it sends nothing itself.
   */
  datatype Response = Response(status: nat, body: Body) | Unanswered

  /**
   * The collaborators of the loop, indexed by the position of the item being
   * processed: whether reading that item's stored file fails, and what the
   * classifier call made for it with the given bytes yields.
   */
  datatype World = World(readFails: nat -> bool, classify: (nat, seq<byte>) -> Reply)

  /** An exception raised in the try block; `responseData` is `error.response.data`, if any. */
  datatype Thrown = Thrown(responseData: Option<Value>)

  /** How the try block for one item ends: a pushed result or an exception. */
  datatype Attempt = Pushed(result: PredictionResult) | Raised(error: Thrown)

  /** The try block for the item at position `i`. */
  function TryItem(storage: Storage, item: Value, i: nat, world: World): Attempt
  {
    match Get(item, "image")
    case None => Raised(Thrown(None))                // reading `.image` of null or undefined
    case Some(ref) =>
      if !ref.Str? then Raised(Thrown(None))         // path.join rejects a non-string segment
      else if ref.s !in storage then Pushed(Failed(ref, FileMissing))
      else if world.readFails(i) then Raised(Thrown(None))
      else match world.classify(i, storage[ref.s])
        case Refused(data) => Raised(Thrown(data))
        case Answered(None) => Raised(Thrown(None)) // `.map` of a missing predictions list
        case Answered(Some(raw)) => Pushed(Predicted(ref, Organize(raw)))
  }

  /**
   * The catch block: `None` when the catch block throws in its turn, which
   * escapes the loop. Its logging reads `image.image` again and converts it
   * to a string, then reads `error.response.data.error` when there is a
   * response and, when that is truthy, converts its `code` and `message`.
   */
  function CatchItem(item: Value, error: Thrown): Option<PredictionResult>
  {
    match Get(item, "image")
    case None => None
    case Some(ref) =>
      if ToStringThrows(ref) then None
      else match error.responseData
        case None => Some(Failed(ref, PredictionFailed))
        case Some(data) =>
          match Get(data, "error")
          case None => None
          case Some(detail) =>
            if Truthy(detail) &&
               (ToStringThrows(Get(detail, "code").value) || ToStringThrows(Get(detail, "message").value))
            then None
            else Some(Failed(ref, PredictionFailed))
  }

  /**
   * Whether logging the body of a classifier error reply throws: the body is
   * null or undefined, or its `error` is truthy and its `code` or `message`
   * cannot be converted to a string.
   */
  predicate ErrorBodyLogThrows(data: Value) {
    Nullish(data) ||
    (var detail := Get(data, "error").value;
     Truthy(detail) && !Nullish(detail) &&
     (ToStringThrows(Get(detail, "code").value) || ToStringThrows(Get(detail, "message").value)))
  }

  /**
   * The items for which the handler throws out of the loop: a null or
   * undefined item; a reference that is not a string and cannot be converted
   * to one; or a stored, readable image whose classifier call was rejected
   * with an error reply whose body cannot be logged.
   */
  predicate Escapes(storage: Storage, item: Value, i: nat, world: World) {
    Nullish(item) ||
    (var ref := Get(item, "image").value;
     (!ref.Str? && ToStringThrows(ref)) ||
     (ref.Str? && ref.s in storage && !world.readFails(i) &&
      var reply := world.classify(i, storage[ref.s]);
      reply.Refused? && reply.response.Some? && ErrorBodyLogThrows(reply.response.value)))
  }

  /** One iteration of the loop: the result pushed for the item, or `None` if it escapes. */
  function ProcessItem(storage: Storage, item: Value, i: nat, world: World): (r: Option<PredictionResult>)
    ensures r.None? <==> Escapes(storage, item, i, world)
    ensures r.Some? ==> Get(item, "image") == Some(r.value.path)
  {
    match TryItem(storage, item, i, world)
    case Pushed(result) => Some(result)
    case Raised(error) => CatchItem(item, error)
  }

  /** The loop over `items`: every result in order, or `None` if some item escapes. */
  function ProcessAll(storage: Storage, items: seq<Value>, world: World): (r: Option<seq<PredictionResult>>)
    ensures r.Some? ==> |r.value| == |items|
    decreases |items|
  {
    if items == [] then Some([])
    else
      var n := |items| - 1;
      match ProcessAll(storage, items[..n], world)
      case None => None
      case Some(results) =>
        match ProcessItem(storage, items[n], n, world)
        case None => None
        case Some(r) => Some(results + [r])
  }

  /** The whole handler, given the value of the body's `images` property. */
  function HandlePredict(storage: Storage, images: Value, world: World): (resp: Response)
    ensures !images.Arr? ==> resp == Response(400, ErrorJson(InvalidImages))
    ensures images.Arr? ==>
      (resp == Unanswered || (resp.status == 200 && resp.body.ResultsJson? && |resp.body.results| == |images.items|))
  {
    if !images.Arr? then Response(400, ErrorJson(InvalidImages))
    else match ProcessAll(storage, images.items, world)
      case None => Unanswered
      case Some(results) => Response(200, ResultsJson(results))
  }

  /**
   * The loop is the item-by-item process: it completes exactly when no item
   * escapes, and then its i-th result is the one item i yields on its own.
   */
  lemma {:induction false} ProcessAllPointwise(storage: Storage, items: seq<Value>, world: World)
    ensures ProcessAll(storage, items, world).Some? <==>
      forall i :: 0 <= i < |items| ==> !Escapes(storage, items[i], i, world)
    ensures ProcessAll(storage, items, world).Some? ==>
      var results := ProcessAll(storage, items, world).value;
      |results| == |items| &&
      forall i :: 0 <= i < |items| ==> Some(results[i]) == ProcessItem(storage, items[i], i, world)
    decreases |items|
  {
    if items != [] {
      var n := |items| - 1;
      ProcessAllPointwise(storage, items[..n], world);
      assert forall i :: 0 <= i < n ==> items[..n][i] == items[i];
    }
  }

  /** Results of a sent response to an array request, position by position. */
  lemma ResultAt(storage: Storage, images: Value, world: World, i: nat)
    requires images.Arr? && i < |images.items|
    requires HandlePredict(storage, images, world).Response?
    ensures var results := HandlePredict(storage, images, world).body.results;
      |results| == |images.items| &&
      Some(results[i]) == ProcessItem(storage, images.items[i], i, world)
  {
    ProcessAllPointwise(storage, images.items, world);
  }

  /**
   * For an array of references the handler answers unless some item escapes;
   * its answer then has one result per reference, in input order, each
   * carrying that reference's `image` as its `path`.
   */
  lemma BatchShape(storage: Storage, images: Value, world: World)
    requires images.Arr?
    ensures var resp := HandlePredict(storage, images, world);
      (resp == Unanswered <==> exists i :: 0 <= i < |images.items| && Escapes(storage, images.items[i], i, world)) &&
      (resp.Response? ==>
        resp.status == 200 && |resp.body.results| == |images.items| &&
        forall i :: 0 <= i < |images.items| ==> Get(images.items[i], "image") == Some(resp.body.results[i].path))
  {
    ProcessAllPointwise(storage, images.items, world);
  }

  /**
   * A reference to a file that is not stored yields the "does not exist"
   * error and never ends the request, so the batch goes on with the next item.
   */
  lemma MissingFileReported(storage: Storage, images: Value, world: World, i: nat, name: string)
    requires images.Arr? && i < |images.items|
    requires Get(images.items[i], "image") == Some(Str(name)) && name !in storage
    ensures !Escapes(storage, images.items[i], i, world)
    ensures ProcessItem(storage, images.items[i], i, world) == Some(Failed(Str(name), FileMissing))
    ensures HandlePredict(storage, images, world).Response? ==>
      HandlePredict(storage, images, world).body.results[i] == Failed(Str(name), FileMissing)
  {
    if HandlePredict(storage, images, world).Response? {
      ResultAt(storage, images, world, i);
    }
  }

  /**
   * A stored, readable image whose classifier call succeeds never ends the
   * request and yields its predictions: as many as the classifier returned,
   * in its order, tags unchanged, each probability printed as a percentage
   * with two decimals.
   */
  lemma PredictionsCopied(storage: Storage, images: Value, world: World, i: nat, name: string, raw: seq<RawPrediction>)
    requires images.Arr? && i < |images.items|
    requires Get(images.items[i], "image") == Some(Str(name)) && name in storage
    requires !world.readFails(i) && world.classify(i, storage[name]) == Answered(Some(raw))
    ensures !Escapes(storage, images.items[i], i, world)
    ensures HandlePredict(storage, images, world).Response? ==>
      var r := HandlePredict(storage, images, world).body.results[i];
      r.Predicted? && r.path == Str(name) && |r.predictions| == |raw| &&
      forall j :: 0 <= j < |raw| ==>
        r.predictions[j].tagName == raw[j].tagName &&
        r.predictions[j].probability == Fixed.ToFixed2(raw[j].probability * 100.0)
  {
    if HandlePredict(storage, images, world).Response? {
      ResultAt(storage, images, world, i);
    }
  }

  /**
   * Any failure other than a missing file yields the generic "Prediction
   * failed" error unless the catch block's own logging throws (`Escapes`): a
   * reference that is not a string (rejected by path.join before the
   * existence check) or, after the existence check, a failed read, a
   * rejected call or a reply without predictions.
   */
  lemma FailureReportedGenerically(storage: Storage, images: Value, world: World, i: nat, ref: Value)
    requires images.Arr? && i < |images.items|
    requires Get(images.items[i], "image") == Some(ref)
    requires !ref.Str? ||
      (ref.s in storage &&
       (world.readFails(i) || !world.classify(i, storage[ref.s]).Answered? ||
        world.classify(i, storage[ref.s]).predictions.None?))
    ensures !Escapes(storage, images.items[i], i, world) ==>
      ProcessItem(storage, images.items[i], i, world) == Some(Failed(ref, PredictionFailed))
    ensures HandlePredict(storage, images, world).Response? ==>
      HandlePredict(storage, images, world).body.results[i] == Failed(ref, PredictionFailed)
  {
    if HandlePredict(storage, images, world).Response? {
      ResultAt(storage, images, world, i);
    }
  }

  /**
   * A reference object with a `toString` key: path.join rejects it, and the
   * catch block's log line then fails to convert it, so the whole request
   * goes unanswered.
   */
  lemma ReferenceWithToStringKeyEscapes(storage: Storage, world: World)
    ensures HandlePredict(storage, Arr([Obj(map["image" := Obj(map["toString" := Null])])]), world) == Unanswered
  {
  }

  /**
   * Failures are isolated: the result at a position depends only on the item
   * at that position, whatever the other items of the batch are.
   */
  lemma ResultIndependentOfOtherItems(storage: Storage, a: Value, b: Value, world: World, i: nat)
    requires a.Arr? && b.Arr? && i < |a.items| && i < |b.items| && a.items[i] == b.items[i]
    requires HandlePredict(storage, a, world).Response? && HandlePredict(storage, b, world).Response?
    ensures HandlePredict(storage, a, world).body.results[i] == HandlePredict(storage, b, world).body.results[i]
  {
    ResultAt(storage, a, world, i);
    ResultAt(storage, b, world, i);
  }
}
