/**
 * The decision logic of the two API routes of the web service: listing the
 * register (`GET /api/pickleregister`) and predicting (`POST /api/predict`).
 * Each route is a function from the request and the service state (the
 * registry's "all" id list, the loaded models and the handler) to a reply.
 * JSON encoding is the parameter `dumps`.
 */
module App {
  import opened Wrappers
  import opened Json
  import opened Handlers

  /** `abort(400)`; an exception the route does not catch (which the web
      framework turns into status 500); or status 201 with a JSON body. */
  datatype Reply = BadRequest | ServerError | Created(body: string)

  /** The status code of a reply. */
  function Status(r: Reply): int {
    match r
    case BadRequest => 400
    case ServerError => 500
    case Created(_) => 201
  }

  /** `get_register`, with `idArg` the `id` query parameter if present. */
  function GetRegister(idArg: Option<string>, allIds: seq<string>, ap: APIHandler, dumps: Json -> string): (r: Reply)
    ensures (idArg.None? || idArg.value == "") ==> r == Created(dumps(JStr(dumps(ap.register))))
    ensures idArg.Some? && idArg.value != "" && idArg.value !in allIds ==> r == BadRequest
    ensures idArg.Some? && idArg.value != "" && idArg.value in allIds ==>
              (r.Created? <==> EntryOf(ap.register, idArg.value).Success?) &&
              (r.Created? ==> r.body == dumps(JObj(map["register" := EntryOf(ap.register, idArg.value).value])))
    ensures r != BadRequest ==> Status(r) != 400 && (idArg.None? || idArg.value == "" || idArg.value in allIds)
    ensures idArg.Some? && idArg.value != "" && idArg.value in allIds && EntryOf(ap.register, idArg.value).Failure? ==>
              r == ServerError
  {
    if idArg.None? || idArg.value == "" then
      Created(dumps(JStr(dumps(ap.register))))
    else if idArg.value !in allIds then
      BadRequest
    else
      match EntryOf(ap.register, idArg.value)
      case Failure(_) => ServerError
      case Success(entry) => Created(dumps(JObj(map["register" := entry])))
  }

  /** The request's id is a registered id. */
  predicate KnownId(body: Json, allIds: seq<string>) {
    exists x :: x in allIds && Field(body, "id") == Some(JStr(x))
  }

  /** `post_prediction`, with `body` the request's decoded JSON body (None when
      the request is not JSON) and `store` the loaded models. */
  function PostPrediction(body: Option<Json>, allIds: seq<string>, store: map<string, Predictor>,
                          ap: APIHandler, dumps: Json -> string): (r: Reply)
    ensures body.None? || !Truthy(body.value) ==> r == BadRequest
    ensures body.Some? && Truthy(body.value) && Field(body.value, "id").Some? && !KnownId(body.value, allIds) ==>
              r == BadRequest
    ensures body.Some? && Truthy(body.value) && KnownId(body.value, allIds) && Field(body.value, "text").Some? ==>
              var id := Field(body.value, "id").value.s;
              id in store && Classify(store, id, Field(body.value, "text").value).Failure? ==> r == BadRequest
    ensures body.Some? && Truthy(body.value) && Field(body.value, "id").None? ==> r == ServerError
    ensures body.Some? && Truthy(body.value) && KnownId(body.value, allIds) ==>
              var id := Field(body.value, "id").value.s;
              && (id !in store ==> r == ServerError)
              && (id in store && Field(body.value, "text").None? ==> r == BadRequest)
    ensures body.Some? && Truthy(body.value) && KnownId(body.value, allIds) && Field(body.value, "text").Some? ==>
              var id := Field(body.value, "id").value.s;
              var p := Classify(store, id, Field(body.value, "text").value);
              id in store && p.Success? ==>
                var entry := EntryOf(ap.register, id);
                r == if entry.Success? && DecodeLabel(entry.value, p.value).Success?
                     then Created(dumps(JObj(map["prediction" := DecodeLabel(entry.value, p.value).value,
                                                 "register" := entry.value])))
                     else ServerError
    ensures r.Created? ==>
              && body.Some? && KnownId(body.value, allIds)
              && Field(body.value, "text").Some?
              && var id := Field(body.value, "id").value.s;
                 var p := Classify(store, id, Field(body.value, "text").value);
                 var entry := EntryOf(ap.register, id);
                 && p.Success? && entry.Success? && DecodeLabel(entry.value, p.value).Success?
                 && r.body == dumps(JObj(map["prediction" := DecodeLabel(entry.value, p.value).value,
                                             "register" := entry.value]))
  {
    if body.None? || !Truthy(body.value) then BadRequest
    else
      var request := body.value;
      match Field(request, "id")
      case None => ServerError
      case Some(given) =>
        if !(given.JStr? && given.s in allIds) then BadRequest
        else
          var id := given.s;
          if id !in store then ServerError
          else
            match Field(request, "text")
            case None => BadRequest
            case Some(text) =>
              match Classify(store, id, text)
              case Failure(_) => BadRequest
              case Success(p) =>
                match EntryOf(ap.register, id)
                case Failure(_) => ServerError
                case Success(entry) =>
                  match DecodeLabel(entry, p)
                  case Failure(_) => ServerError
                  case Success(decoded) =>
                    Created(dumps(JObj(map["prediction" := decoded, "register" := entry])))
  }

  /** An unknown id is refused with 400 whatever models are loaded: the
      request is refused before any model is touched. */
  lemma UnknownIdIgnoresModels(body: Json, allIds: seq<string>, s1: map<string, Predictor>,
                               s2: map<string, Predictor>, ap: APIHandler, dumps: Json -> string)
    requires Truthy(body) && Field(body, "id").Some? && !KnownId(body, allIds)
    ensures PostPrediction(Some(body), allIds, s1, ap, dumps) == PostPrediction(Some(body), allIds, s2, ap, dumps)
    ensures Status(PostPrediction(Some(body), allIds, s1, ap, dumps)) == 400
  {
  }
}
