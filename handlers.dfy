/**
 * The API handler (`APIHandler`): it holds the register document and the
 * loaded models, and renders the do-it-yourself form by running the chosen
 * model on the submitted text and decoding the class index it returns.
 */
module Handlers {
  import opened Wrappers
  import opened Json

  /** A loaded model. `predict` maps a batch of inputs to one class index per
      input, or fails (None), as the model's own `predict` may raise. */
  datatype Predictor = Predictor(predict: seq<Json> -> Option<seq<int>>)

  datatype Error =
    | KeyMiss(key: string)   // KeyError, or TypeError, looking up `key`
    | PredictFailed          // the model's `predict` raised
    | NoOutput               // the model returned nothing, so `[0]` raises IndexError

  /** What `form_renderer` returns: the model id, the decoded label, the
      submitted text as shown, and the model's description. */
  datatype Rendered = Rendered(formId: string, prediction: Json, text: string, description: Json)

  /** The number of characters of the submitted text that are shown. */
  const ShownLength: nat := 100

  /** The submitted text as shown: longer texts are cut and marked with "...". */
  function Truncate(text: string): (r: string)
    ensures |r| <= ShownLength + 3
    ensures |text| <= ShownLength ==> r == text
    ensures |text| > ShownLength ==>
              |r| == ShownLength + 3 && r[..ShownLength] == text[..ShownLength] && r[ShownLength..] == "..."
  {
    if |text| > ShownLength then text[..ShownLength] + "..." else text
  }

  /** `store[id].predict([input])[0]`. */
  function Classify(store: map<string, Predictor>, id: string, input: Json): (r: Result<int, Error>)
    ensures id !in store ==> r == Failure(KeyMiss(id))
    ensures r.Success? <==>
              id in store && store[id].predict([input]).Some? && store[id].predict([input]).value != []
    ensures r.Success? ==> r.value == store[id].predict([input]).value[0]
  {
    if id !in store then Failure(KeyMiss(id))
    else
      match store[id].predict([input])
      case None => Failure(PredictFailed)
      case Some(out) => if out == [] then Failure(NoOutput) else Success(out[0])
  }

  function Lookup(j: Json, key: string): Result<Json, Error> {
    match Field(j, key)
    case Some(v) => Success(v)
    case None => Failure(KeyMiss(key))
  }

  /** `register["register"][id]`. */
  function EntryOf(register: Json, id: string): (r: Result<Json, Error>)
    ensures r.Success? <==>
              Field(register, "register").Some? && Field(Field(register, "register").value, id).Some?
    ensures r.Success? ==> r.value == Field(Field(register, "register").value, id).value
  {
    match Lookup(register, "register")
    case Failure(e) => Failure(e)
    case Success(entries) => Lookup(entries, id)
  }

  /** `entry["payload"]["description"]`. */
  function DescriptionOf(entry: Json): (r: Result<Json, Error>)
    ensures r.Success? <==>
              Field(entry, "payload").Some? && Field(Field(entry, "payload").value, "description").Some?
    ensures r.Success? ==> r.value == Field(Field(entry, "payload").value, "description").value
  {
    match Lookup(entry, "payload")
    case Failure(e) => Failure(e)
    case Success(payload) => Lookup(payload, "description")
  }

  /** `entry["payload"]["answer_key"][str(p)]`: the label of class index `p`. */
  function DecodeLabel(entry: Json, p: int): (r: Result<Json, Error>)
    ensures r.Success? <==>
              && Field(entry, "payload").Some?
              && Field(Field(entry, "payload").value, "answer_key").Some?
              && Field(Field(Field(entry, "payload").value, "answer_key").value, IntToString(p)).Some?
    ensures r.Success? ==>
              r.value == Field(Field(Field(entry, "payload").value, "answer_key").value, IntToString(p)).value
  {
    match Lookup(entry, "payload")
    case Failure(e) => Failure(e)
    case Success(payload) =>
      match Lookup(payload, "answer_key")
      case Failure(e) => Failure(e)
      case Success(key) => Lookup(key, IntToString(p))
  }

  class APIHandler {
    /** The register document, set once. */
    const register: Json
    /** The loaded models by id, set once. */
    const picklestore: map<string, Predictor>

    constructor (register: Json, picklestore: map<string, Predictor>)
      ensures this.register == register && this.picklestore == picklestore
    {
      this.register := register;
      this.picklestore := picklestore;
    }

    /** `form_renderer(form)`: look up the form fields, run the model, look up
        the register entry, decode the label, cut the text. Each step raises
        before the next is tried. */
    function FormRenderer(form: map<string, string>): (r: Result<Rendered, Error>)
      ensures "pickles" !in form ==> r == Failure(KeyMiss("pickles"))
      ensures "pickles" in form && "article_text" !in form ==> r == Failure(KeyMiss("article_text"))
      ensures "pickles" in form && "article_text" in form &&
              Classify(picklestore, form["pickles"], JStr(form["article_text"])).Failure? ==>
                r == Failure(Classify(picklestore, form["pickles"], JStr(form["article_text"])).error)
      ensures r.Success? ==>
                && "pickles" in form && "article_text" in form
                && r.value.formId == form["pickles"]
                && r.value.text == Truncate(form["article_text"])
                && var p := Classify(picklestore, form["pickles"], JStr(form["article_text"]));
                   var entry := EntryOf(register, form["pickles"]);
                   && p.Success? && entry.Success?
                   && DescriptionOf(entry.value) == Success(r.value.description)
                   && DecodeLabel(entry.value, p.value) == Success(r.value.prediction)
      ensures "pickles" in form && "article_text" in form ==>
                (r.Success? <==>
                   var p := Classify(picklestore, form["pickles"], JStr(form["article_text"]));
                   var entry := EntryOf(register, form["pickles"]);
                   && p.Success? && entry.Success?
                   && DescriptionOf(entry.value).Success? && DecodeLabel(entry.value, p.value).Success?)
    {
      if "pickles" !in form then Failure(KeyMiss("pickles"))
      else if "article_text" !in form then Failure(KeyMiss("article_text"))
      else
        var formId, text := form["pickles"], form["article_text"];
        match Classify(picklestore, formId, JStr(text))
        case Failure(e) => Failure(e)
        case Success(p) =>
          match EntryOf(register, formId)
          case Failure(e) => Failure(e)
          case Success(entry) =>
            match DescriptionOf(entry)
            case Failure(e) => Failure(e)
            case Success(description) =>
              match DecodeLabel(entry, p)
              case Failure(e) => Failure(e)
              case Success(decoded) => Success(Rendered(formId, decoded, Truncate(text), description))
    }
  }
}
