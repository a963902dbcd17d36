/**
 * How the pieces meet: the tuning tool builds the answer key with integer
 * keys, the registry file stores it with string keys, and both the form
 * handler and the prediction route look the label up by `str` of the class
 * index the model returns.
 */
module EndToEnd {
  import opened Wrappers
  import opened Json
  import Registry
  import Handlers
  import App
  import Pipedev

  /** A register document with the single record `record` under `id`. */
  function SingleEntryDocument(id: string, record: Json): Json {
    JObj(map["register" := JObj(map[id := record])])
  }

  /** A registered entry built by the tuning tool decodes class index `p` to the
      p-th category, and fails on any index outside the categories. */
  lemma RegisteredLabelDecodes(id: string, pickletype: string, e: Pipedev.Entry, categories: seq<string>, p: int)
    requires e.answerKey == Pipedev.AnswerKey(categories)
    ensures Handlers.DecodeLabel(Registry.MakeRecord(id, pickletype, Pipedev.EntryToJson(e)), p) ==
              if 0 <= p < |categories| then Success(JStr(categories[p]))
              else Failure(Handlers.KeyMiss(IntToString(p)))
  {
    Pipedev.DecodeAnswerKey(categories, p);
  }

  /** In the single-entry document, `id` looks up the record and the record
      decodes index `p` to the p-th category. */
  lemma SingleEntryLookup(id: string, pickletype: string, e: Pipedev.Entry, categories: seq<string>, p: int)
    requires e.answerKey == Pipedev.AnswerKey(categories) && 0 <= p < |categories|
    ensures var record := Registry.MakeRecord(id, pickletype, Pipedev.EntryToJson(e));
      && Handlers.EntryOf(SingleEntryDocument(id, record), id) == Success(record)
      && Handlers.DescriptionOf(record) == Success(JStr(e.description))
      && Handlers.DecodeLabel(record, p) == Success(JStr(categories[p]))
  {
    RegisteredLabelDecodes(id, pickletype, e, categories, p);
    var record := Registry.MakeRecord(id, pickletype, Pipedev.EntryToJson(e));
    assert Field(SingleEntryDocument(id, record), "register") == Some(JObj(map[id := record]));
    assert Field(record, "payload") == Some(Pipedev.EntryToJson(e));
  }

  /** Serving a tool-built entry from the form: the page shows the category
      of the index the model returns, and the entry's description. */
  lemma FormServesCategory(ap: Handlers.APIHandler, id: string, pickletype: string,
                           e: Pipedev.Entry, categories: seq<string>, text: string, p: int)
    requires e.answerKey == Pipedev.AnswerKey(categories) && 0 <= p < |categories|
    requires ap.register == SingleEntryDocument(id, Registry.MakeRecord(id, pickletype, Pipedev.EntryToJson(e)))
    requires Handlers.Classify(ap.picklestore, id, JStr(text)) == Success(p)
    ensures ap.FormRenderer(map["pickles" := id, "article_text" := text]) ==
              Success(Handlers.Rendered(id, JStr(categories[p]), Handlers.Truncate(text), JStr(e.description)))
  {
    SingleEntryLookup(id, pickletype, e, categories, p);
    var form := map["pickles" := id, "article_text" := text];
    assert form["pickles"] == id && form["article_text"] == text;
  }

  /** Serving a tool-built entry through the prediction route: status 201
      with the category of the index the model returns and the record. */
  lemma PredictionServesCategory(ap: Handlers.APIHandler, store: map<string, Handlers.Predictor>,
                                 allIds: seq<string>, id: string, pickletype: string,
                                 e: Pipedev.Entry, categories: seq<string>, text: string, p: int,
                                 dumps: Json -> string)
    requires e.answerKey == Pipedev.AnswerKey(categories) && 0 <= p < |categories|
    requires ap.register == SingleEntryDocument(id, Registry.MakeRecord(id, pickletype, Pipedev.EntryToJson(e)))
    requires id in allIds && Handlers.Classify(store, id, JStr(text)) == Success(p)
    ensures App.PostPrediction(Some(JObj(map["id" := JStr(id), "text" := JStr(text)])), allIds, store, ap, dumps) ==
              App.Created(dumps(JObj(map["prediction" := JStr(categories[p]),
                                         "register" := Registry.MakeRecord(id, pickletype, Pipedev.EntryToJson(e))])))
  {
    SingleEntryLookup(id, pickletype, e, categories, p);
    var record := Registry.MakeRecord(id, pickletype, Pipedev.EntryToJson(e));
    PostsLabel(allIds, store, ap, dumps, id, text, p, record, JStr(categories[p]));
  }

  /** The prediction route answers 201 with `category` whenever the model, the
      register lookup and the answer key all succeed for the request. */
  lemma PostsLabel(allIds: seq<string>, store: map<string, Handlers.Predictor>, ap: Handlers.APIHandler,
                   dumps: Json -> string, id: string, text: string, p: int, record: Json, category: Json)
    requires id in allIds && Handlers.Classify(store, id, JStr(text)) == Success(p)
    requires Handlers.EntryOf(ap.register, id) == Success(record)
    requires Handlers.DecodeLabel(record, p) == Success(category)
    ensures App.PostPrediction(Some(JObj(map["id" := JStr(id), "text" := JStr(text)])), allIds, store, ap, dumps) ==
              App.Created(dumps(JObj(map["prediction" := category, "register" := record])))
  {
    var body := JObj(map["id" := JStr(id), "text" := JStr(text)]);
    assert Truthy(body) by { assert "id" in body.fields; }
    assert Field(body, "id") == Some(JStr(id));
    assert Field(body, "text") == Some(JStr(text));
  }

  /** The two-category example: with answer key {"0": "ham", "1": "spam"} and
      a model that returns class 1, the label served is "spam". */
  lemma HamSpam(ap: Handlers.APIHandler, id: string, text: string, e: Pipedev.Entry)
    requires e.answerKey == Pipedev.AnswerKey(["ham", "spam"])
    requires ap.register == SingleEntryDocument(id, Registry.MakeRecord(id, "pipeline", Pipedev.EntryToJson(e)))
    requires id in ap.picklestore && ap.picklestore[id].predict([JStr(text)]) == Some([1])
    ensures ap.FormRenderer(map["pickles" := id, "article_text" := text]).Success?
    ensures ap.FormRenderer(map["pickles" := id, "article_text" := text]).value.prediction == JStr("spam")
  {
    FormServesCategory(ap, id, "pipeline", e, ["ham", "spam"], text, 1);
  }

  /** `str(0)` is "0" and `str(1)` is "1". */
  lemma SmallDecimals()
    ensures IntToString(0) == "0" && IntToString(1) == "1"
  {
  }

  /** The tool writes the answer key of categories ham and spam as the literal
      document {"0": "ham", "1": "spam"}. */
  lemma HamSpamKey()
    ensures Pipedev.EncodeIntKeys(Pipedev.AnswerKey(["ham", "spam"])) == map["0" := JStr("ham"), "1" := JStr("spam")]
  {
    var cats := ["ham", "spam"];
    var enc, lit := Pipedev.EncodeIntKeys(Pipedev.AnswerKey(cats)), map["0" := JStr("ham"), "1" := JStr("spam")];
    SmallDecimals();
    Pipedev.DecodeAnswerKey(cats, 0);
    Pipedev.DecodeAnswerKey(cats, 1);
    forall s | s in enc ensures s in lit {
      var k :| k in Pipedev.AnswerKey(cats) && IntToString(k) == s;
      assert k == 0 || k == 1;
    }
    assert enc.Keys == lit.Keys;
  }

  /** The example over a register entry whose answer key is the literal
      {"0": "ham", "1": "spam"}: a model answering 1 makes the form show "spam". */
  lemma HamSpamLiteral(ap: Handlers.APIHandler, id: string, text: string, record: Json, description: Json)
    requires ap.register == SingleEntryDocument(id, record)
    requires Field(record, "payload").Some?
    requires Field(Field(record, "payload").value, "answer_key") == Some(JObj(map["0" := JStr("ham"), "1" := JStr("spam")]))
    requires Field(Field(record, "payload").value, "description") == Some(description)
    requires Handlers.Classify(ap.picklestore, id, JStr(text)) == Success(1)
    ensures ap.FormRenderer(map["pickles" := id, "article_text" := text]) ==
              Success(Handlers.Rendered(id, JStr("spam"), Handlers.Truncate(text), description))
  {
    SmallDecimals();
    assert Field(SingleEntryDocument(id, record), "register") == Some(JObj(map[id := record]));
    var form := map["pickles" := id, "article_text" := text];
    assert form["pickles"] == id && form["article_text"] == text;
  }
}
