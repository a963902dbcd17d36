# newsCLF registry, handler and tuning tool in Dafny

newsCLF is a small web service that serves predictions from pickled text
classification pipelines, together with an offline tool that tunes such a
pipeline and writes it up as a registry entry. This project models four pieces
of it and proves properties of each.

- **The model registry** (`PickleRegister`, module `Registry`, `registry.dfy`).
  It is a class with three fields:
  - `register`: the list of `{id, pickletype, payload}` records;
  - `ids`: the index from `"all"` and from each pickletype to that type's ids;
  - `pickletypes`: the set of known types.

  A ghost field `file` holds the list the register file was last written with.
  The model covers construction (validation and the one-type and many-type
  index builds), `new_entry`, `update_entry`, `delete_entry`, and the id
  selection of `load_pickles`. Pure specification functions (`AllIds`,
  `IdsOfType`, `Types`, `BuildIndex`, `Without`, `Occurrences`) say what the
  comprehensions compute. The index invariant is the predicate `Indexed()`:
  the live index equals what construction derives from the register.
  `new_entry` is proved to preserve it, and to write a file that reloads to
  the same index, as long as no pickletype is the literal `"all"`.
- **The API handler** (`APIHandler`, module `Handlers`). It holds the register
  document and the loaded models. `FormRenderer` runs a model on the submitted
  text and decodes the class index through the answer key by `str(index)`. It
  also looks up the description and cuts the text to 100 characters plus
  `"..."`.
- **The two API routes** (module `App`). `get_register` and `post_prediction`
  are functions from the request and the service state to a reply:
  - 400 for `abort(400)`;
  - 500 for an exception the route does not catch;
  - 201 with the JSON body.
- **The tuning tool** (`TextPipliner`, module `Pipedev`). It is a class whose
  setters and `run` update its fields. `AsRegistry` builds the entry (answer
  key, components, score and so on) and records it as written to `fp`.

Module `EndToEnd` connects the tuning tool to the service. The answer key is
built with integer keys (`pipedev.py`), written and read back as JSON (so each
key becomes `str(i)`), and looked up by `str(prediction)` (`handlers.py`,
`main.py`). Decoding index `i` then yields the i-th category. For an index
outside the categories, the lookup fails.

The model follows the code as written where it departs from what its comments
intend:
- `update_entry`'s loop only rebinds its loop variable, so the register never
  changes.
- `delete_entry` computes the filtered list but writes the unfiltered register
  back.
- `delete_entry` with `raise_notfound=False` reads the unbound `size` and fails
  with `NameError` (`UnboundSize`).
- A pickletype named `"all"` shares its list with the all-ids list, so
  `new_entry` appends the id to it twice.

Supporting modules:
- `Wrappers`: `Option`, `Result` and `Outcome`.
- `Json`: decoded JSON values, Python truthiness, `v[key]` lookup, and `str` of
  an int, with its injectivity.
- `Paths`: POSIX `os.path.join` of two arguments.

## Model

Some specification functions carry no contract of their own. Each is
specified by the lemma or method in the row named here:
- `Registry.IdsOfType`, by `Registry.IdsOfTypeMembers`.
- `Registry.Types`, by `Registry.TypesMembers`.
- `Registry.IndexOver` and `Registry.BuildIndex`, by `Registry.BuildIndexShape`, `Registry.IndexByLabel` and `Registry.IndexAfterAppend`.
- `Pipedev.AnswerKey` and `Pipedev.MakeEntry`, by `Pipedev.EntryFields`.
- `Pipedev.EncodeIntKeys`, by `Pipedev.EncodeIntKeysDecodes`.
- `Pipedev.EntryToJson`, by `Pipedev.EntryToJsonKeys`, `Pipedev.EntryToJsonFields` and `Pipedev.EntryToJsonComponents`.
- The getters `Pipedev.TextPipliner.GetPickleRegistry`, `GetPipeline`, `GetSearchParams` and `GetCategories` (pipedev.py:27-41), by the setter rows, whose contracts are stated through them; the constructor row states the fields they return.
- `Json.Truthy`, by `Json.FalsyValues`.
- `Json.DigitsValue`, by `Json.NatToStringValue` and `Json.IntToStringValue`.
- `Json.Field`, Python's `v[key]` on a decoded value (registry.py:69, 110; main.py:84, 90, 96-97), is the primitive lookup: the rows `Registry.ResolveId`, `Registry.UpdateCheck`, `App.PostPrediction`, `Handlers.EntryOf`, `Handlers.DescriptionOf` and `Handlers.DecodeLabel` state their results through it.
- `Handlers.Lookup`, the same `v[key]` raising KeyError as in handlers.py:20-25, by `Handlers.EntryOf`, `Handlers.DescriptionOf` and `Handlers.DecodeLabel`, which it computes.

| member | source | states |
|---|---|---|
| Registry.ReadRegister | app/pipeliner/registry.py:24-33 | a new register reads as the empty list; a missing file is an error; a document that is not a list is refused as an invalid register; otherwise the records are the file's list |
| Registry.PickleRegister.Load | app/pipeliner/registry.py:19-51 | a read error is returned unchanged; otherwise a fresh register holds exactly the records read, with the derived index and type set, and the file holds the register |
| Registry.PickleRegister.FromRecords | app/pipeliner/registry.py:35-51 | after construction the register is the given records, the index is the one derived from them and the type set is their pickletypes |
| Registry.IndexByLabel | app/pipeliner/registry.py:43-48 | the many-type loop yields "all" mapped to every id and each label mapped to its bucket |
| Registry.IndexOverStep | app/pipeliner/registry.py:46-48 | setting one more label's bucket extends the partial index by that label |
| Registry.SingletonSet | app/pipeliner/registry.py:36-40 | a type set of size one is the singleton of the element taken from it |
| Registry.OneTypeBranch | app/pipeliner/registry.py:36-42 | the one-type branch's two-key dict equals the index the many-type branch derives |
| Registry.OneTypeBucketIsAll | app/pipeliner/registry.py:36-42 | when every record has type t, the bucket of t lists every id in register order |
| Registry.AllIds | app/pipeliner/registry.py:39 | the "all" list has one id per record, the k-th being the k-th record's id |
| Registry.IdsOfType | app/pipeliner/registry.py:47-48 | a bucket is never longer than the register (its contents are stated by IdsOfTypeMembers) |
| Registry.IdsOfTypeAppend | app/pipeliner/registry.py:47-48 | appending a record extends the bucket of its type by its id at the end and leaves every other bucket as it was, so buckets keep register order |
| Registry.AllIdsAppend | app/pipeliner/registry.py:39 | appending a record extends the "all" list by its id at the end |
| Registry.TypesAppend | app/pipeliner/registry.py:35 | appending a record adds its pickletype to the type set |
| Registry.IdsOfTypeMembers | app/pipeliner/registry.py:47-48 | an id is in the bucket of t exactly when some record of type t has that id |
| Registry.TypesMembers | app/pipeliner/registry.py:35 | a type is in the type set exactly when some record has it |
| Registry.BuildIndexShape | app/pipeliner/registry.py:35-48 | the derived index's keys are the types plus "all"; "all" lists every id in order unless a type is "all"; each bucket holds exactly its type's ids |
| Registry.MakeRecord | app/pipeliner/registry.py:79 | the stored record has exactly the keys id, pickletype and payload, holding the given values |
| Registry.ResolveEntry | app/pipeliner/registry.py:56-65 | a path reads the document at the path or fails; a dict is kept; any other value is refused |
| Registry.ResolveId | app/pipeliner/registry.py:67-69 | a truthy id is used; otherwise it succeeds exactly when entry["name"] is a string, and then uses it |
| Registry.Registered | app/pipeliner/registry.py:71-76 | the duplicate scan reports true exactly when the id is in the "all" list |
| Registry.Admit | app/pipeliner/registry.py:56-79 | an unresolvable entry or id fails with that error; a resolved id (explicit, or entry["name"] when the id is falsy) is admitted exactly when it is not in the "all" list, and is then the record's id; a listed one is refused as a duplicate of it; an admitted record has the requested pickletype and the resolved payload |
| Registry.ReadmitRefused | app/pipeliner/registry.py:71-76 | once an admitted entry's id is listed, admitting the same entry again is refused as a duplicate of that id, whether the id was given or came from the name |
| Registry.AdmitByName | app/pipeliner/registry.py:67-79 | with no id or an empty one, a named entry is refused if its name is listed and otherwise stored as the record {name, pickletype, entry} |
| Registry.InsertId | app/pipeliner/registry.py:82-88 | the id is appended to "all" and to the type's bucket, which is created empty if new; every other bucket is unchanged; for type "all" the one list gets the id twice |
| Registry.PickleRegister.Append | app/pipeliner/registry.py:81-91 | the record is appended to the register, the index is updated by InsertId, the type is added only if it was not a key, and the file is the new register |
| Registry.PickleRegister.NewEntry | app/pipeliner/registry.py:53-93 | the outcome is Admit's, so an entry whose explicit or name-derived id is listed is refused; a refused entry changes nothing and returns the refusal; an admitted one is appended as above, after which its id is listed and a second registration is refused (ReadmitRefused); the index invariant, the reload property and distinct ids are preserved when no type is "all" |
| Registry.IndexAfterAppend | app/pipeliner/registry.py:82-88 | deriving the index from the register plus one record equals applying InsertId to the old derived index |
| Registry.IndexAfterAppendAt | app/pipeliner/registry.py:82-88 | the same equality, at one key of the index |
| Registry.AppendKeepsIndex | app/pipeliner/registry.py:82-91 | appending a record with an unlisted id keeps a derived index derived and distinct ids distinct |
| Registry.UpdateCheck | app/pipeliner/registry.py:98-113 | an entry that cannot be resolved fails with the resolution error; a missing "id" fails with MissingId; a present "id" passes when it is a registered id and otherwise fails with UnknownId of that value |
| Registry.PickleRegister.UpdateEntry | app/pipeliner/registry.py:95-123 | register, index and types never change; the outcome is UpdateCheck's; a passing update rewrites the file with the unchanged register |
| Registry.Occurrences | app/pipeliner/registry.py:130-139 | the count of records with the id is zero exactly when the id is not listed |
| Registry.Without | app/pipeliner/registry.py:132 | the filtered list holds exactly the records whose id differs, and is shorter by the number of records with the id |
| Registry.OccurrencesOfDistinct | app/pipeliner/registry.py:134-139 | with distinct ids an id occurs once if registered and never otherwise |
| Registry.PickleRegister.DeleteEntry | app/pipeliner/registry.py:125-146 | without raise_notfound the call fails on the unbound size; with it, more than one match is the panic error, no match is not-found, one match passes; register, index and types never change |
| Registry.DeleteKnownIdPasses | app/pipeliner/registry.py:134-141 | with distinct ids, deletion finds exactly one record precisely for registered ids |
| Registry.SelectIds | app/pipeliner/registry.py:154-163 | a falsy subset selects every registered id; a string selects its characters; a list of strings selects its elements; a dict selects its keys; other truthy values are not iterable |
| Registry.PickleRegister.LoadPickles | app/pipeliner/registry.py:148-172 | the result's keys are the selected ids, each loaded from storepath joined with the id; it fails exactly when some selected artifact is unreadable |
| Paths.Join | app/pipeliner/registry.py:168 | the joined path ends with the second part; an absolute second part replaces the first; otherwise the first part is a prefix, and exactly one "/" is inserted between the parts when the first part is non-empty and does not end in "/", none otherwise |
| Handlers.APIHandler.constructor | app/pipeliner/handlers.py:8-10 | the handler's register document and model store are the given ones |
| Handlers.Classify | app/pipeliner/handlers.py:16-18 | an unknown id is a key miss; the call succeeds exactly when the model returns a non-empty output for the one-element batch, and yields its first element |
| Handlers.EntryOf | app/pipeliner/handlers.py:20 | the register lookup succeeds exactly when register["register"][id] exists, and yields it |
| Handlers.DescriptionOf | app/pipeliner/handlers.py:22 | succeeds exactly when payload.description exists, and yields it |
| Handlers.DecodeLabel | app/pipeliner/handlers.py:25 | succeeds exactly when the answer key has the key str(p), and yields that label |
| Handlers.Truncate | app/pipeliner/handlers.py:27-28 | text of at most 100 characters is unchanged; longer text becomes its first 100 characters followed by "...", 103 in all |
| Handlers.APIHandler.FormRenderer | app/pipeliner/handlers.py:12-30 | missing form fields and model failures fail in source order; a success returns the form's id, the decoded label of the model's first output, the entry's description and the truncated text, and it succeeds exactly when every lookup does |
| App.GetRegister | app/main.py:59-73 | no id gives 201 with the register serialised twice; an unknown id gives 400; a known id gives 201 with {"register": entry} serialised once when the entry exists, and 500 when the register lookup raises |
| App.PostPrediction | app/main.py:76-101 | a missing or falsy body, an unknown id, a missing "text" or a failing model gives 400; a missing "id" or a known id with no loaded model gives 500; once the model answers, the reply is 201 with the decoded label of its first output and the entry when the entry and label lookups succeed, and 500 when either raises |
| App.UnknownIdIgnoresModels | app/main.py:83-88 | an unknown id is refused with 400 whatever models are loaded |
| Pipedev.TextPipliner.constructor | app/pipeliner/pipedev.py:16-24 | name, registry, pipeline, search parameters and categories are stored as given; score and path are unset |
| Pipedev.TextPipliner.SetPipeline | app/pipeliner/pipedev.py:43-45 | the pipeline getter then returns the value set; no other field changes |
| Pipedev.TextPipliner.SetSearchParams | app/pipeliner/pipedev.py:47-49 | the search-parameter getter then returns the value set; no other field changes |
| Pipedev.TextPipliner.SetCategories | app/pipeliner/pipedev.py:51-53 | the category getter then returns the value set; no other field changes |
| Pipedev.TextPipliner.Run | app/pipeliner/pipedev.py:56-127 | a missing persistence directory fails before the fetch; a failing fetch fails with the categories unchanged; otherwise categories become the fetched names, then a missing pipeline or non-dict parameters fail; success sets the score and, when persisting, the joined path returned with the search |
| Pipedev.TextPipliner.AsRegistry | app/pipeliner/pipedev.py:129-163 | an unset path or unreadable artifact fails; the reloaded pipeline replaces the field; with categories set, the returned entry is built from the fields and is recorded as written to fp, replacing or appending |
| Pipedev.Components | app/pipeliner/pipedev.py:148-150 | one class name per step, in step order |
| Pipedev.EntryFields | app/pipeliner/pipedev.py:144-154 | the entry's answer key has domain exactly the category indices and maps i to the i-th category; name, score, parameters and description are copied; components follow the steps |
| Pipedev.EncodeIntKeysDecodes | app/pipeliner/registry.py:90-91 | after `new_entry` writes an int-keyed dict into the register file and the service reads the file back (registry.py:28-29, main.py:11), or the tool writes it to `fp` (pipedev.py:159), str(i) is a key exactly when i was, with the same value |
| Pipedev.EntryToJsonKeys | app/pipeliner/pipedev.py:144-154 | the written entry has exactly the keys name, answer_key, components, score, search_params and description |
| Pipedev.EntryToJsonFields | app/pipeliner/pipedev.py:144-154 | each written key holds the matching field, the answer key with its keys converted by str |
| Pipedev.EntryToJsonComponents | app/pipeliner/pipedev.py:148-150 | the written components are the class names as strings, in step order |
| Pipedev.AnswerKeyKeys | app/pipeliner/pipedev.py:146 | after the JSON round trip, the answer key's keys are exactly str(i) for the indices i of the categories, and nothing else |
| Pipedev.DecodeAnswerKey | app/pipeliner/pipedev.py:146 | after the JSON round trip, str(i) is a key exactly when i indexes the categories, and maps to the i-th category |
| Json.FalsyValues | app/main.py:80 | a value is falsy exactly when it is None, False, zero, or an empty string, list or dict |
| Json.NatToString | app/main.py:97 | the decimal form is non-empty, all digits, without a leading zero, and one digit long exactly for values below 10 |
| Json.NatToStringValue | app/main.py:97 | the digits NatToString writes denote its argument, most significant first |
| Json.IntToStringValue | app/main.py:97 | str(i) is the digits of i for i >= 0, and a minus sign followed by the digits of -i otherwise |
| Json.IntToString | app/main.py:97 | the decimal form is non-empty and starts with "-" exactly for negative values |
| Json.NatToStringInjective | app/main.py:97 | distinct naturals have distinct decimal forms |
| Json.IntToStringInjective | app/main.py:97 | distinct ints have distinct str forms |
| EndToEnd.RegisteredLabelDecodes | app/pipeliner/pipedev.py:146 | a tool-built registry record decodes class index p to the p-th category, and fails with a key miss for any other index |
| EndToEnd.SingleEntryLookup | app/pipeliner/handlers.py:20-25 | in a one-entry register document, the id finds the record, its description and the label of each category index |
| EndToEnd.FormServesCategory | app/pipeliner/handlers.py:12-30 | the form for a tool-built entry shows the category of the model's output, the entry's description and the truncated text |
| EndToEnd.PostsLabel | app/main.py:76-101 | when classification, lookup and decoding succeed, the prediction route replies 201 with the label and the entry |
| EndToEnd.PredictionServesCategory | app/main.py:95-101 | the prediction route for a tool-built entry replies 201 with the category of the model's output |
| EndToEnd.HamSpam | app/pipeliner/handlers.py:25 | with categories ham and spam and a model answering 1, the form shows "spam" |
| EndToEnd.SmallDecimals | app/pipeliner/handlers.py:25 | str(0) is "0" and str(1) is "1" |
| EndToEnd.HamSpamKey | app/pipeliner/pipedev.py:146 | the tool writes the answer key of categories ham and spam as the literal {"0": "ham", "1": "spam"} |
| EndToEnd.HamSpamLiteral | app/pipeliner/handlers.py:12-30 | for an entry whose answer key is the literal {"0": "ham", "1": "spam"}, a model answering 1 makes the form return "spam" with the entry's description and the truncated text |

## Left out

- File I/O: reading a JSON file is the parameter `files`, a map from path to parsed document; an unreadable or unparsable file is `FileUnreadable`. Writing the register file is the ghost field `file`. The empty list that `new_register=True` writes is read back directly rather than through `files`.
- JSON serialisation in the routes is the parameter `dumps`; its output format is not modelled.
- joblib, scikit-learn and the dataset download are foreign code. `fetch_20newsgroups` is the parameter `fetch`, which gives None where the download raises, the best score of fitting is the parameter `bestScore`, `joblib.load` is the parameter `load`, and a model's `predict` is a function value. Dumping the artifact in `run` is not modelled.
- `GridSearchCV` keyword validation and the errors `fit` may raise are not modelled; non-dict search parameters are the only refusal.
- The in-place `set_params`/`fit` of the persisted pipeline in `run` is not modelled; the pipeline value is left as it was.
- Pipeline truthiness: `if self._pipeline` is modelled as "a pipeline was set"; an object that is falsy through `__len__` is not distinguished.
- Floating-point scores are modelled as real numbers and never compared.
- The verbose printing and timing of `run` are left out.
- Flask routing, templates, Markdown pages and the `Response` subclasses are left out; a route's reply is its status and body only.
- The handler is given the register document directly. In the source, `APIHandler.__init__` is passed the `PickleRegister` and keeps its record list `register._register`, while the routes and `form_renderer` index that value as `{"register": {id: entry}}`. The model keeps the document shape that the lookups use, and does not reconcile it with the list.
- Aliasing between the handler's register and the registry's list is not modelled; the handler's fields are constants.
- The exception types are collapsed into one `Error` datatype per module. KeyError, TypeError and IndexError are distinguished only where the outcome differs.
- Ids, names and pickletypes are strings. A stored record without a string `"id"` or `"pickletype"` is refused at load time (`MalformedRecord`), and a non-string `entry["name"]` in `new_entry` is refused (`NameNotString`). Python would accept any hashable value in those places.
- Dict key order is not modelled; JSON objects are maps.
- Registry.PickleRegister.NewEntry: entries are decoded JSON values, so the record kept in memory is the record the file reads back as. The driver passes the dict from `as_registry` straight to `new_entry`, with int keys in `answer_key` and tuples in `search_params`; the source keeps that dict as it is in `_register` and writes it with string keys and lists. For such an entry the reload property holds for the index, ids and types only, not for the records themselves.
- Registry.PickleRegister.NewEntry: the index invariant and the reload property are stated only when no pickletype is `"all"`; with such a type the index gets the id twice, which is stated through `InsertId` instead.
- Paths.Join: models POSIX `os.path.join` with two arguments only.
- The driver script `thrifty_tailor.py` is not part of this model.
