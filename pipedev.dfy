/**
 * The tuning tool (`TextPipliner`): it holds a pipeline, grid-search
 * parameters and newsgroup categories, runs a grid search over them, and
 * expresses the result as an entry for the registry.
 *
 * The machine-learning library is not modelled: fetching the dataset is the
 * parameter `fetch` (requested categories to the target names it returns),
 * fitting is the parameter `bestScore`, and loading a persisted pipeline is
 * the parameter `load`. A pipeline is modelled by its steps' names and
 * class names.
 */
module Pipedev {
  import opened Wrappers
  import opened Json
  import Paths

  /** A pipeline step: its name and the class name of its estimator. */
  datatype Step = Step(name: string, className: string)

  datatype Pipeline = Pipeline(steps: seq<Step>)

  /** The grid search `run` builds: the estimator, the keyword arguments it
      was given, and the best score fitting found. */
  datatype GridSearch = GridSearch(estimator: Pipeline, params: map<string, Json>, bestScore: real)

  datatype Error =
    | NotADirectory(dir: string)     // the persistence directory does not exist
    | MissingPipeline                // no pipeline was set
    | ParamsNotMapping               // `**search_params` on a value that is not a dict
    | PathUnset                      // `self.path` read before a persisting run set it
    | ArtifactUnreadable(path: string)  // loading the persisted pipeline fails
    | CategoriesUnset                // `enumerate(None)`
    | FetchFailed                    // `fetch_20newsgroups` raises

  /** The registry entry `as_registry` returns; `answerKey` has integer keys. */
  datatype Entry = Entry(
    name: string,
    answerKey: map<int, string>,
    components: seq<string>,
    score: Option<real>,
    searchParams: Json,
    description: string)

  /** `{i: y for i, y in enumerate(categories)}`. */
  function AnswerKey(categories: seq<string>): map<int, string> {
    map i | 0 <= i < |categories| :: categories[i]
  }

  /** The class names of the steps' estimators, in step order. */
  function Components(steps: seq<Step>): (r: seq<string>)
    ensures |r| == |steps|
    ensures forall k :: 0 <= k < |steps| ==> r[k] == steps[k].className
  {
    if steps == [] then [] else [steps[0].className] + Components(steps[1..])
  }

  /** The entry built from the tool's fields and the description. */
  function MakeEntry(name: string, categories: seq<string>, pipeline: Pipeline, score: Option<real>,
                     searchParams: Json, description: string): Entry
  {
    Entry(name, AnswerKey(categories), Components(pipeline.steps), score, searchParams, description)
  }

  /** How `json.dump` writes an int-keyed dict and `json.load` reads it back:
      each key `k` becomes the string `str(k)`. */
  function EncodeIntKeys(m: map<int, string>): map<string, Json> {
    assert forall a, b :: IntToString(a) == IntToString(b) ==> a == b by {
      forall a, b | IntToString(a) == IntToString(b) ensures a == b {
        IntToStringInjective(a, b);
      }
    }
    map k | k in m :: IntToString(k) := JStr(m[k])
  }

  /** An entry as it reads once it has been written as JSON and loaded back. */
  function EntryToJson(e: Entry): Json {
    JObj(map[
      "name" := JStr(e.name),
      "answer_key" := JObj(EncodeIntKeys(e.answerKey)),
      "components" := JArr(seq(|e.components|, k requires 0 <= k < |e.components| => JStr(e.components[k]))),
      "score" := (if e.score.Some? then JNum(e.score.value) else JNull),
      "search_params" := e.searchParams,
      "description" := JStr(e.description)])
  }

  /** Writing an int-keyed dict and reading it back: `str(i)` is a key exactly
      when `i` was one, and holds the same value. */
  lemma EncodeIntKeysDecodes(m: map<int, string>, i: int)
    ensures IntToString(i) in EncodeIntKeys(m) <==> i in m
    ensures i in m ==> EncodeIntKeys(m)[IntToString(i)] == JStr(m[i])
  {
    if IntToString(i) in EncodeIntKeys(m) {
      var k :| k in m && IntToString(k) == IntToString(i);
      IntToStringInjective(k, i);
    }
    if i in m {
      forall k | k in m && IntToString(k) == IntToString(i) ensures k == i {
        IntToStringInjective(k, i);
      }
    }
  }

  /** The answer key, once written and read back, has exactly the keys `str(i)`
      for the indices `i` of the categories. */
  lemma AnswerKeyKeys(categories: seq<string>)
    ensures EncodeIntKeys(AnswerKey(categories)).Keys == set k | 0 <= k < |categories| :: IntToString(k)
  {
  }

  /** The answer key, once written and read back, maps `str(i)` to the i-th
      category for every index of the categories; `AnswerKeyKeys` states that
      it has no other key. */
  lemma DecodeAnswerKey(categories: seq<string>, i: int)
    ensures IntToString(i) in EncodeIntKeys(AnswerKey(categories)) <==> 0 <= i < |categories|
    ensures 0 <= i < |categories| ==> EncodeIntKeys(AnswerKey(categories))[IntToString(i)] == JStr(categories[i])
  {
    EncodeIntKeysDecodes(AnswerKey(categories), i);
  }

  /** The entry as JSON has exactly the six keys of the dict `as_registry`
      builds. */
  lemma EntryToJsonKeys(e: Entry)
    ensures EntryToJson(e).JObj?
    ensures EntryToJson(e).fields.Keys == {"name", "answer_key", "components", "score", "search_params", "description"}
  {
    var f := EntryToJson(e).fields;
    forall s | s in f ensures s in {"name", "answer_key", "components", "score", "search_params", "description"} { }
  }

  /** Each key of the entry as JSON holds the matching field; the answer key
      has its keys converted by `str`. */
  lemma EntryToJsonFields(e: Entry)
    ensures Field(EntryToJson(e), "name") == Some(JStr(e.name))
    ensures Field(EntryToJson(e), "answer_key") == Some(JObj(EncodeIntKeys(e.answerKey)))
    ensures Field(EntryToJson(e), "score") == Some(if e.score.Some? then JNum(e.score.value) else JNull)
    ensures Field(EntryToJson(e), "search_params") == Some(e.searchParams)
    ensures Field(EntryToJson(e), "description") == Some(JStr(e.description))
  {
  }

  /** The components of the entry as JSON are its class names, as strings, in order. */
  lemma EntryToJsonComponents(e: Entry)
    ensures Field(EntryToJson(e), "components").Some?
    ensures var c := Field(EntryToJson(e), "components").value;
      c.JArr? && |c.items| == |e.components| && forall k :: 0 <= k < |e.components| ==> c.items[k] == JStr(e.components[k])
  {
  }

  class TextPipliner {
    const name: string
    const pickleRegistry: Json
    var pipeline: Option<Pipeline>
    var searchParams: Json
    var categories: Option<seq<string>>
    var score: Option<real>
    /** Where the last persisting run stored the pipeline; None while unset. */
    var path: Option<string>
    /** The entries written by `as_registry`, per file, in writing order. */
    ghost var written: map<string, seq<Entry>>

    constructor (name: string, pickleRegistry: Json, pipeline: Option<Pipeline>, searchParams: Json,
                 categories: Option<seq<string>>)
      ensures this.name == name && this.pickleRegistry == pickleRegistry
      ensures this.pipeline == pipeline && this.searchParams == searchParams && this.categories == categories
      ensures score == None && path == None && written == map[]
    {
      this.name := name;
      this.pickleRegistry := pickleRegistry;
      this.pipeline := pipeline;
      this.searchParams := searchParams;
      this.categories := categories;
      score := None;
      path := None;
      written := map[];
    }

    function GetPickleRegistry(): Json {
      pickleRegistry
    }

    function GetPipeline(): Option<Pipeline>
      reads this
    {
      pipeline
    }

    function GetSearchParams(): Json
      reads this
    {
      searchParams
    }

    function GetCategories(): Option<seq<string>>
      reads this
    {
      categories
    }

    method SetPipeline(p: Option<Pipeline>)
      modifies this`pipeline
      ensures GetPipeline() == p
      ensures GetSearchParams() == old(GetSearchParams()) && GetCategories() == old(GetCategories())
      ensures score == old(score) && path == old(path)
    {
      pipeline := p;
    }

    method SetSearchParams(params: Json)
      modifies this`searchParams
      ensures GetSearchParams() == params
      ensures GetPipeline() == old(GetPipeline()) && GetCategories() == old(GetCategories())
      ensures score == old(score) && path == old(path)
    {
      searchParams := params;
    }

    method SetCategories(c: Option<seq<string>>)
      modifies this`categories
      ensures GetCategories() == c
      ensures GetPipeline() == old(GetPipeline()) && GetSearchParams() == old(GetSearchParams())
      ensures score == old(score) && path == old(path)
    {
      categories := c;
    }

    /** `run(persist, persist_dir)`. `dirAtStart` and `dirAfterFetch` say
        whether `persist_dir` is a directory at the first and the second check;
        `fetch` gives the dataset's target names, or None when the download
        raises. */
    method Run(persist: bool, persistDir: string, dirAtStart: bool, dirAfterFetch: bool,
               fetch: Option<seq<string>> -> Option<seq<string>>, bestScore: real)
      returns (res: Result<(GridSearch, Option<string>), Error>)
      modifies this`categories, this`score, this`path
      ensures persist && !dirAtStart ==>
                res == Failure(NotADirectory(persistDir)) && categories == old(categories)
      ensures !(persist && !dirAtStart) && fetch(old(categories)).None? ==>
                res == Failure(FetchFailed) && categories == old(categories)
      ensures !(persist && !dirAtStart) && fetch(old(categories)).Some? ==>
                categories == fetch(old(categories))
      ensures !(persist && !dirAtStart) && fetch(old(categories)).Some? && pipeline.None? ==>
                res == Failure(MissingPipeline)
      ensures !(persist && !dirAtStart) && fetch(old(categories)).Some? && pipeline.Some? && !searchParams.JObj? ==>
                res == Failure(ParamsNotMapping)
      ensures persist && dirAtStart && !dirAfterFetch && fetch(old(categories)).Some? &&
              pipeline.Some? && searchParams.JObj? ==>
                res == Failure(NotADirectory(persistDir))
      ensures res.Success? <==>
                (!persist || (dirAtStart && dirAfterFetch)) && fetch(old(categories)).Some? &&
                pipeline.Some? && searchParams.JObj?
      ensures res.Failure? ==> score == old(score) && path == old(path)
      ensures res.Success? ==>
                && score == Some(bestScore)
                && res.value.0 == GridSearch(pipeline.value, searchParams.fields, bestScore)
                && (persist ==> path == Some(Paths.Join(persistDir, name)) && res.value.1 == path)
                && (!persist ==> path == old(path) && res.value.1 == None)
    {
      if persist && !dirAtStart {
        return Failure(NotADirectory(persistDir));
      }
      var fetched := fetch(categories);
      if fetched.None? {
        return Failure(FetchFailed);
      }
      categories := fetched;
      if pipeline.None? {
        return Failure(MissingPipeline);
      }
      if !searchParams.JObj? {
        return Failure(ParamsNotMapping);
      }
      var search := GridSearch(pipeline.value, searchParams.fields, bestScore);
      if persist && !dirAfterFetch {
        return Failure(NotADirectory(persistDir));
      }
      score := Some(search.bestScore);
      if persist {
        path := Some(Paths.Join(persistDir, name));
        return Success((search, path));
      }
      res := Success((search, None));
    }

    /** `as_registry(fp, description, overwrite)`: reload the persisted pipeline,
        build the entry and write it to `fp`, replacing or appending. */
    method AsRegistry(fp: string, description: string, overwrite: bool, load: string -> Option<Pipeline>)
      returns (res: Result<Entry, Error>)
      modifies this`pipeline, this`written
      ensures path.None? ==> res == Failure(PathUnset) && pipeline == old(pipeline)
      ensures path.Some? && load(path.value).None? ==>
                res == Failure(ArtifactUnreadable(path.value)) && pipeline == old(pipeline)
      ensures path.Some? && load(path.value).Some? ==> pipeline == load(path.value)
      ensures path.Some? && load(path.value).Some? && categories.None? ==> res == Failure(CategoriesUnset)
      ensures res.Success? <==> path.Some? && load(path.value).Some? && categories.Some?
      ensures res.Success? ==>
                && res.value == MakeEntry(name, categories.value, pipeline.value, score, searchParams, description)
                && written == old(written)[fp := (if overwrite || fp !in old(written) then [] else old(written)[fp]) + [res.value]]
      ensures res.Failure? ==> written == old(written)
    {
      if path.None? {
        return Failure(PathUnset);
      }
      var loaded := load(path.value);
      if loaded.None? {
        return Failure(ArtifactUnreadable(path.value));
      }
      pipeline := loaded;
      if categories.None? {
        return Failure(CategoriesUnset);
      }
      var entry := MakeEntry(name, categories.value, loaded.value, score, searchParams, description);
      var before := if overwrite || fp !in written then [] else written[fp];
      written := written[fp := before + [entry]];
      res := Success(entry);
    }
  }

  /** The entry's fields are the tool's: the answer key maps each index to its
      category and nothing else, and the components list each step's class. */
  lemma EntryFields(name: string, categories: seq<string>, pipeline: Pipeline, score: Option<real>,
                    searchParams: Json, description: string)
    ensures var e := MakeEntry(name, categories, pipeline, score, searchParams, description);
      && e.name == name && e.score == score && e.searchParams == searchParams && e.description == description
      && (forall i :: i in e.answerKey <==> 0 <= i < |categories|)
      && (forall i :: 0 <= i < |categories| ==> e.answerKey[i] == categories[i])
      && |e.components| == |pipeline.steps|
      && (forall k :: 0 <= k < |pipeline.steps| ==> e.components[k] == pipeline.steps[k].className)
  {
  }
}
