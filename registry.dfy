/**
 * The model registry (`PickleRegister`): a list of `{id, pickletype, payload}`
 * records kept in a JSON file, an index from "all" and from each pickletype to
 * the ids of that type, and the set of known pickletypes.
 *
 * File contents are decoded `Json` values. Reading a JSON file is the
 * parameter `files`, the documents that can be opened and parsed at each path;
 * writing the register file is the ghost field `file`.
 */
module Registry {
  import opened Wrappers
  import opened Json
  import Paths

  type Id = string
  type PickleType = string

  /** The index key under which every id is listed. */
  const AllKey: string := "all"

  datatype Error =
    | FileUnreadable(path: string)   // `open` or `json.load` fails on the path
    | InvalidRegister                // the register document is not a list
    | MalformedRecord                // a stored record lacks a string "id" or "pickletype"
    | NotPathOrDict                  // the entry argument is neither a path nor a dict
    | MissingName                    // `entry["name"]` raises
    | NameNotString                  // `entry["name"]` is not a string
    | DuplicateId(id: Id)            // the id is registered already
    | MissingId                      // `entry["id"]` raises
    | UnknownId(given: Json)         // `entry["id"]` is not a registered id
    | UnboundSize                    // `size` read before assignment (NameError)
    | DuplicateRecords(id: Id)       // the panic assertion: more than one record has the id
    | NotFound(id: Id)               // no record has the id
    | NotIterable                    // a truthy `id_subset` that cannot be iterated
    | FilenameNotString              // an element of `id_subset` is not a string
    | ArtifactUnreadable             // `joblib.load` fails for some selected id

  /** A stored record whose "id" and "pickletype" can be read as strings. */
  predicate WellFormed(j: Json) {
    && j.JObj?
    && "id" in j.fields && j.fields["id"].JStr?
    && "pickletype" in j.fields && j.fields["pickletype"].JStr?
  }

  predicate AllWellFormed(reg: seq<Json>) {
    forall k :: 0 <= k < |reg| ==> WellFormed(reg[k])
  }

  function IdOf(j: Json): Id
    requires WellFormed(j)
  {
    j.fields["id"].s
  }

  function TypeOf(j: Json): PickleType
    requires WellFormed(j)
  {
    j.fields["pickletype"].s
  }

  predicate Distinct(s: seq<Id>) {
    forall i, j :: 0 <= i < j < |s| ==> s[i] != s[j]
  }

  /** The record `new_entry` stores: `{"id": id, "pickletype": pickletype, "payload": entry}`. */
  function MakeRecord(id: Id, pickletype: PickleType, payload: Json): (r: Json)
    ensures WellFormed(r) && IdOf(r) == id && TypeOf(r) == pickletype
    ensures r.fields.Keys == {"id", "pickletype", "payload"} && r.fields["payload"] == payload
  {
    JObj(map["id" := JStr(id), "pickletype" := JStr(pickletype), "payload" := payload])
  }

  /** The ids of the register, in register order. */
  function AllIds(reg: seq<Json>): (r: seq<Id>)
    requires AllWellFormed(reg)
    ensures |r| == |reg|
    ensures forall k :: 0 <= k < |reg| ==> r[k] == IdOf(reg[k])
  {
    if reg == [] then [] else AllIds(reg[..|reg| - 1]) + [IdOf(reg[|reg| - 1])]
  }

  /** The ids of the records of pickletype `t`, in register order. */
  function IdsOfType(reg: seq<Json>, t: PickleType): (r: seq<Id>)
    requires AllWellFormed(reg)
    ensures |r| <= |reg|
  {
    if reg == [] then []
    else
      var rest, last := IdsOfType(reg[..|reg| - 1], t), reg[|reg| - 1];
      if TypeOf(last) == t then rest + [IdOf(last)] else rest
  }

  /** A bucket lists exactly the ids of the records of its type. */
  lemma {:induction false} IdsOfTypeMembers(reg: seq<Json>, t: PickleType)
    requires AllWellFormed(reg)
    ensures forall x :: x in IdsOfType(reg, t) <==>
              exists k :: 0 <= k < |reg| && TypeOf(reg[k]) == t && IdOf(reg[k]) == x
  {
    if reg != [] {
      var init := reg[..|reg| - 1];
      assert forall k :: 0 <= k < |init| ==> init[k] == reg[k];
      IdsOfTypeMembers(init, t);
    }
  }

  /** The pickletypes that occur in the register. */
  function Types(reg: seq<Json>): set<PickleType>
    requires AllWellFormed(reg)
  {
    if reg == [] then {} else Types(reg[..|reg| - 1]) + {TypeOf(reg[|reg| - 1])}
  }

  /** The type set holds exactly the pickletypes of the records. */
  lemma {:induction false} TypesMembers(reg: seq<Json>)
    requires AllWellFormed(reg)
    ensures forall t :: t in Types(reg) <==> exists k :: 0 <= k < |reg| && TypeOf(reg[k]) == t
  {
    if reg != [] {
      var init := reg[..|reg| - 1];
      assert forall k :: 0 <= k < |init| ==> init[k] == reg[k];
      TypesMembers(init);
    }
  }

  /** The index after "all" has been set to every id and each label in
      `labels` to the ids of its type; a label "all" overwrites the first. */
  function IndexOver(reg: seq<Json>, labels: set<PickleType>): map<string, seq<Id>>
    requires AllWellFormed(reg)
  {
    map t | t in labels + {AllKey} :: if t in labels then IdsOfType(reg, t) else AllIds(reg)
  }

  /** The index construction derives from a register. */
  function BuildIndex(reg: seq<Json>): map<string, seq<Id>>
    requires AllWellFormed(reg)
  {
    IndexOver(reg, Types(reg))
  }

  /** After construction "all" lists every id in register order, unless some
      record's pickletype is itself "all"; each pickletype's bucket lists exactly
      the ids of its records; and there are no other keys. */
  lemma BuildIndexShape(reg: seq<Json>)
    requires AllWellFormed(reg)
    ensures BuildIndex(reg).Keys == Types(reg) + {AllKey}
    ensures AllKey !in Types(reg) ==> BuildIndex(reg)[AllKey] == AllIds(reg)
    ensures forall t, x :: t in Types(reg) ==>
              (x in BuildIndex(reg)[t] <==> exists k :: 0 <= k < |reg| && TypeOf(reg[k]) == t && IdOf(reg[k]) == x)
  {
    forall t | t in Types(reg) {
      IdsOfTypeMembers(reg, t);
    }
  }

  /** The number of records whose id is `id`. */
  function Occurrences(reg: seq<Json>, id: Id): (n: nat)
    requires AllWellFormed(reg)
    ensures n <= |reg|
    ensures n == 0 <==> id !in AllIds(reg)
  {
    if reg == [] then 0
    else Occurrences(reg[..|reg| - 1], id) + (if IdOf(reg[|reg| - 1]) == id then 1 else 0)
  }

  /** The filter of `delete_entry`: the records whose id differs from `id`. */
  function Without(reg: seq<Json>, id: Id): (r: seq<Json>)
    requires AllWellFormed(reg)
    ensures AllWellFormed(r)
    ensures forall k :: 0 <= k < |r| ==> r[k] in reg && IdOf(r[k]) != id
    ensures forall k :: 0 <= k < |reg| && IdOf(reg[k]) != id ==> reg[k] in r
    ensures |r| + Occurrences(reg, id) == |reg|
  {
    if reg == [] then []
    else
      var rest, last := Without(reg[..|reg| - 1], id), reg[|reg| - 1];
      assert forall k :: 0 <= k < |reg| - 1 ==> reg[..|reg| - 1][k] == reg[k];
      if IdOf(last) != id then rest + [last] else rest
  }

  /** With distinct ids an id occurs once if it is registered and never otherwise. */
  lemma {:induction false} OccurrencesOfDistinct(reg: seq<Json>, id: Id)
    requires AllWellFormed(reg) && Distinct(AllIds(reg))
    ensures Occurrences(reg, id) == if id in AllIds(reg) then 1 else 0
  {
    if reg != [] {
      var init := reg[..|reg| - 1];
      assert AllIds(reg) == AllIds(init) + [IdOf(reg[|reg| - 1])];
      assert Distinct(AllIds(init));
      OccurrencesOfDistinct(init, id);
    }
  }

  /** With a single pickletype its bucket lists every id: the one-type branch of
      construction agrees with the many-type branch. */
  lemma {:induction false} OneTypeBucketIsAll(reg: seq<Json>, t: PickleType)
    requires AllWellFormed(reg) && Types(reg) <= {t}
    ensures IdsOfType(reg, t) == AllIds(reg)
  {
    if reg != [] {
      var init := reg[..|reg| - 1];
      assert Types(reg) == Types(init) + {TypeOf(reg[|reg| - 1])};
      OneTypeBucketIsAll(init, t);
    }
  }

  /** The index update of `new_entry`: `id` is appended to the "all" list and
      to the bucket of `t`, which is created empty when `t` is not a key yet.
      When `t` is "all" the two lists are one and the id is appended twice. */
  function InsertId(ix: map<string, seq<Id>>, id: Id, t: PickleType): (r: map<string, seq<Id>>)
    requires AllKey in ix
    ensures AllKey in r
    ensures t == AllKey ==> r == ix[AllKey := ix[AllKey] + [id, id]]
    ensures t != AllKey ==>
              && r.Keys == ix.Keys + {t}
              && r[AllKey] == ix[AllKey] + [id]
              && r[t] == (if t in ix then ix[t] else []) + [id]
              && forall u :: u in ix && u != AllKey && u != t ==> r[u] == ix[u]
  {
    var withAll := ix[AllKey := ix[AllKey] + [id]];
    var bucket := if t in withAll then withAll[t] else [];
    assert t == AllKey ==> bucket + [id] == ix[AllKey] + [id, id];
    withAll[t := bucket + [id]]
  }

  lemma IdsOfAbsentType(reg: seq<Json>, t: PickleType)
    requires AllWellFormed(reg) && t !in Types(reg)
    ensures IdsOfType(reg, t) == []
  {
    TypesMembers(reg);
    IdsOfTypeMembers(reg, t);
  }

  lemma AllIdsAppend(reg: seq<Json>, rec: Json)
    requires AllWellFormed(reg) && WellFormed(rec)
    ensures AllWellFormed(reg + [rec])
    ensures AllIds(reg + [rec]) == AllIds(reg) + [IdOf(rec)]
  {
    var ext := reg + [rec];
    assert ext[..|ext| - 1] == reg;
  }

  lemma TypesAppend(reg: seq<Json>, rec: Json)
    requires AllWellFormed(reg) && WellFormed(rec)
    ensures AllWellFormed(reg + [rec])
    ensures Types(reg + [rec]) == Types(reg) + {TypeOf(rec)}
  {
    var ext := reg + [rec];
    assert ext[..|ext| - 1] == reg;
  }

  lemma IdsOfTypeAppend(reg: seq<Json>, rec: Json, t: PickleType)
    requires AllWellFormed(reg) && WellFormed(rec)
    ensures AllWellFormed(reg + [rec])
    ensures IdsOfType(reg + [rec], t) == IdsOfType(reg, t) + (if TypeOf(rec) == t then [IdOf(rec)] else [])
  {
    var ext := reg + [rec];
    assert ext[..|ext| - 1] == reg;
  }

  /** Appending a record changes the derived index exactly as `new_entry`
      changes the live one, provided no pickletype is "all". */
  lemma {:induction false} IndexAfterAppend(reg: seq<Json>, rec: Json)
    requires AllWellFormed(reg) && WellFormed(rec)
    requires TypeOf(rec) != AllKey && AllKey !in Types(reg)
    ensures AllWellFormed(reg + [rec])
    ensures Types(reg + [rec]) == Types(reg) + {TypeOf(rec)}
    ensures BuildIndex(reg + [rec]) == InsertId(BuildIndex(reg), IdOf(rec), TypeOf(rec))
  {
    var ext, t := reg + [rec], TypeOf(rec);
    AllIdsAppend(reg, rec);
    TypesAppend(reg, rec);
    var after, expected := BuildIndex(ext), InsertId(BuildIndex(reg), IdOf(rec), t);
    assert after.Keys == expected.Keys by {
      assert after.Keys == Types(reg) + {t} + {AllKey};
    }
    forall u | u in after ensures after[u] == expected[u] {
      IndexAfterAppendAt(reg, rec, u);
    }
  }

  /** One key of `IndexAfterAppend`. */
  lemma IndexAfterAppendAt(reg: seq<Json>, rec: Json, u: string)
    requires AllWellFormed(reg) && WellFormed(rec)
    requires TypeOf(rec) != AllKey && AllKey !in Types(reg)
    requires AllWellFormed(reg + [rec]) && Types(reg + [rec]) == Types(reg) + {TypeOf(rec)}
    requires u in BuildIndex(reg + [rec]) && u in InsertId(BuildIndex(reg), IdOf(rec), TypeOf(rec))
    ensures BuildIndex(reg + [rec])[u] == InsertId(BuildIndex(reg), IdOf(rec), TypeOf(rec))[u]
  {
    var t := TypeOf(rec);
    AllIdsAppend(reg, rec);
    IdsOfTypeAppend(reg, rec, u);
    if u == t && t !in Types(reg) {
      IdsOfAbsentType(reg, t);
    }
  }

  /** A set of exactly one element is that element's singleton. */
  lemma SingletonSet(types: set<PickleType>, t: PickleType)
    requires |types| == 1 && t in types
    ensures types == {t}
  {
    var rest := types - {t};
    assert |rest| == 0;
  }

  /** The one-type branch of construction builds the derived index. */
  lemma OneTypeBranch(reg: seq<Json>, t: PickleType)
    requires AllWellFormed(reg) && Types(reg) == {t}
    ensures map[AllKey := AllIds(reg), t := AllIds(reg)] == BuildIndex(reg)
  {
    OneTypeBucketIsAll(reg, t);
  }

  /** One step of the many-type branch: setting one more label's bucket. */
  lemma IndexOverStep(reg: seq<Json>, done: set<PickleType>, tag: PickleType)
    requires AllWellFormed(reg)
    ensures IndexOver(reg, done)[tag := IdsOfType(reg, tag)] == IndexOver(reg, done + {tag})
  {
  }

  /** The document construction reads: an empty list when a new register is
      requested, otherwise the file at `path`, which must be a list of records. */
  function ReadRegister(path: string, newRegister: bool, files: map<string, Json>): (r: Result<seq<Json>, Error>)
    ensures newRegister ==> r == Success([])
    ensures !newRegister && path !in files ==> r == Failure(FileUnreadable(path))
    ensures !newRegister && path in files && !files[path].JArr? ==> r == Failure(InvalidRegister)
    ensures !newRegister && path in files ==> (r.Success? <==> files[path].JArr? && AllWellFormed(files[path].items))
    ensures r.Success? ==> AllWellFormed(r.value) && (!newRegister ==> files[path] == JArr(r.value))
  {
    var doc: Option<Json> := if newRegister then Some(JArr([])) else if path in files then Some(files[path]) else None;
    match doc
    case None => Failure(FileUnreadable(path))
    case Some(JArr(records)) => if AllWellFormed(records) then Success(records) else Failure(MalformedRecord)
    case Some(_) => Failure(InvalidRegister)
  }

  /** The entry argument: a path is replaced by the JSON document at that path,
      a dict is taken as it is, anything else is refused. */
  function ResolveEntry(entry: Json, files: map<string, Json>): (r: Result<Json, Error>)
    ensures entry.JStr? ==> r == (if entry.s in files then Success(files[entry.s]) else Failure(FileUnreadable(entry.s)))
    ensures entry.JObj? ==> r == Success(entry)
    ensures !entry.JStr? && !entry.JObj? ==> r == Failure(NotPathOrDict)
  {
    match entry
    case JStr(p) => if p in files then Success(files[p]) else Failure(FileUnreadable(p))
    case JObj(_) => Success(entry)
    case _ => Failure(NotPathOrDict)
  }

  /** The id `new_entry` registers under: `id` when it is truthy, else `entry["name"]`. */
  function ResolveId(id: Option<Id>, entry: Json): (r: Result<Id, Error>)
    ensures id.Some? && id.value != "" ==> r == Success(id.value)
    ensures (id.None? || id.value == "") ==>
              (r.Success? <==> Field(entry, "name").Some? && Field(entry, "name").value.JStr?)
    ensures (id.None? || id.value == "") && r.Success? ==> Field(entry, "name") == Some(JStr(r.value))
  {
    if id.Some? && id.value != "" then Success(id.value)
    else
      match Field(entry, "name")
      case None => Failure(MissingName)
      case Some(JStr(name)) => Success(name)
      case Some(_) => Failure(NameNotString)
  }

  /** What `new_entry` decides before it changes anything: the record to
      append, or the error it raises. */
  function Admit(allIds: seq<Id>, entry: Json, pickletype: PickleType, id: Option<Id>,
                 files: map<string, Json>): (r: Result<Json, Error>)
    ensures r.Success? ==> WellFormed(r.value) && IdOf(r.value) !in allIds && TypeOf(r.value) == pickletype
    ensures r.Success? ==>
              (ResolveEntry(entry, files).Success? &&
               r.value == MakeRecord(IdOf(r.value), pickletype, ResolveEntry(entry, files).value))
    ensures r.Success? && id.Some? && id.value != "" ==> IdOf(r.value) == id.value
    ensures id.Some? && id.value != "" && id.value in allIds ==> r.Failure?
    ensures r.Failure? && r.error.DuplicateId? ==> r.error.id in allIds
    ensures ResolveEntry(entry, files).Failure? ==> r == Failure(ResolveEntry(entry, files).error)
    ensures ResolveEntry(entry, files).Success? ==>
              var key := ResolveId(id, ResolveEntry(entry, files).value);
              && (key.Failure? ==> r == Failure(key.error))
              && (key.Success? ==> (r.Success? <==> key.value !in allIds))
              && (key.Success? && r.Success? ==> IdOf(r.value) == key.value)
              && (key.Success? && key.value in allIds ==> r == Failure(DuplicateId(key.value)))
  {
    match ResolveEntry(entry, files)
    case Failure(e) => Failure(e)
    case Success(payload) =>
      match ResolveId(id, payload)
      case Failure(e) => Failure(e)
      case Success(key) =>
        if key in allIds then Failure(DuplicateId(key)) else Success(MakeRecord(key, pickletype, payload))
  }

  /** Registering the same entry a second time, once its id is listed, is
      refused as a duplicate of that id, whether the id was given or taken
      from `entry["name"]`. */
  lemma ReadmitRefused(allIds: seq<Id>, entry: Json, pickletype: PickleType, id: Option<Id>,
                       files: map<string, Json>, later: seq<Id>)
    requires Admit(allIds, entry, pickletype, id, files).Success?
    requires IdOf(Admit(allIds, entry, pickletype, id, files).value) in later
    ensures Admit(later, entry, pickletype, id, files) ==
              Failure(DuplicateId(IdOf(Admit(allIds, entry, pickletype, id, files).value)))
  {
  }

  /** With no id, or an empty one, the entry is registered under its name. */
  lemma AdmitByName(allIds: seq<Id>, entry: Json, pickletype: PickleType, id: Option<Id>,
                    files: map<string, Json>, name: string)
    requires id.None? || id.value == ""
    requires ResolveEntry(entry, files).Success? && Field(ResolveEntry(entry, files).value, "name") == Some(JStr(name))
    ensures name in allIds ==> Admit(allIds, entry, pickletype, id, files) == Failure(DuplicateId(name))
    ensures name !in allIds ==>
              Admit(allIds, entry, pickletype, id, files) ==
                Success(MakeRecord(name, pickletype, ResolveEntry(entry, files).value))
  {
  }

  /** What `update_entry` decides: the entry's "id" must be registered. */
  function UpdateCheck(allIds: seq<Id>, entry: Json, files: map<string, Json>): (r: Outcome<Error>)
    ensures r.Pass? <==>
              ResolveEntry(entry, files).Success? &&
              exists x :: x in allIds && Field(ResolveEntry(entry, files).value, "id") == Some(JStr(x))
    ensures ResolveEntry(entry, files).Success? && Field(ResolveEntry(entry, files).value, "id").None? ==>
              r == Fail(MissingId)
    ensures ResolveEntry(entry, files).Failure? ==> r == Fail(ResolveEntry(entry, files).error)
    ensures ResolveEntry(entry, files).Success? && Field(ResolveEntry(entry, files).value, "id").Some? ==>
              var v := Field(ResolveEntry(entry, files).value, "id").value;
              r == if v.JStr? && v.s in allIds then Pass else Fail(UnknownId(v))
  {
    match ResolveEntry(entry, files)
    case Failure(e) => Fail(e)
    case Success(e) =>
      match Field(e, "id")
      case None => Fail(MissingId)
      case Some(v) => if v.JStr? && v.s in allIds then Pass else Fail(UnknownId(v))
  }

  /** Truthy values that the builtin `iter` accepts. */
  predicate Iterable(j: Json) {
    j.JStr? || j.JArr? || j.JObj?
  }

  /** The ids `load_pickles` loads: every registered id when `subset` is falsy,
      otherwise the elements that iterating `subset` yields. */
  function SelectIds(reg: seq<Json>, subset: Json): (r: Result<set<Id>, Error>)
    requires AllWellFormed(reg)
    ensures !Truthy(subset) ==> r.Success? && forall x :: x in r.value <==> x in AllIds(reg)
    ensures Truthy(subset) && !Iterable(subset) ==> r == Failure(NotIterable)
    ensures Truthy(subset) && subset.JArr? ==>
              (r.Success? <==> forall k :: 0 <= k < |subset.items| ==> subset.items[k].JStr?)
    ensures Truthy(subset) && subset.JArr? && r.Success? ==>
              forall x :: x in r.value <==> JStr(x) in subset.items
    ensures Truthy(subset) && subset.JObj? ==> r == Success(subset.fields.Keys)
    ensures Truthy(subset) && subset.JStr? ==>
              && r.Success?
              && (forall x :: x in r.value ==> |x| == 1)
              && (forall c :: [c] in r.value <==> c in subset.s)
  {
    if !Truthy(subset) then Success(set x | x in AllIds(reg))
    else
      match subset
      case JStr(s) => Success(set c | c in s :: [c])
      case JArr(items) =>
        if forall k :: 0 <= k < |items| ==> items[k].JStr? then Success(set v | v in items :: v.s)
        else Failure(FilenameNotString)
      case JObj(m) => Success(m.Keys)
      case _ => Failure(NotIterable)
  }

  /** The many-type branch of construction: the "all" list, then one bucket
      per label, filled one label at a time. */
  method IndexByLabel(records: seq<Json>, types: set<PickleType>) returns (index: map<string, seq<Id>>)
    requires AllWellFormed(records)
    ensures index == IndexOver(records, types)
  {
    index := map[AllKey := AllIds(records)];
    var todo := types;
    ghost var done: set<PickleType> := {};
    assert index == IndexOver(records, done);
    while todo != {}
      invariant todo <= types && done == types - todo
      invariant index == IndexOver(records, done)
      decreases |todo|
    {
      var tag :| tag in todo;
      IndexOverStep(records, done, tag);
      index := index[tag := IdsOfType(records, tag)];
      todo, done := todo - {tag}, done + {tag};
    }
  }

  /** The duplicate check of `new_entry`: scan the "all" list for `id`. */
  method Registered(all: seq<Id>, id: Id) returns (found: bool)
    ensures found <==> id in all
  {
    var k := 0;
    while k < |all|
      invariant 0 <= k <= |all|
      invariant forall j :: 0 <= j < k ==> all[j] != id
    {
      if all[k] == id {
        return true;
      }
      k := k + 1;
    }
    return false;
  }

  class PickleRegister {
    const path: string
    const storepath: string
    var register: seq<Json>
    var ids: map<string, seq<Id>>
    var pickletypes: set<PickleType>
    /** The list the register file holds, as last written by `json.dump`. */
    ghost var file: seq<Json>

    /** Every record is readable and the index has its "all" list. */
    ghost predicate Valid()
      reads this
    {
      AllWellFormed(register) && AllKey in ids
    }

    /** The live index is the one construction would derive from the register. */
    ghost predicate Indexed()
      reads this
      requires Valid()
    {
      ids == BuildIndex(register) && pickletypes == Types(register)
    }

    /** No id is registered twice. */
    ghost predicate UniqueIds()
      reads this
      requires Valid()
    {
      Distinct(AllIds(register))
    }

    /** Reading the register file back yields this register and this index.
        Records are decoded JSON values here, so a record survives the round
        trip unchanged; a record holding int keys or tuples would not. */
    ghost predicate ReloadReproducesIndex()
      reads this
    {
      var doc := ReadRegister(path, false, map[path := JArr(file)]);
      doc.Success? && doc.value == register && BuildIndex(doc.value) == ids && Types(doc.value) == pickletypes
    }

    /** Construction from a validated list: derive the type set, then the index,
        by the one-type branch or by one bucket per label. */
    constructor FromRecords(path: string, storepath: string, records: seq<Json>)
      requires AllWellFormed(records)
      ensures this.path == path && this.storepath == storepath
      ensures register == records && file == records
      ensures Valid() && Indexed()
    {
      var types := Types(records);
      var index: map<string, seq<Id>>;
      if |types| == 1 {
        var t :| t in types;
        SingletonSet(types, t);
        OneTypeBranch(records, t);
        index := map[AllKey := AllIds(records), t := AllIds(records)];
      } else {
        index := IndexByLabel(records, types);
      }
      this.path := path;
      this.storepath := storepath;
      pickletypes := types;
      ids := index;
      register := records;
      file := records;
    }

    /** `PickleRegister(path, storepath, new_register)`: the document is read
        (an empty list when a new register is requested) and validated. */
    static method Load(path: string, storepath: string, newRegister: bool, files: map<string, Json>)
      returns (res: Result<PickleRegister, Error>)
      ensures ReadRegister(path, newRegister, files).Failure? ==>
                res == Failure(ReadRegister(path, newRegister, files).error)
      ensures ReadRegister(path, newRegister, files).Success? ==>
                && res.Success? && fresh(res.value)
                && res.value.path == path && res.value.storepath == storepath
                && res.value.Valid() && res.value.Indexed()
                && res.value.register == ReadRegister(path, newRegister, files).value
                && res.value.file == res.value.register
    {
      var doc := ReadRegister(path, newRegister, files);
      if doc.Failure? {
        return Failure(doc.error);
      }
      var r := new PickleRegister.FromRecords(path, storepath, doc.value);
      res := Success(r);
    }

    /** `new_entry(entry, pickletype, id)`. */
    method NewEntry(entry: Json, pickletype: PickleType, id: Option<Id>, files: map<string, Json>)
      returns (res: Outcome<Error>)
      requires Valid()
      modifies this`register, this`ids, this`pickletypes, this`file
      ensures Valid()
      ensures var a := Admit(old(ids[AllKey]), entry, pickletype, id, files);
        a.Failure? ==>
          && res == Fail(a.error)
          && register == old(register) && ids == old(ids)
          && pickletypes == old(pickletypes) && file == old(file)
      ensures var a := Admit(old(ids[AllKey]), entry, pickletype, id, files);
        a.Success? ==>
          && res == Pass
          && register == old(register) + [a.value]
          && file == register
          && ids == InsertId(old(ids), IdOf(a.value), pickletype)
          && pickletypes == (if pickletype in old(ids) then old(pickletypes) else old(pickletypes) + {pickletype})
      ensures old(Indexed()) && pickletype != AllKey && AllKey !in old(pickletypes) ==>
                Indexed() && (res.Pass? ==> ReloadReproducesIndex())
      ensures old(Indexed()) && old(UniqueIds()) && AllKey !in old(pickletypes) ==> UniqueIds()
    {
      ghost var decision := Admit(ids[AllKey], entry, pickletype, id, files);
      var resolved := ResolveEntry(entry, files);
      if resolved.Failure? {
        assert decision == Failure(resolved.error);
        return Fail(resolved.error);
      }
      var payload := resolved.value;
      var key := ResolveId(id, payload);
      if key.Failure? {
        assert decision == Failure(key.error);
        return Fail(key.error);
      }
      var newId := key.value;
      var registered := Registered(ids[AllKey], newId);
      if registered {
        assert decision == Failure(DuplicateId(newId));
        return Fail(DuplicateId(newId));
      }
      var record := MakeRecord(newId, pickletype, payload);
      assert decision == Success(record);
      ghost var before, oldIds := register, ids;
      Append(record);
      res := Pass;
      AppendKeepsIndex(before, record, oldIds, old(pickletypes));
    }

    /** The changes `new_entry` makes once `record` is admitted: append it,
        extend the "all" list and the bucket of its pickletype (created empty
        when the pickletype is not a key yet), and write the file. */
    method Append(record: Json)
      requires Valid() && WellFormed(record)
      modifies this`register, this`ids, this`pickletypes, this`file
      ensures Valid()
      ensures register == old(register) + [record] && file == register
      ensures ids == InsertId(old(ids), IdOf(record), TypeOf(record))
      ensures pickletypes == (if TypeOf(record) in old(ids) then old(pickletypes) else old(pickletypes) + {TypeOf(record)})
    {
      var newId, pickletype := IdOf(record), TypeOf(record);
      ghost var oldIds := ids;
      AllIdsAppend(register, record);
      register := register + [record];
      ids := ids[AllKey := ids[AllKey] + [newId]];
      if pickletype !in ids {
        ids := ids[pickletype := []];
        pickletypes := pickletypes + {pickletype};
      }
      ids := ids[pickletype := ids[pickletype] + [newId]];
      file := register;
      assert ids == InsertId(oldIds, newId, pickletype);
    }

    /** `update_entry(entry)`: the id is checked, then the records are scanned,
        but the loop only rebinds its variable, so nothing in memory changes. */
    method UpdateEntry(entry: Json, files: map<string, Json>) returns (res: Outcome<Error>)
      requires Valid()
      modifies this`file
      ensures register == old(register) && ids == old(ids) && pickletypes == old(pickletypes)
      ensures res == UpdateCheck(ids[AllKey], entry, files)
      ensures res.Pass? ==> file == register
      ensures res.Fail? ==> file == old(file)
    {
      var resolved := ResolveEntry(entry, files);
      if resolved.Failure? {
        return Fail(resolved.error);
      }
      var replacement := resolved.value;
      var given := Field(replacement, "id");
      if given.None? {
        return Fail(MissingId);
      }
      if !(given.value.JStr? && given.value.s in ids[AllKey]) {
        return Fail(UnknownId(given.value));
      }
      var k := 0;
      while k < |register|
        invariant 0 <= k <= |register|
      {
        var ent := register[k];
        if JStr(IdOf(ent)) == given.value {
          ent := replacement;
        }
        k := k + 1;
      }
      file := register;
      res := Pass;
    }

    /** `delete_entry(id, raise_notfound)`: the filtered list is computed and
        checked, but never stored; the unfiltered register is written back. */
    method DeleteEntry(id: Id, raiseNotFound: bool) returns (res: Outcome<Error>)
      requires Valid()
      modifies this`file
      ensures register == old(register) && ids == old(ids) && pickletypes == old(pickletypes)
      ensures !raiseNotFound ==> res == Fail(UnboundSize)
      ensures raiseNotFound ==>
                res == if Occurrences(register, id) > 1 then Fail(DuplicateRecords(id))
                       else if Occurrences(register, id) == 0 then Fail(NotFound(id))
                       else Pass
      ensures res.Pass? ==> file == register
      ensures res.Fail? ==> file == old(file)
    {
      if !raiseNotFound {
        return Fail(UnboundSize);
      }
      var size := |register|;
      var filtered := Without(register, id);
      if size - 1 > |filtered| {
        return Fail(DuplicateRecords(id));
      }
      if size - 1 != |filtered| {
        return Fail(NotFound(id));
      }
      file := register;
      res := Pass;
    }

    /** `load_pickles(id_subset)`: every selected id is loaded from
        `storepath/id`; one unreadable artifact fails the whole call. */
    function LoadPickles<P>(subset: Json, load: string -> Option<P>): (r: Result<map<Id, P>, Error>)
      reads this
      requires Valid()
      ensures SelectIds(register, subset).Failure? ==> r == Failure(SelectIds(register, subset).error)
      ensures r.Success? ==> SelectIds(register, subset).Success? && r.value.Keys == SelectIds(register, subset).value
      ensures r.Success? ==> forall x :: x in r.value ==> load(Paths.Join(storepath, x)) == Some(r.value[x])
      ensures SelectIds(register, subset).Success? ==>
                (r.Success? <==> forall x :: x in SelectIds(register, subset).value ==> load(Paths.Join(storepath, x)).Some?)
    {
      match SelectIds(register, subset)
      case Failure(e) => Failure(e)
      case Success(chosen) =>
        if forall x :: x in chosen ==> load(Paths.Join(storepath, x)).Some? then
          Success(map x | x in chosen :: load(Paths.Join(storepath, x)).value)
        else
          Failure(ArtifactUnreadable)
    }
  }

  /** What `new_entry` keeps: a derived index stays derived, and distinct ids
      stay distinct, when the appended record's id is not yet listed. */
  lemma AppendKeepsIndex(reg: seq<Json>, rec: Json, ix: map<string, seq<Id>>, types: set<PickleType>)
    requires AllWellFormed(reg) && WellFormed(rec) && AllKey in ix
    requires IdOf(rec) !in ix[AllKey]
    ensures AllWellFormed(reg + [rec])
    ensures ix == BuildIndex(reg) && types == Types(reg) && TypeOf(rec) != AllKey && AllKey !in types ==>
              InsertId(ix, IdOf(rec), TypeOf(rec)) == BuildIndex(reg + [rec]) &&
              (if TypeOf(rec) in ix then types else types + {TypeOf(rec)}) == Types(reg + [rec])
    ensures ix == BuildIndex(reg) && types == Types(reg) && AllKey !in types && Distinct(AllIds(reg)) ==>
              Distinct(AllIds(reg + [rec]))
  {
    var ext := reg + [rec];
    assert forall j :: 0 <= j < |reg| ==> ext[j] == reg[j];
    assert ext[..|ext| - 1] == reg;
    assert AllIds(ext) == AllIds(reg) + [IdOf(rec)];
    if ix == BuildIndex(reg) && types == Types(reg) && AllKey !in types {
      if TypeOf(rec) != AllKey {
        IndexAfterAppend(reg, rec);
      }
    }
  }

  /** A register whose ids are distinct and whose index is derived from it
      deletes every registered id without error, and refuses every other. */
  lemma DeleteKnownIdPasses(reg: seq<Json>, id: Id)
    requires AllWellFormed(reg) && Distinct(AllIds(reg))
    ensures Occurrences(reg, id) == 1 <==> id in AllIds(reg)
    ensures Occurrences(reg, id) == 0 <==> id !in AllIds(reg)
  {
    OccurrencesOfDistinct(reg, id);
  }
}
