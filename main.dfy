/** The orchestrator (`main.js`): connect once, run the ten scrapers in
    order, test each result, save it with the scraper's own writer, pause
    between scrapers, and end with exit code 0 on every path.

    The scrapers' settled results are inputs, as is the success of every
    database operation (`ok(k)(j)` for the j-th operation of the k-th
    scraper's writer) and the random numbers behind the pauses. */
module Orchestrator {
  import opened Common
  import opened Text
  import opened Entries
  import opened Db

  /** The collections the list-shaped results are written to. */
  datatype Model =
    | CareerJobModel | EducationModel | ChessModel | CricketModel | ScoreModel
    | TechModel | TrendingModel | InternationalModel | PoliticsModel

  /** How a scraper's data is written: one upsert per zodiac sign, an
      unordered `insertMany`, or `deleteMany({})` followed by `insertMany`. */
  datatype Saver = HoroscopeUpsert | Append(into: Model) | ReplaceAll(into: Model)

  datatype Task = Task(name: string, saver: Saver)

  /** The scrapers, in the order they run. */
  const Scrapers: seq<Task> := [
    Task("Astrology", HoroscopeUpsert),
    Task("Career & Jobs", Append(CareerJobModel)),
    Task("Education", Append(EducationModel)),
    Task("Chess", Append(ChessModel)),
    Task("Cricket", Append(CricketModel)),
    Task("Score", ReplaceAll(ScoreModel)),
    Task("Tech", Append(TechModel)),
    Task("Trending", Append(TrendingModel)),
    Task("International Affairs", Append(InternationalModel)),
    Task("Politics", Append(PoliticsModel))
  ]

  // ---------------------------------------------------------------------
  // The test a result passes before it is saved.

  /** `Array.isArray(data) ? data.length > 0 : Object.keys(data).length > 0`;
      `Object.keys` throws on `undefined` and `null`. */
  function IsValid(r: JsResult): Result<bool>
    requires !r.Threw?
  {
    match r
    case Undefined => Err(TypeError)
    case Returned(data) =>
      if data.JArr? then Ok(|data.items| > 0)
      else
        match EntriesOf(data)
        case Err(e) => Err(e)
        case Ok(es) => Ok(|es| > 0)
  }

  /** JavaScript truthiness of a settled value. */
  predicate JsTruthy(r: JsResult) {
    match r
    case Returned(JBool(b)) => b
    case Returned(JNum(n)) => n != 0
    case Returned(JStr(s)) => s != ""
    case Returned(JArr(_)) => true
    case Returned(JObj(_)) => true
    case _ => false
  }

  /** What the loop body does with a settled result. */
  datatype Verdict = Save(data: Json) | Skip | Catch(error: Error)

  function Gate(r: JsResult): Verdict {
    match r
    case Threw(e) => Catch(e)
    case _ =>
      match IsValid(r)
      case Err(e) => Catch(e)
      case Ok(valid) => if JsTruthy(r) && valid then Save(r.value) else Skip
  }

  /** The values worth saving, stated directly: a non-empty array, object
      or string. */
  predicate NonEmpty(v: Json) {
    match v
    case JArr(items) => |items| > 0
    case JObj(es) => |es| > 0
    case JStr(s) => s != ""
    case _ => false
  }

  /** Data is saved exactly when the scraper returned a non-empty array,
      object or string; `undefined` and `null` are caught as a TypeError;
      a number or a boolean is reported as empty. */
  lemma GateIff(r: JsResult)
    ensures Gate(r).Save? <==> r.Returned? && NonEmpty(r.value)
    ensures Gate(r).Save? ==> Gate(r).data == r.value
    ensures Gate(r).Catch? <==> r.Threw? || r == Undefined || r == Returned(JNull)
    ensures r.Threw? ==> Gate(r) == Catch(r.error)
  {
    if r.Returned? && r.value.JStr? {
      assert |Indexed(Chars(r.value.s))| == |r.value.s|;
    }
  }

  /** Whatever passes the length test is truthy: the `data &&` half of the
      test never decides anything. */
  lemma ValidIsTruthy(r: JsResult)
    requires !r.Threw? && IsValid(r) == Ok(true)
    ensures JsTruthy(r)
  {
    if r.Returned? && r.value.JStr? {
      assert |Indexed(Chars(r.value.s))| == |r.value.s|;
    }
  }

  // ---------------------------------------------------------------------
  // The database, as values.

  type Doc = map<string, Json>

  datatype Store = Store(horoscopes: seq<Doc>, collections: map<Model, seq<Json>>)

  function Stored(c: map<Model, seq<Json>>, m: Model): seq<Json> {
    if m in c then c[m] else []
  }

  /** The documents `insertMany(data)` inserts: the elements of an array, or
      the value itself. */
  function AsDocs(data: Json): seq<Json> {
    if data.JArr? then data.items else [data]
  }

  /** An object literal built from property assignments in order. */
  function ToDoc(es: seq<Entry>): (r: Doc)
    ensures forall k :: k in r <==> k in Keys(es)
    ensures forall k :: k in r ==> Lookup(es, k) == Some(r[k])
  {
    if es == [] then map[]
    else
      var init := es[..|es| - 1];
      KeysAppend(init, es[|es| - 1]);
      assert es == init + [es[|es| - 1]];
      ToDoc(init)[es[|es| - 1].0 := es[|es| - 1].1]
  }

  /** The properties `...article` spreads: none for `null`. */
  function Spread(article: Json): seq<Entry> {
    if article.JNull? then [] else EntriesOf(article).value
  }

  /** `{ sign: sign, ...article }`. */
  function Fields(sign: string, article: Json): Doc {
    ToDoc([("sign", JStr(sign))] + Spread(article))
  }

  predicate HasSign(d: Doc, sign: string) {
    "sign" in d && d["sign"] == JStr(sign)
  }

  /** The first document matching the filter `{ sign }`. */
  function FindSign(docs: seq<Doc>, sign: string): (r: Option<nat>)
    ensures r.Some? ==> r.value < |docs| && HasSign(docs[r.value], sign)
    ensures r.Some? ==> forall i :: 0 <= i < r.value ==> !HasSign(docs[i], sign)
    ensures r.None? ==> forall i :: 0 <= i < |docs| ==> !HasSign(docs[i], sign)
  {
    if docs == [] then None
    else if HasSign(docs[0], sign) then Some(0)
    else
      match FindSign(docs[1..], sign)
      case Some(i) => Some(i + 1)
      case None => None
  }

  /** `updateOne({ sign }, fields, { upsert: true })`: the fields are set on
      the first matching document, or a document made of the filter and the
      fields is inserted. */
  function Upsert(docs: seq<Doc>, sign: string, fields: Doc): seq<Doc> {
    match FindSign(docs, sign)
    case Some(i) => docs[i := docs[i] + fields]
    case None => docs + [map["sign" := JStr(sign)] + fields]
  }

  /** The upsert of one entry: `sign.toLowerCase()` as the filter and
      `{ sign, ...article }` as the fields. */
  function UpsertEntry(docs: seq<Doc>, e: Entry): seq<Doc> {
    Upsert(docs, ToLower(e.0), Fields(ToLower(e.0), e.1))
  }

  /** The horoscope writer from the j-th entry on; it stops at the first
      failed update, which rejects the save. */
  function UpsertFrom(docs: seq<Doc>, es: seq<Entry>, ok: nat -> bool, j: nat): (seq<Doc>, Option<Error>)
    requires j <= |es|
    decreases |es| - j
  {
    if j == |es| then (docs, None)
    else if !ok(j) then (docs, Some(WriteFailed))
    else
      UpsertFrom(UpsertEntry(docs, es[j]), es, ok, j + 1)
  }

  datatype Written = Written(store: Store, error: Option<Error>)

  /** What a scraper's `save(data)` does to the database. */
  function Saving(store: Store, saver: Saver, data: Json, ok: nat -> bool): Written {
    match saver
    case HoroscopeUpsert =>
      (match EntriesOf(data)
       case Err(e) => Written(store, Some(e))
       case Ok(es) =>
         var (docs, error) := UpsertFrom(store.horoscopes, es, ok, 0);
         Written(store.(horoscopes := docs), error))
    case Append(m) =>
      if ok(0) then Written(store.(collections := store.collections[m := Stored(store.collections, m) + AsDocs(data)]), None)
      else Written(store, Some(WriteFailed))
    case ReplaceAll(m) =>
      if !ok(0) then Written(store, Some(WriteFailed))
      else if !ok(1) then Written(store.(collections := store.collections[m := []]), Some(WriteFailed))
      else Written(store.(collections := store.collections[m := AsDocs(data)]), None)
  }

  /** What the log line of one scraper reports. */
  datatype Report = Saved | NoData | Failed(error: Error)

  datatype Ran = Ran(store: Store, reports: seq<Report>)

  /** One pass of the loop body: the gate, then the writer. */
  function RunTask(store: Store, task: Task, r: JsResult, ok: nat -> bool): (out: Ran)
    ensures |out.reports| == 1
    ensures !Gate(r).Save? ==> out.store == store
    ensures r.Threw? ==> out.reports == [Failed(r.error)]
    ensures out.reports == [Saved] <==> Gate(r).Save? && Saving(store, task.saver, Gate(r).data, ok).error.None?
  {
    match Gate(r)
    case Catch(e) => Ran(store, [Failed(e)])
    case Skip => Ran(store, [NoData])
    case Save(data) =>
      var w := Saving(store, task.saver, data, ok);
      Ran(w.store, [if w.error.Some? then Failed(w.error.value) else Saved])
  }

  /** The loop over the scrapers: every scraper runs whatever the earlier
      ones did. */
  function RunTasks(store: Store, tasks: seq<Task>, results: seq<JsResult>, ok: nat -> nat -> bool): (out: Ran)
    requires |results| == |tasks|
    ensures |out.reports| == |tasks|
  {
    if tasks == [] then Ran(store, [])
    else
      var n := |tasks| - 1;
      var before := RunTasks(store, tasks[..n], results[..n], ok);
      var step := RunTask(before.store, tasks[n], results[n], ok(n));
      Ran(step.store, before.reports + step.reports)
  }

  /** The whole program: a failed connection rejects before any scraper
      runs. */
  function Program(store: Store, flag: nat, outcome: Result<nat>, results: seq<JsResult>, ok: nat -> nat -> bool): Ran
    requires |results| == |Scrapers|
  {
    if ConnectStep(flag, outcome).error.Some? then Ran(store, [])
    else RunTasks(store, Scrapers, results, ok)
  }

  // ---------------------------------------------------------------------
  // What the writers keep and change.

  /** The collection a writer targets, if any. */
  function Target(saver: Saver): Option<Model> {
    if saver.HoroscopeUpsert? then None else Some(saver.into)
  }

  /** A writer changes its own collection and nothing else: the horoscope
      writer leaves every collection alone, and the others leave the
      horoscopes and every other collection alone. */
  lemma SavingTouchesOnlyTarget(store: Store, saver: Saver, data: Json, ok: nat -> bool, m: Model)
    requires Target(saver) != Some(m)
    ensures Stored(Saving(store, saver, data, ok).store.collections, m) == Stored(store.collections, m)
    ensures saver.HoroscopeUpsert? ==> Saving(store, saver, data, ok).store.collections == store.collections
    ensures !saver.HoroscopeUpsert? ==> Saving(store, saver, data, ok).store.horoscopes == store.horoscopes
  {
  }

  /** An inserting writer only adds: the documents already stored stay, in
      front, and a successful save adds exactly the data's documents. */
  lemma AppendKeepsOld(store: Store, m: Model, data: Json, ok: nat -> bool)
    ensures var after := Stored(Saving(store, Append(m), data, ok).store.collections, m);
      var before := Stored(store.collections, m);
      |before| <= |after| && after[..|before|] == before
    ensures Saving(store, Append(m), data, ok).error.None? <==> ok(0)
    ensures ok(0) ==> Stored(Saving(store, Append(m), data, ok).store.collections, m) == Stored(store.collections, m) + AsDocs(data)
  {
    var before := Stored(store.collections, m);
    assert (before + AsDocs(data))[..|before|] == before;
  }

  /** The score writer never keeps an old score once its delete succeeds:
      the collection then holds the new data, or nothing when the insert
      fails; a failed delete changes nothing. */
  lemma ReplaceDropsOld(store: Store, m: Model, data: Json, ok: nat -> bool)
    ensures var w := Saving(store, ReplaceAll(m), data, ok);
      (ok(0) ==> Stored(w.store.collections, m) == (if ok(1) then AsDocs(data) else [])) &&
      (!ok(0) ==> w.store == store) &&
      (w.error.None? <==> ok(0) && ok(1))
  {
  }

  /** No two stored horoscopes carry the same sign. */
  predicate DistinctSigns(docs: seq<Doc>) {
    forall i, j :: 0 <= i < j < |docs| && "sign" in docs[i] && "sign" in docs[j] ==> docs[i]["sign"] != docs[j]["sign"]
  }

  /** The fields of an upsert keep the filter's sign. */
  predicate KeepsSign(fields: Doc, sign: string) {
    "sign" in fields ==> fields["sign"] == JStr(sign)
  }

  /** An upsert updates the one document with the sign or adds one: after
      it some document carries the sign and every field, and a document
      with another sign is untouched. */
  lemma UpsertSetsFields(docs: seq<Doc>, sign: string, fields: Doc)
    requires KeepsSign(fields, sign)
    ensures var r := Upsert(docs, sign, fields);
      (|r| == |docs| || |r| == |docs| + 1) &&
      (|r| == |docs| + 1 <==> forall i :: 0 <= i < |docs| ==> !HasSign(docs[i], sign))
    ensures var r := Upsert(docs, sign, fields);
      exists i :: 0 <= i < |r| && HasSign(r[i], sign) && forall k :: k in fields ==> k in r[i] && r[i][k] == fields[k]
    ensures var r := Upsert(docs, sign, fields);
      forall i :: 0 <= i < |docs| && !HasSign(docs[i], sign) ==> r[i] == docs[i]
  {
    var r := Upsert(docs, sign, fields);
    match FindSign(docs, sign)
    case Some(i) =>
      assert HasSign(r[i], sign);
    case None =>
      assert HasSign(r[|docs|], sign);
  }

  /** Upserts whose fields keep their sign keep the signs distinct. */
  lemma UpsertKeepsDistinct(docs: seq<Doc>, sign: string, fields: Doc)
    requires DistinctSigns(docs) && KeepsSign(fields, sign)
    ensures DistinctSigns(Upsert(docs, sign, fields))
  {
    var r := Upsert(docs, sign, fields);
    match FindSign(docs, sign)
    case Some(i) =>
      assert forall j :: 0 <= j < |r| && "sign" in r[j] ==> "sign" in docs[j] && r[j]["sign"] == docs[j]["sign"];
    case None =>
      assert forall j :: 0 <= j < |docs| && "sign" in docs[j] ==> docs[j]["sign"] != JStr(sign);
  }

  /** A second upsert of the same sign updates the document the first one
      left instead of adding another, so the later entry's fields win. */
  lemma LaterUpsertWins(docs: seq<Doc>, sign: string, first: Doc, second: Doc)
    requires KeepsSign(first, sign)
    ensures var once := Upsert(docs, sign, first);
      var i := FindSign(once, sign);
      i.Some? && Upsert(once, sign, second) == once[i.value := once[i.value] + second]
  {
    UpsertSetsFields(docs, sign, first);
  }

  /** The spread article's properties come after the sign: an article with
      no `sign` property keeps the lowered sign. */
  lemma FieldsKeepSign(sign: string, article: Json)
    requires "sign" !in Keys(Spread(article))
    ensures KeepsSign(Fields(sign, article), sign)
    ensures "sign" in Fields(sign, article)
  {
    var es := [("sign", JStr(sign))] + Spread(article);
    assert es[0].0 == "sign";
    assert "sign" in Keys(es);
    LookupAfter([("sign", JStr(sign))], Spread(article), "sign");
  }

  /** A key missing from the later entries is looked up in the earlier ones. */
  lemma {:induction false} LookupAfter(front: seq<Entry>, back: seq<Entry>, k: string)
    requires k !in Keys(back)
    ensures Lookup(front + back, k) == Lookup(front, k)
    decreases |back|
  {
    if back == [] {
      assert front + back == front;
    } else {
      var init := back[..|back| - 1];
      assert Keys(back) == Keys(init) + [back[|back| - 1].0];
      LookupAfter(front, init, k);
      DropLastOfConcat(front, back);
    }
  }

  lemma DropLastOfConcat<T>(front: seq<T>, back: seq<T>)
    requires back != []
    ensures (front + back)[..|front + back| - 1] == front + back[..|back| - 1]
    ensures (front + back)[|front + back| - 1] == back[|back| - 1]
  {
  }

  /** No article has its own `sign` property. */
  predicate NoSignProperty(es: seq<Entry>) {
    forall j {:trigger OwnSign(es[j].1)} :: 0 <= j < |es| ==> !OwnSign(es[j].1)
  }

  predicate OwnSign(article: Json) {
    "sign" in Keys(Spread(article))
  }

  /** The horoscope writer keeps the signs distinct, however far it gets,
      when no article overrides its sign. */
  lemma {:induction false} UpsertFromKeepsDistinct(docs: seq<Doc>, es: seq<Entry>, ok: nat -> bool, j: nat)
    requires j <= |es| && DistinctSigns(docs) && NoSignProperty(es)
    ensures DistinctSigns(UpsertFrom(docs, es, ok, j).0)
    decreases |es| - j, 1
  {
    if j < |es| && ok(j) {
      UpsertFromOn(docs, es, ok, j);
    } else {
      UpsertFromStop(docs, es, ok, j);
    }
  }

  /** The induction step: the writer goes on from the documents one more
      successful update leaves. */
  lemma {:induction false} UpsertFromOn(docs: seq<Doc>, es: seq<Entry>, ok: nat -> bool, j: nat)
    requires j < |es| && ok(j) && DistinctSigns(docs) && NoSignProperty(es)
    ensures DistinctSigns(UpsertFrom(docs, es, ok, j).0)
    decreases |es| - j, 0
  {
    var next := UpsertFromStep(docs, es, ok, j);
    UpsertFromKeepsDistinct(next, es, ok, j + 1);
  }

  /** One successful update: the documents after it keep the signs
      distinct, and the writer goes on from them. */
  lemma UpsertFromStep(docs: seq<Doc>, es: seq<Entry>, ok: nat -> bool, j: nat) returns (next: seq<Doc>)
    requires j < |es| && ok(j) && DistinctSigns(docs) && NoSignProperty(es)
    ensures DistinctSigns(next) && UpsertFrom(docs, es, ok, j) == UpsertFrom(next, es, ok, j + 1)
  {
    next := UpsertEntry(docs, es[j]);
    EntryKeepsDistinct(docs, es, j);
  }

  lemma UpsertFromStop(docs: seq<Doc>, es: seq<Entry>, ok: nat -> bool, j: nat)
    requires j <= |es| && !(j < |es| && ok(j)) && DistinctSigns(docs)
    ensures DistinctSigns(UpsertFrom(docs, es, ok, j).0)
  {
    assert UpsertFrom(docs, es, ok, j).0 == docs;
  }

  lemma EntryKeepsDistinct(docs: seq<Doc>, es: seq<Entry>, j: nat)
    requires j < |es| && DistinctSigns(docs) && NoSignProperty(es)
    ensures DistinctSigns(UpsertEntry(docs, es[j]))
  {
    var sign := ToLower(es[j].0);
    assert !OwnSign(es[j].1);
    FieldsKeepSign(sign, es[j].1);
    UpsertKeepsDistinct(docs, sign, Fields(sign, es[j].1));
  }

  /** The k-th report and the k-th change to the database depend only on
      the k-th result and the state the earlier scrapers left: a failing
      scraper does not stop the next one. */
  lemma {:induction false} EachScraperRuns(store: Store, tasks: seq<Task>, results: seq<JsResult>, ok: nat -> nat -> bool, k: nat)
    requires |results| == |tasks| && k < |tasks|
    ensures var before := RunTasks(store, tasks[..k], results[..k], ok);
      RunTasks(store, tasks, results, ok).reports[k] == RunTask(before.store, tasks[k], results[k], ok(k)).reports[0]
    decreases |tasks|
  {
    var n := |tasks| - 1;
    RunTasksLast(store, tasks, results, ok);
    if k < n {
      assert tasks[..n][..k] == tasks[..k] && results[..n][..k] == results[..k];
      EachScraperRuns(store, tasks[..n], results[..n], ok, k);
    } else {
      assert tasks[..k] == tasks[..n] && results[..k] == results[..n];
    }
  }

  /** The reports of the loop are those of the scrapers before the last,
      followed by the last one's. */
  lemma RunTasksLast(store: Store, tasks: seq<Task>, results: seq<JsResult>, ok: nat -> nat -> bool)
    requires |results| == |tasks| && tasks != []
    ensures var n := |tasks| - 1;
      var before := RunTasks(store, tasks[..n], results[..n], ok);
      RunTasks(store, tasks, results, ok).reports == before.reports + RunTask(before.store, tasks[n], results[n], ok(n)).reports
  {
  }

  /** A failed connection rejects before the first scraper: nothing is
      written and nothing is reported. An established connection runs all
      ten. */
  lemma ConnectionGatesScrapers(store: Store, flag: nat, outcome: Result<nat>, results: seq<JsResult>, ok: nat -> nat -> bool)
    requires |results| == |Scrapers|
    ensures flag == 0 && outcome.Err? ==> Program(store, flag, outcome, results, ok) == Ran(store, [])
    ensures flag != 0 || outcome.Ok? ==> |Program(store, flag, outcome, results, ok).reports| == 10
  {
  }

  // ---------------------------------------------------------------------
  // The database, as the object the writers update.

  class Database {
    var horoscopes: seq<Doc>
    var collections: map<Model, seq<Json>>

    function Snapshot(): Store
      reads this
    {
      Store(horoscopes, collections)
    }

    constructor ()
      ensures Snapshot() == Store([], map[])
    {
      horoscopes := [];
      collections := map[];
    }

    /** `Horoscope.updateOne({ sign }, fields, { upsert: true })`. */
    method UpdateOne(sign: string, fields: Doc, ok: bool) returns (error: Option<Error>)
      modifies this
      ensures horoscopes == (if ok then Upsert(old(horoscopes), sign, fields) else old(horoscopes))
      ensures collections == old(collections)
      ensures error == (if ok then None else Some(WriteFailed))
    {
      if !ok {
        return Some(WriteFailed);
      }
      horoscopes := Upsert(horoscopes, sign, fields);
      error := None;
    }

    /** `insertMany(data, { ordered: false })` on one collection. */
    method InsertMany(m: Model, data: Json, ok: bool) returns (error: Option<Error>)
      modifies this
      ensures collections == (if ok then old(collections)[m := Stored(old(collections), m) + AsDocs(data)] else old(collections))
      ensures horoscopes == old(horoscopes)
      ensures error == (if ok then None else Some(WriteFailed))
    {
      if !ok {
        return Some(WriteFailed);
      }
      collections := collections[m := Stored(collections, m) + AsDocs(data)];
      error := None;
    }

    /** `deleteMany({})` on one collection. */
    method DeleteMany(m: Model, ok: bool) returns (error: Option<Error>)
      modifies this
      ensures collections == (if ok then old(collections)[m := []] else old(collections))
      ensures horoscopes == old(horoscopes)
      ensures error == (if ok then None else Some(WriteFailed))
    {
      if !ok {
        return Some(WriteFailed);
      }
      collections := collections[m := []];
      error := None;
    }

    /** The upsert loop over the entries of the horoscope object, stopping
        at the first write that fails. */
    method UpsertHoroscopes(es: seq<Entry>, ok: nat -> bool) returns (error: Option<Error>)
      modifies this
      ensures (horoscopes, error) == UpsertFrom(old(horoscopes), es, ok, 0)
      ensures collections == old(collections)
    {
      var j := 0;
      while j < |es|
        invariant 0 <= j <= |es|
        invariant collections == old(collections)
        invariant UpsertFrom(horoscopes, es, ok, j) == UpsertFrom(old(horoscopes), es, ok, 0)
      {
        var sign := ToLower(es[j].0);
        error := UpdateOne(sign, Fields(sign, es[j].1), ok(j));
        if error.Some? {
          assert UpsertFrom(horoscopes, es, ok, j) == (horoscopes, error);
          return;
        }
        j := j + 1;
      }
      error := None;
    }

    /** A scraper's `save(data)`. */
    method Save(saver: Saver, data: Json, ok: nat -> bool) returns (error: Option<Error>)
      modifies this
      ensures Written(Snapshot(), error) == Saving(old(Snapshot()), saver, data, ok)
    {
      match saver {
        case HoroscopeUpsert =>
          match EntriesOf(data) {
            case Err(e) =>
              return Some(e);
            case Ok(es) =>
              error := UpsertHoroscopes(es, ok);
          }
        case Append(m) =>
          error := InsertMany(m, data, ok(0));
        case ReplaceAll(m) =>
          error := Replace(m, data, ok(0), ok(1));
      }
    }

    /** `deleteMany({})` then, if it resolved, `insertMany(data)`. */
    method Replace(m: Model, data: Json, deleteOk: bool, insertOk: bool) returns (error: Option<Error>)
      modifies this
      ensures horoscopes == old(horoscopes)
      ensures collections == (if !deleteOk then old(collections)
                              else old(collections)[m := if insertOk then AsDocs(data) else []])
      ensures error == (if deleteOk && insertOk then None else Some(WriteFailed))
    {
      error := DeleteMany(m, deleteOk);
      if error.Some? {
        return;
      }
      error := InsertMany(m, data, insertOk);
      assert [] + AsDocs(data) == AsDocs(data);
    }
  }

  /** The body of the loop for one scraper. */
  method RunScraper(db: Database, task: Task, r: JsResult, ok: nat -> bool) returns (report: Report)
    modifies db
    ensures Ran(db.Snapshot(), [report]) == RunTask(old(db.Snapshot()), task, r, ok)
  {
    match Gate(r) {
      case Catch(e) =>
        report := Failed(e);
      case Skip =>
        report := NoData;
      case Save(data) =>
        var e := db.Save(task.saver, data, ok);
        report := if e.Some? then Failed(e.value) else Saved;
    }
  }

  lemma RunTasksStep(store: Store, tasks: seq<Task>, results: seq<JsResult>, ok: nat -> nat -> bool, k: nat)
    requires |results| == |tasks| && k < |tasks|
    ensures var before := RunTasks(store, tasks[..k], results[..k], ok);
      var step := RunTask(before.store, tasks[k], results[k], ok(k));
      RunTasks(store, tasks[..k + 1], results[..k + 1], ok) == Ran(step.store, before.reports + step.reports)
  {
    assert tasks[..k + 1][..k] == tasks[..k];
    assert results[..k + 1][..k] == results[..k];
  }

  /** The loop over the scrapers in order, each run caught, with the pause
      after each. */
  method RunScrapers(db: Database, tasks: seq<Task>, results: seq<JsResult>,
                     ok: nat -> nat -> bool, random: nat -> real)
    returns (reports: seq<Report>, delays: seq<int>)
    requires |results| == |tasks|
    requires forall k: nat :: 0.0 <= random(k) < 1.0
    modifies db
    ensures Ran(db.Snapshot(), reports) == RunTasks(old(db.Snapshot()), tasks, results, ok)
    ensures |delays| == |reports|
    ensures forall k :: 0 <= k < |delays| ==> 3000 <= delays[k] < 4000
  {
    reports, delays := [], [];
    var k := 0;
    while k < |tasks|
      invariant 0 <= k <= |tasks|
      invariant Ran(db.Snapshot(), reports) == RunTasks(old(db.Snapshot()), tasks[..k], results[..k], ok)
      invariant |delays| == |reports|
      invariant forall i :: 0 <= i < |delays| ==> 3000 <= delays[i] < 4000
    {
      var report := RunScraper(db, tasks[k], results[k], ok(k));
      RunTasksStep(old(db.Snapshot()), tasks, results, ok, k);
      reports := reports + [report];
      var delay := 3000 + (random(k) * 1000.0).Floor;
      delays := delays + [delay];
      k := k + 1;
    }
    assert tasks[..k] == tasks;
    assert results[..k] == results;
  }

  /** `runAllScrapers().then(cleanupAndExit).catch(cleanupAndExit)`:
      connect, then run every scraper, catching its failure, and pause
      `3000 + floor(random * 1000)` milliseconds after each. */
  method RunAllScrapers(db: Database, conn: Connection, outcome: Result<nat>, results: seq<JsResult>,
                        ok: nat -> nat -> bool, random: nat -> real)
    returns (reports: seq<Report>, delays: seq<int>, exitCode: int)
    requires |results| == |Scrapers|
    requires forall k: nat :: 0.0 <= random(k) < 1.0
    modifies db, conn
    ensures exitCode == 0
    ensures var s := ConnectStep(old(conn.isConnected), outcome);
      conn.isConnected == s.flag && conn.attempts == old(conn.attempts) + (if s.attempted then 1 else 0)
    ensures Ran(db.Snapshot(), reports) == Program(old(db.Snapshot()), old(conn.isConnected), outcome, results, ok)
    ensures |delays| == |reports|
    ensures forall k :: 0 <= k < |delays| ==> 3000 <= delays[k] < 4000
  {
    var error := conn.Connect(outcome);
    if error.Some? {
      return [], [], 0;
    }
    reports, delays := RunScrapers(db, Scrapers, results, ok, random);
    exitCode := 0;
  }
}
