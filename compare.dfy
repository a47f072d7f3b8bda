/** The comparison step (`calcDiff`): the results of two politics scrapers,
    awaited one after the other, are labelled with their sources and sent
    together to the service in three attempts that each parse the reply,
    write it to the final file and return it, ending in a diagnostic file
    on exhaustion. The second scraper is not part of this model; its
    result is an input. */
module Compare {
  import opened Common
  import opened Text
  import opened Retry

  /** The service called with a batch: `ai(batch, k)` is what call k with
      that batch settles to. */
  type BatchAgent = (Json, nat) -> AiReply

  /** The calls of one loop, all made with the same batch. */
  function CallsWith(ai: BatchAgent, batch: Json): Agent {
    (k: nat) => ai(batch, k)
  }

  /** `{ source: name, articles: result }` as `JSON.stringify` sees it: a
      result of `undefined` leaves the `articles` key out. */
  function Labelled(name: string, result: JsResult): (r: Json)
    requires !result.Threw?
    ensures r.JObj? && |r.entries| >= 1 && r.entries[0] == ("source", JStr(name))
    ensures result.Returned? <==> |r.entries| == 2
    ensures result.Returned? ==> r.entries[1] == ("articles", result.value)
  {
    JObj([("source", JStr(name))] + (if result.Returned? then [("articles", result.value)] else []))
  }

  /** The batch, in this fixed order. */
  function Batch(hindu: JsResult, thePrint: JsResult): (r: Json)
    requires !hindu.Threw? && !thePrint.Threw?
    ensures r.JArr? && |r.items| == 2
    ensures r.items[0] == Labelled("The Hindu", hindu) && r.items[1] == Labelled("The Print", thePrint)
  {
    JArr([Labelled("The Hindu", hindu), Labelled("The Print", thePrint)])
  }

  const CompareLoop: Retry.Config := Retry.Config(3, true, true, false, Diagnose)

  /** One call of `calcDiff`: a rejection of either scraper rejects it
      before any call, the first one's first. */
  function CalcDiff(hindu: JsResult, thePrint: JsResult, ai: BatchAgent, parse: Parser, writeOk: nat -> bool): Outcome {
    if hindu.Threw? then Outcome(hindu, 0, None, None)
    else if thePrint.Threw? then Outcome(thePrint, 0, None, None)
    else Retried(CompareLoop, CallsWith(ai, Batch(hindu, thePrint)), parse, writeOk)
  }

  /** `calcDiff` as written. */
  method CalcDiffLoop(hindu: JsResult, thePrint: JsResult, ai: BatchAgent, parse: Parser, writeOk: nat -> bool)
    returns (o: Outcome)
    ensures o == CalcDiff(hindu, thePrint, ai, parse, writeOk)
  {
    if hindu.Threw? {
      return Outcome(hindu, 0, None, None);
    }
    if thePrint.Threw? {
      return Outcome(thePrint, 0, None, None);
    }
    var articles := Batch(hindu, thePrint);
    o := RetryLoop(CompareLoop, CallsWith(ai, articles), parse, writeOk);
  }

  /** A rejected scraper makes no call and rejects with its own error. */
  lemma SourceRejects(hindu: JsResult, thePrint: JsResult, ai: BatchAgent, parse: Parser, writeOk: nat -> bool)
    requires hindu.Threw? || thePrint.Threw?
    ensures var o := CalcDiff(hindu, thePrint, ai, parse, writeOk);
      o.calls == 0 && o.result == (if hindu.Threw? then hindu else thePrint) && o.saved == None && o.diagnostic == None
  {
  }

  /** Once both sources are in, the call never rejects: at most three calls,
      every one with the same batch, and either the value is written and
      returned or the diagnostic is written and nothing is returned. */
  lemma CompareEnds(hindu: JsResult, thePrint: JsResult, ai: BatchAgent, parse: Parser, writeOk: nat -> bool)
    requires !hindu.Threw? && !thePrint.Threw?
    ensures var o := CalcDiff(hindu, thePrint, ai, parse, writeOk);
      1 <= o.calls <= 3 && (o.saved.Some? <==> o.diagnostic.None?) &&
      o.result == (if o.saved.Some? then Returned(o.saved.value) else Undefined)
  {
    var calls := CallsWith(ai, Batch(hindu, thePrint));
    RetryCalls(CompareLoop, calls, parse, writeOk);
    DiagnoseNeverThrows(CompareLoop, calls, parse, writeOk);
  }

  /** The first attempt that parses and is written decides the call. */
  lemma CompareFirstSuccess(hindu: JsResult, thePrint: JsResult, ai: BatchAgent, parse: Parser, writeOk: nat -> bool, j: nat)
    requires !hindu.Threw? && !thePrint.Threw?
    requires j < 3 && Succeeds(CompareLoop, CallsWith(ai, Batch(hindu, thePrint)), parse, writeOk, j)
    requires forall i :: 0 <= i < j ==> !Succeeds(CompareLoop, CallsWith(ai, Batch(hindu, thePrint)), parse, writeOk, i)
    ensures var d := parse(Clean(ai(Batch(hindu, thePrint), j).text)).value;
      CalcDiff(hindu, thePrint, ai, parse, writeOk) == Outcome(Returned(d), j + 1, Some(d), None)
  {
    PlainSuccess(CallsWith(ai, Batch(hindu, thePrint))(j), parse, CompareLoop, writeOk(j));
    RetrySucceeds(CompareLoop, CallsWith(ai, Batch(hindu, thePrint)), parse, writeOk, j);
  }

  /** Three failed attempts write the last cleaned reply, or the fixed
      fallback text, to the diagnostic file. */
  lemma CompareExhausted(hindu: JsResult, thePrint: JsResult, ai: BatchAgent, parse: Parser, writeOk: nat -> bool)
    requires !hindu.Threw? && !thePrint.Threw?
    requires forall i :: 0 <= i < 3 ==> !Succeeds(CompareLoop, CallsWith(ai, Batch(hindu, thePrint)), parse, writeOk, i)
    ensures var last := LastCleaned(CompareLoop, CallsWith(ai, Batch(hindu, thePrint)), parse, writeOk, 3);
      CalcDiff(hindu, thePrint, ai, parse, writeOk) == Outcome(Undefined, 3, None, Some(if last == "" then NoOutput else last))
  {
    RetryExhausted(CompareLoop, CallsWith(ai, Batch(hindu, thePrint)), parse, writeOk);
  }
}
