/** The bounded loop every scraper wraps around the transformation service:
    call it with the prepared batch, clean the reply, parse it, and (in some
    scrapers) write the result to a file, retrying a failed attempt until a
    fixed number of calls has been made. The scrapers differ in the number
    of calls, in whether a success is written and returned, in a rewrite of
    the parsed value, and in what exhaustion does: throw an error whose
    message is a prefix and the last error's message, or write the last
    cleaned reply to a diagnostic file and return nothing. */
module Retry {
  import opened Common
  import opened Text
  import opened Entries

  /** What one call of the service settles to: a rejection, a resolved
      `undefined` (the reply had no text), or the reply text. */
  datatype AiReply = AiRejected(message: string) | AiUndefined | AiText(text: string)

  /** Calls are numbered from 0; `ai(k)` is what call k settles to. */
  type Agent = nat -> AiReply

  /** `JSON.parse`: None when it throws. */
  type Parser = string -> Option<Json>

  /** What one attempt comes to: the data, or the error caught and the
      text assigned to the scraper's `cleanedOutput` before it was thrown,
      if the cleaning step was reached. */
  datatype Attempt = Success(data: Json) | Failure(cause: Error, cleaned: Option<string>)

  datatype Exhaust = Throw(prefix: string) | Diagnose

  /** `writes`: the parsed value is written to a result file inside the
      attempt; `returnsData`: a success returns the value; `lowercase`: the
      value goes through the key rewrite before it is returned. */
  datatype Config = Config(maxAttempts: nat, writes: bool, returnsData: bool, lowercase: bool, onExhaust: Exhaust)

  /** The write outcomes of a scraper that writes no result file. */
  const NoFile: nat -> bool := _ => true

  /** The text written to the diagnostic file when no reply was cleaned. */
  const NoOutput: string := "No valid AI output received."

  /** What a call of the scraper function comes to: its result, the number
      of service calls, the value written to the result file, and the text
      written to the diagnostic file. */
  datatype Outcome = Outcome(result: JsResult, calls: nat, saved: Option<Json>, diagnostic: Option<string>)

  /** One attempt: `reply.replace(...)` throws on `undefined`, `JSON.parse`
      may throw, the key rewrite throws on `null`, and the result file
      write may reject; each of these makes the attempt fail. */
  function TryOnce(reply: AiReply, parse: Parser, cfg: Config, writeOk: bool): (a: Attempt)
    ensures a.Success? ==> reply.AiText? && parse(Clean(reply.text)).Some? && (cfg.writes ==> writeOk)
    ensures a.Failure? ==> (a.cleaned.Some? <==> reply.AiText?)
    ensures a.Failure? && reply.AiText? ==> a.cleaned == Some(Clean(reply.text))
  {
    match reply
    case AiRejected(m) => Failure(AgentFailed(m), None)
    case AiUndefined => Failure(TypeError, None)
    case AiText(t) => Handle(Clean(t), parse, cfg, writeOk)
  }

  /** The rest of an attempt once the reply text has been cleaned to `c`. */
  function Handle(c: string, parse: Parser, cfg: Config, writeOk: bool): Attempt {
    match parse(c)
    case None => Failure(InvalidJson(c), Some(c))
    case Some(j) =>
      var v := if cfg.lowercase then LowercaseKeys(j) else Ok(j);
      if v.Err? then Failure(v.error, Some(c))
      else if cfg.writes && !writeOk then Failure(WriteFailed, Some(c))
      else Success(v.value)
  }

  /** What the code after the loop does when the loop ends without a
      return: the throwing variants return `[]` (reached only when no call
      was allowed); the diagnosing variants write the last cleaned text, or
      throw reading `lastError.message` when no attempt ran. */
  function AfterLoop(cfg: Config, calls: nat, last: string, lastErr: Option<Error>): Outcome {
    match cfg.onExhaust
    case Throw(_) => Outcome(Returned(JArr([])), calls, None, None)
    case Diagnose =>
      if lastErr.None? then Outcome(Threw(TypeError), calls, None, None)
      else Outcome(Undefined, calls, None, Some(if last == "" then NoOutput else last))
  }

  /** The attempts of a scraper's loop: attempt `k` handles reply `ai(k)`
      and result file write `writeOk(k)`. */
  function Attempts(cfg: Config, ai: Agent, parse: Parser, writeOk: nat -> bool): nat -> Attempt {
    (k: nat) => TryOnce(ai(k), parse, cfg, writeOk(k))
  }

  /** The loop from attempt `k` on, with `cleanedOutput == last` and
      `lastError == lastErr`, over the attempts `step`. */
  function RunFrom(cfg: Config, step: nat -> Attempt, k: nat, last: string, lastErr: Option<Error>): Outcome
    decreases cfg.maxAttempts - k
  {
    if k >= cfg.maxAttempts then AfterLoop(cfg, k, last, lastErr)
    else
      match step(k)
      case Success(d) =>
        Outcome(if cfg.returnsData then Returned(d) else Undefined, k + 1,
                if cfg.writes then Some(d) else None, None)
      case Failure(e, c) =>
        if cfg.onExhaust.Throw? && k + 1 >= cfg.maxAttempts then
          Outcome(Threw(Exhausted(cfg.onExhaust.prefix, e)), k + 1, None, None)
        else
          RunFrom(cfg, step, k + 1, if c.Some? then c.value else last, Some(e))
  }

  /** The whole loop, from `attempt = 0`, `cleanedOutput = ""`,
      `lastError = null`. */
  function Retried(cfg: Config, ai: Agent, parse: Parser, writeOk: nat -> bool): Outcome {
    RunFrom(cfg, Attempts(cfg, ai, parse, writeOk), 0, "", None)
  }

  /** The loop as the scrapers write it, with its `attempt`, `success`,
      `cleanedOutput` and `lastError` variables. */
  method RetryLoop(cfg: Config, ai: Agent, parse: Parser, writeOk: nat -> bool) returns (o: Outcome)
    ensures o == Retried(cfg, ai, parse, writeOk)
  {
    ghost var step := Attempts(cfg, ai, parse, writeOk);
    var attempt: nat := 0;
    var success := false;
    var cleanedOutput: string := "";
    var lastError: Option<Error> := None;
    var saved: Option<Json> := None;
    while attempt < cfg.maxAttempts && !success
      invariant attempt <= cfg.maxAttempts || (attempt == 0 && !success)
      invariant !success ==> Retried(cfg, ai, parse, writeOk) == RunFrom(cfg, step, attempt, cleanedOutput, lastError)
      invariant !success ==> saved == None
      invariant success ==> Retried(cfg, ai, parse, writeOk) == Outcome(Undefined, attempt, saved, None)
      decreases cfg.maxAttempts - attempt, if success then 0 else 1
    {
      var a := TryOnce(ai(attempt), parse, cfg, writeOk(attempt));
      assert a == step(attempt);
      match a {
        case Success(d) =>
          if cfg.writes {
            saved := Some(d);
          }
          if cfg.returnsData {
            return Outcome(Returned(d), attempt + 1, saved, None);
          }
          success := true;
          attempt := attempt + 1;
        case Failure(e, c) =>
          if c.Some? {
            cleanedOutput := c.value;
          }
          attempt := attempt + 1;
          lastError := Some(e);
          if cfg.onExhaust.Throw? && attempt >= cfg.maxAttempts {
            return Outcome(Threw(Exhausted(cfg.onExhaust.prefix, e)), attempt, None, None);
          }
      }
    }
    if success {
      return Outcome(Undefined, attempt, saved, None);
    }
    o := AfterLoop(cfg, attempt, cleanedOutput, lastError);
  }

  // ---------------------------------------------------------------------
  // What the loop comes to, stated attempt by attempt.

  predicate Succeeds(cfg: Config, ai: Agent, parse: Parser, writeOk: nat -> bool, k: nat) {
    TryOnce(ai(k), parse, cfg, writeOk(k)).Success?
  }

  /** The error attempt `k` throws. */
  function ErrorOf(cfg: Config, ai: Agent, parse: Parser, writeOk: nat -> bool, k: nat): Error
    requires !Succeeds(cfg, ai, parse, writeOk, k)
  {
    TryOnce(ai(k), parse, cfg, writeOk(k)).cause
  }

  /** The text `cleanedOutput` holds after the first `n` of the attempts
      `step`: that of the latest attempt that reached the cleaning step, or
      "". */
  function Cleaned(step: nat -> Attempt, n: nat): string {
    if n == 0 then ""
    else
      match step(n - 1)
      case Failure(_, Some(c)) => c
      case _ => Cleaned(step, n - 1)
  }

  function LastCleaned(cfg: Config, ai: Agent, parse: Parser, writeOk: nat -> bool, n: nat): string {
    Cleaned(Attempts(cfg, ai, parse, writeOk), n)
  }

  lemma {:induction false} RunFromSucceeds(cfg: Config, step: nat -> Attempt, k: nat, j: nat,
                                           last: string, lastErr: Option<Error>)
    requires k <= j < cfg.maxAttempts
    requires step(j).Success?
    requires forall i :: k <= i < j ==> step(i).Failure?
    ensures RunFrom(cfg, step, k, last, lastErr) ==
      Outcome(if cfg.returnsData then Returned(step(j).data) else Undefined, j + 1,
              if cfg.writes then Some(step(j).data) else None, None)
    decreases j - k
  {
    if k < j {
      var a := step(k);
      assert a.Failure?;
      RunFromSucceeds(cfg, step, k + 1, j, if a.cleaned.Some? then a.cleaned.value else last, Some(a.cause));
    }
  }

  /** The first attempt that succeeds ends the loop: the number of calls is
      its number plus one, and its value is written (when the scraper
      writes) and returned (when it returns data). */
  lemma RetrySucceeds(cfg: Config, ai: Agent, parse: Parser, writeOk: nat -> bool, j: nat)
    requires j < cfg.maxAttempts
    requires Succeeds(cfg, ai, parse, writeOk, j)
    requires forall i :: 0 <= i < j ==> !Succeeds(cfg, ai, parse, writeOk, i)
    ensures var d := TryOnce(ai(j), parse, cfg, writeOk(j)).data;
      var o := Retried(cfg, ai, parse, writeOk);
      o.calls == j + 1 && o.diagnostic == None &&
      o.saved == (if cfg.writes then Some(d) else None) &&
      o.result == (if cfg.returnsData then Returned(d) else Undefined)
  {
    var step := Attempts(cfg, ai, parse, writeOk);
    forall i | 0 <= i < j
      ensures step(i).Failure?
    {
      assert !Succeeds(cfg, ai, parse, writeOk, i);
    }
    RunFromSucceeds(cfg, step, 0, j, "", None);
  }

  /** What the loop comes to when every one of the attempts `step` fails:
      the error of the last attempt behind the prefix, or the last cleaned
      text (or the fixed fallback) written to the diagnostic file. */
  function AfterFailures(cfg: Config, step: nat -> Attempt): Outcome
    requires cfg.maxAttempts >= 1 && step(cfg.maxAttempts - 1).Failure?
  {
    var n := cfg.maxAttempts;
    var last := Cleaned(step, n);
    match cfg.onExhaust
    case Throw(p) => Outcome(Threw(Exhausted(p, step(n - 1).cause)), n, None, None)
    case Diagnose => Outcome(Undefined, n, None, Some(if last == "" then NoOutput else last))
  }

  lemma {:induction false} RunFromExhausted(cfg: Config, step: nat -> Attempt, k: nat)
    requires 0 < k <= cfg.maxAttempts
    requires forall i :: 0 <= i < cfg.maxAttempts ==> step(i).Failure?
    requires cfg.onExhaust.Diagnose? || k < cfg.maxAttempts
    ensures RunFrom(cfg, step, k, Cleaned(step, k), Some(step(k - 1).cause)) == AfterFailures(cfg, step)
    decreases cfg.maxAttempts - k
  {
    var n := cfg.maxAttempts;
    if k < n {
      var a := step(k);
      assert a.Failure?;
      if cfg.onExhaust.Throw? && k + 1 >= n {
      } else {
        assert Cleaned(step, k + 1) == (if a.cleaned.Some? then a.cleaned.value else Cleaned(step, k));
        RunFromExhausted(cfg, step, k + 1);
      }
    }
  }

  /** What exhaustion comes to, in the scraper's terms. */
  function Exhaustion(cfg: Config, ai: Agent, parse: Parser, writeOk: nat -> bool): Outcome
    requires cfg.maxAttempts >= 1 && !Succeeds(cfg, ai, parse, writeOk, cfg.maxAttempts - 1)
  {
    var n := cfg.maxAttempts;
    var lastErr := ErrorOf(cfg, ai, parse, writeOk, n - 1);
    var last := LastCleaned(cfg, ai, parse, writeOk, n);
    match cfg.onExhaust
    case Throw(p) => Outcome(Threw(Exhausted(p, lastErr)), n, None, None)
    case Diagnose => Outcome(Undefined, n, None, Some(if last == "" then NoOutput else last))
  }

  /** When every attempt fails, exactly `maxAttempts` calls are made,
      nothing is saved, and the loop ends in `Exhaustion`. */
  lemma RetryExhausted(cfg: Config, ai: Agent, parse: Parser, writeOk: nat -> bool)
    requires cfg.maxAttempts >= 1
    requires forall i :: 0 <= i < cfg.maxAttempts ==> !Succeeds(cfg, ai, parse, writeOk, i)
    ensures Retried(cfg, ai, parse, writeOk) == Exhaustion(cfg, ai, parse, writeOk)
  {
    var step := Attempts(cfg, ai, parse, writeOk);
    forall i | 0 <= i < cfg.maxAttempts
      ensures step(i).Failure?
    {
      assert !Succeeds(cfg, ai, parse, writeOk, i);
    }
    AllFail(cfg, step);
    assert Exhaustion(cfg, ai, parse, writeOk) == AfterFailures(cfg, step);
  }

  lemma AllFail(cfg: Config, step: nat -> Attempt)
    requires cfg.maxAttempts >= 1
    requires forall i :: 0 <= i < cfg.maxAttempts ==> step(i).Failure?
    ensures RunFrom(cfg, step, 0, "", None) == AfterFailures(cfg, step)
  {
    var a := step(0);
    assert a.Failure?;
    if cfg.onExhaust.Throw? && 1 >= cfg.maxAttempts {
    } else {
      assert Cleaned(step, 1) == (if a.cleaned.Some? then a.cleaned.value else "");
      RunFromExhausted(cfg, step, 1);
    }
  }

  /** The number of calls is between one and `maxAttempts`. */
  lemma {:induction false} RunFromCalls(cfg: Config, step: nat -> Attempt, k: nat, last: string, lastErr: Option<Error>)
    requires k <= cfg.maxAttempts
    ensures var o := RunFrom(cfg, step, k, last, lastErr);
      k <= o.calls <= cfg.maxAttempts && (k < cfg.maxAttempts ==> k < o.calls)
    decreases cfg.maxAttempts - k
  {
    if k < cfg.maxAttempts {
      var a := step(k);
      if a.Failure? && !(cfg.onExhaust.Throw? && k + 1 >= cfg.maxAttempts) {
        RunFromCalls(cfg, step, k + 1, if a.cleaned.Some? then a.cleaned.value else last, Some(a.cause));
      }
    }
  }

  lemma RetryCalls(cfg: Config, ai: Agent, parse: Parser, writeOk: nat -> bool)
    ensures var o := Retried(cfg, ai, parse, writeOk);
      o.calls <= cfg.maxAttempts && (cfg.maxAttempts >= 1 ==> o.calls >= 1)
  {
    RunFromCalls(cfg, Attempts(cfg, ai, parse, writeOk), 0, "", None);
  }

  /** A scraper that writes no result file saves nothing. */
  lemma {:induction false} RunFromUnsaved(cfg: Config, step: nat -> Attempt, k: nat, last: string, lastErr: Option<Error>)
    requires !cfg.writes
    ensures RunFrom(cfg, step, k, last, lastErr).saved == None
    decreases cfg.maxAttempts - k
  {
    if k < cfg.maxAttempts {
      var a := step(k);
      if a.Failure? && !(cfg.onExhaust.Throw? && k + 1 >= cfg.maxAttempts) {
        RunFromUnsaved(cfg, step, k + 1, if a.cleaned.Some? then a.cleaned.value else last, Some(a.cause));
      }
    }
  }

  lemma RetryUnsaved(cfg: Config, ai: Agent, parse: Parser, writeOk: nat -> bool)
    requires !cfg.writes
    ensures Retried(cfg, ai, parse, writeOk).saved == None
  {
    RunFromUnsaved(cfg, Attempts(cfg, ai, parse, writeOk), 0, "", None);
  }

  /** A returned value is the value of a successful attempt. */
  lemma {:induction false} RunFromReturned(cfg: Config, step: nat -> Attempt, k: nat, last: string, lastErr: Option<Error>)
    requires k < cfg.maxAttempts
    requires RunFrom(cfg, step, k, last, lastErr).result.Returned?
    ensures exists j :: (k <= j < cfg.maxAttempts && step(j).Success? &&
      RunFrom(cfg, step, k, last, lastErr).result == Returned(step(j).data))
    decreases cfg.maxAttempts - k
  {
    var a := step(k);
    if a.Failure? {
      var next := if a.cleaned.Some? then a.cleaned.value else last;
      assert RunFrom(cfg, step, k, last, lastErr) == RunFrom(cfg, step, k + 1, next, Some(a.cause));
      if k + 1 < cfg.maxAttempts {
        RunFromReturned(cfg, step, k + 1, next, Some(a.cause));
      }
    } else {
      assert step(k).Success?;
    }
  }

  lemma RetryReturned(cfg: Config, ai: Agent, parse: Parser, writeOk: nat -> bool)
    requires cfg.maxAttempts >= 1 && Retried(cfg, ai, parse, writeOk).result.Returned?
    ensures exists j :: (0 <= j < cfg.maxAttempts && Succeeds(cfg, ai, parse, writeOk, j) &&
      Retried(cfg, ai, parse, writeOk).result == Returned(TryOnce(ai(j), parse, cfg, writeOk(j)).data))
  {
    var step := Attempts(cfg, ai, parse, writeOk);
    RunFromReturned(cfg, step, 0, "", None);
    var j :| 0 <= j < cfg.maxAttempts && step(j).Success? && Retried(cfg, ai, parse, writeOk).result == Returned(step(j).data);
    assert Succeeds(cfg, ai, parse, writeOk, j);
  }

  /** A diagnosing scraper that writes its result and was allowed a call
      never throws: either a value was written and no diagnostic, or a
      diagnostic and no value; it returns the written value when it
      returns data, and nothing otherwise. */
  predicate DiagnosedEnd(cfg: Config, o: Outcome) {
    (o.saved.Some? <==> o.diagnostic.None?) &&
    o.result == (if cfg.returnsData && o.saved.Some? then Returned(o.saved.value) else Undefined)
  }

  lemma {:induction false} RunFromDiagnosed(cfg: Config, step: nat -> Attempt, k: nat, last: string, lastErr: Option<Error>)
    requires cfg.onExhaust.Diagnose? && cfg.writes
    requires k <= cfg.maxAttempts && (k == 0 ==> cfg.maxAttempts >= 1) && (k > 0 ==> lastErr.Some?)
    ensures DiagnosedEnd(cfg, RunFrom(cfg, step, k, last, lastErr))
    decreases cfg.maxAttempts - k
  {
    if k < cfg.maxAttempts {
      var a := step(k);
      if a.Failure? {
        var next := if a.cleaned.Some? then a.cleaned.value else last;
        assert RunFrom(cfg, step, k, last, lastErr) == RunFrom(cfg, step, k + 1, next, Some(a.cause));
        RunFromDiagnosed(cfg, step, k + 1, next, Some(a.cause));
      }
    }
  }

  lemma DiagnoseNeverThrows(cfg: Config, ai: Agent, parse: Parser, writeOk: nat -> bool)
    requires cfg.onExhaust.Diagnose? && cfg.writes && cfg.maxAttempts >= 1
    ensures DiagnosedEnd(cfg, Retried(cfg, ai, parse, writeOk))
    ensures !Retried(cfg, ai, parse, writeOk).result.Threw?
  {
    RunFromDiagnosed(cfg, Attempts(cfg, ai, parse, writeOk), 0, "", None);
  }

  // ---------------------------------------------------------------------
  // The unretried ending two scrapers use instead of the loop.

  /** One settled reply handled by a `try` around the cleaning, with an
      inner `try` around the parse and the result file write whose `catch`
      writes the cleaned text to the diagnostic file; every error,
      including one of the diagnostic write, is caught by the outer
      handler. `saveOk` and `dumpOk` say whether the two writes succeed. */
  function SaveOrDump(reply: AiReply, calls: nat, parse: Parser, saveOk: bool, dumpOk: bool): (o: Outcome)
    ensures o.result == Undefined && o.calls == calls
    ensures o.saved.Some? <==> reply.AiText? && parse(Clean(reply.text)).Some? && saveOk
    ensures o.saved.Some? ==> o.saved == parse(Clean(reply.text))
    ensures o.diagnostic.Some? <==> reply.AiText? && !(parse(Clean(reply.text)).Some? && saveOk) && dumpOk
    ensures o.diagnostic.Some? ==> o.diagnostic == Some(Clean(reply.text))
  {
    match reply
    case AiText(t) =>
      var c := Clean(t);
      if parse(c).Some? && saveOk then Outcome(Undefined, calls, parse(c), None)
      else Outcome(Undefined, calls, None, if dumpOk then Some(c) else None)
    case _ => Outcome(Undefined, calls, None, None)
  }

  // ---------------------------------------------------------------------
  // Single attempts.

  /** A parsed reply whose result file cannot be written counts as a failed
      attempt, and the cleaned text is kept for the diagnostic. */
  lemma WriteFailureFails(t: string, parse: Parser, cfg: Config)
    requires parse(Clean(t)).Some? && cfg.writes && !cfg.lowercase
    ensures TryOnce(AiText(t), parse, cfg, false) == Failure(WriteFailed, Some(Clean(t)))
  {
    var c := Clean(t);
    assert TryOnce(AiText(t), parse, cfg, false) == Handle(c, parse, cfg, false);
    HandleWriteFails(c, parse, cfg);
  }

  lemma HandleWriteFails(c: string, parse: Parser, cfg: Config)
    requires parse(c).Some? && cfg.writes && !cfg.lowercase
    ensures Handle(c, parse, cfg, false) == Failure(WriteFailed, Some(c))
  {
  }

  /** Without the key rewrite, a successful attempt's value is the parsed
      cleaned reply, and a scraper that writes was able to write it. */
  lemma PlainSuccess(reply: AiReply, parse: Parser, cfg: Config, writeOk: bool)
    requires !cfg.lowercase && TryOnce(reply, parse, cfg, writeOk).Success?
    ensures reply.AiText? && parse(Clean(reply.text)).Some?
    ensures TryOnce(reply, parse, cfg, writeOk).data == parse(Clean(reply.text)).value
    ensures cfg.writes ==> writeOk
  {
    assert reply.AiText?;
    var c := Clean(reply.text);
    assert TryOnce(reply, parse, cfg, writeOk) == Handle(c, parse, cfg, writeOk);
    HandlePlain(c, parse, cfg, writeOk);
  }

  lemma HandlePlain(c: string, parse: Parser, cfg: Config, writeOk: bool)
    requires !cfg.lowercase && Handle(c, parse, cfg, writeOk).Success?
    ensures parse(c).Some? && Handle(c, parse, cfg, writeOk).data == parse(c).value
    ensures cfg.writes ==> writeOk
  {
  }

  /** A reply fenced as ```json ... ``` whose body parses succeeds with the
      body's value. */
  lemma FencedReplySucceeds(b: string, parse: Parser, cfg: Config, writeOk: bool)
    requires NoBacktick(b) && parse(Trim(b)).Some? && !cfg.lowercase && (cfg.writes ==> writeOk)
    ensures TryOnce(AiText("```json" + b + "```"), parse, cfg, writeOk) == Success(parse(Trim(b)).value)
  {
    var t := "```json" + b + "```";
    CleanFencedReply(b);
    assert TryOnce(AiText(t), parse, cfg, writeOk) == Handle(Trim(b), parse, cfg, writeOk);
  }

  /** Under the key rewrite, a successful attempt's value is an object whose
      keys are all lower case. */
  lemma LowercasedSuccess(reply: AiReply, parse: Parser, cfg: Config, writeOk: bool)
    requires cfg.lowercase && TryOnce(reply, parse, cfg, writeOk).Success?
    ensures TryOnce(reply, parse, cfg, writeOk).data.JObj?
    ensures AllKeysLower(TryOnce(reply, parse, cfg, writeOk).data.entries)
  {
    var j := parse(Clean(reply.text)).value;
    LowercasedData(reply, parse, cfg, writeOk, j);
    LowercaseKeysLower(j);
  }

  lemma LowercasedData(reply: AiReply, parse: Parser, cfg: Config, writeOk: bool, j: Json)
    requires cfg.lowercase && TryOnce(reply, parse, cfg, writeOk).Success?
    requires reply.AiText? && parse(Clean(reply.text)) == Some(j)
    ensures LowercaseKeys(j).Ok?
    ensures TryOnce(reply, parse, cfg, writeOk).data == LowercaseKeys(j).value
  {
    var c := Clean(reply.text);
    assert TryOnce(reply, parse, cfg, writeOk) == Handle(c, parse, cfg, writeOk);
  }
}
