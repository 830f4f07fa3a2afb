/**
 * One run of the program: tokenize the query, evaluate it against the
 * already parsed document, and report a value, "no result", or the panic
 * that ends the run.
 */
module Program {
  import opened Wrappers
  import opened JsonValues
  import opened Tokenizer
  import opened Evaluator
  import opened EvaluatorLaws

  /** Why a run ends abnormally: a bad index in the query, or a failing step. */
  datatype Failure = QueryFailure(scan: ScanError) | StepFailure(step: EvalError)

  /** What the run reports: a value to print, "no result", or a failure. */
  datatype Outcome = Found(value: Json) | NoResult | Failed(failure: Failure)

  /** A run's outcome, from the query string and the parsed document. */
  function Answer(doc: Json, query: string): (o: Outcome)
    ensures o.Found? <==> Scan(query).Ok? && Walk(doc, Scan(query).value).Ok? && Walk(doc, Scan(query).value).value != Null
    ensures o.Found? ==> o.value != Null && Walk(doc, Scan(query).value) == Ok(o.value)
    ensures o == NoResult <==> Scan(query).Ok? && Walk(doc, Scan(query).value) == Ok(Null)
    ensures o.Failed? && o.failure.QueryFailure? <==> Scan(query).Err?
    ensures o.Failed? && o.failure.QueryFailure? ==> Scan(query) == Err(o.failure.scan)
    ensures o.Failed? && o.failure.StepFailure? <==> Scan(query).Ok? && Walk(doc, Scan(query).value).Err?
    ensures o.Failed? && o.failure.StepFailure? ==> Walk(doc, Scan(query).value) == Err(o.failure.step)
  {
    match Scan(query)
    case Err(e) => Failed(QueryFailure(e))
    case Ok(steps) =>
      match Walk(doc, steps)
      case Err(e) => Failed(StepFailure(e))
      case Ok(v) => if v == Null then NoResult else Found(v)
  }

  /** The body of the program after its input has been read and parsed. */
  method Run(doc: Json, query: string) returns (o: Outcome)
    ensures o == Answer(doc, query)
  {
    var queries := Compile(query);
    match queries {
      case Err(e) =>
        return Failed(QueryFailure(e));
      case Ok(steps) =>
        var value := Evaluate(doc, steps);
        match value {
          case Err(e) =>
            return Failed(StepFailure(e));
          case Ok(v) =>
            if v == Null {
              return NoResult;
            }
            return Found(v);
        }
    }
  }

  /**
   * The whole run against the reference path following: a value is printed
   * exactly when it is not Null and following every step of the tokenized
   * query from the document reaches it.
   */
  lemma FoundIff(doc: Json, query: string, w: Json)
    ensures Answer(doc, query) == Found(w) <==> w != Null && Scan(query).Ok? && Follow(doc, Scan(query).value) == Ok(w)
  {
    if Scan(query).Ok? && w != Null {
      FoundIsSubtree(doc, Scan(query).value, w);
    }
  }

  /**
   * A run panics on a step exactly when the tokenized query reaches no Null
   * on the way and following it fails, with that step's error.
   */
  lemma StepFailureIff(doc: Json, query: string, e: EvalError)
    ensures Answer(doc, query) == Failed(StepFailure(e)) <==>
      Scan(query).Ok? && !LandsOnNull(doc, Scan(query).value) && Follow(doc, Scan(query).value) == Err(e)
  {
    if Scan(query).Ok? {
      WalkIsFollowUntilNull(doc, Scan(query).value);
    }
  }
}
