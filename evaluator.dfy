/**
 * The tree evaluator: a single "current" value starts at the document root
 * and each step of the compiled path moves it to a child. A key needs an
 * object and an index needs an array; a missing key gives the `json` crate's
 * shared Null; landing on Null ends the walk early.
 */
module Evaluator {
  import opened Wrappers
  import opened JsonValues
  import opened Tokenizer

  /** The three ways a step can fail, each a panic in the program. */
  datatype EvalError =
    | KeyOnNonObject
    | IndexOnNonArray
    | IndexOutOfBounds(index: nat, length: nat)

  /** Object indexing in the `json` crate: the field's value, or Null when the key is absent. */
  function Lookup(fields: map<string, Json>, key: string): Json {
    if key in fields then fields[key] else Null
  }

  /**
   * One step applied to the current value: a key selects the field of that
   * name (Null when absent), an index selects the element at that 0-based
   * position, and each mismatch fails with its own error.
   */
  function ApplyStep(v: Json, step: QueryStep): (r: Result<Json, EvalError>)
    ensures step.Key? ==> (r.Err? <==> !v.Object?)
    ensures step.Index? ==> (r.Err? <==> !v.Array? || step.n >= |v.items|)
    ensures step.Key? && v.Object? && step.name in v.fields ==> r == Ok(v.fields[step.name])
    ensures step.Key? && v.Object? ==> (r == Ok(Null) <==> step.name !in v.fields || v.fields[step.name] == Null)
    ensures step.Index? && v.Array? && step.n < |v.items| ==> r == Ok(v.items[step.n])
    ensures step.Key? && !v.Object? ==> r == Err(KeyOnNonObject)
    ensures step.Index? && !v.Array? ==> r == Err(IndexOnNonArray)
    ensures step.Index? && v.Array? && step.n >= |v.items| ==> r == Err(IndexOutOfBounds(step.n, |v.items|))
    ensures r.Ok? ==> r.value == Null || IsChild(r.value, v)
  {
    match step
    case Key(key) =>
      if v.Object? then Ok(Lookup(v.fields, key)) else Err(KeyOnNonObject)
    case Index(n) =>
      if !v.Array? then Err(IndexOnNonArray)
      else if n < |v.items| then Ok(v.items[n])
      else Err(IndexOutOfBounds(n, |v.items|))
  }

  /**
   * The evaluation of `steps` from `v`: each step in order, stopping with
   * Null as soon as a step lands on Null, and failing at the first step
   * that fails.
   */
  function Walk(v: Json, steps: seq<QueryStep>): Result<Json, EvalError>
    decreases |steps|
  {
    if steps == [] then Ok(v)
    else match ApplyStep(v, steps[0])
      case Err(e) => Err(e)
      case Ok(w) => if w == Null then Ok(Null) else Walk(w, steps[1..])
  }

  /**
   * The evaluating loop: `value` is reassigned at each step and the loop
   * breaks as soon as it is Null. The document is a value, so evaluation
   * cannot change it.
   */
  method Evaluate(root: Json, steps: seq<QueryStep>) returns (r: Result<Json, EvalError>)
    ensures r == Walk(root, steps)
  {
    var value := root;
    var i := 0;
    while i < |steps|
      invariant 0 <= i <= |steps|
      invariant Walk(root, steps) == Walk(value, steps[i..])
    {
      assert steps[i..][0] == steps[i] && steps[i..][1..] == steps[i + 1..];
      match steps[i] {
        case Key(key) =>
          if !value.Object? {
            return Err(KeyOnNonObject);
          }
          value := Lookup(value.fields, key);
          if value == Null {
            break;
          }
        case Index(index) =>
          if !value.Array? {
            return Err(IndexOnNonArray);
          }
          if index >= |value.items| {
            return Err(IndexOutOfBounds(index, |value.items|));
          }
          value := value.items[index];
          if value == Null {
            break;
          }
      }
      i := i + 1;
    }
    return Ok(value);
  }
}
