/**
 * What the evaluator promises, stated against a reference definition of
 * path following: `Follow` applies every step in turn to the value the
 * previous steps reached, with no early stop. The evaluator agrees with it
 * except when some step lands on Null, and then the answer is Null.
 */
module EvaluatorLaws {
  import opened Wrappers
  import opened JsonValues
  import opened Tokenizer
  import opened Evaluator

  /** The value `steps` reach from `v`, each step applied to what the steps before it reached. */
  function Follow(v: Json, steps: seq<QueryStep>): Result<Json, EvalError>
    decreases |steps|
  {
    if steps == [] then Ok(v)
    else match Follow(v, steps[..|steps| - 1])
      case Err(e) => Err(e)
      case Ok(u) => ApplyStep(u, steps[|steps| - 1])
  }

  /** Some non-empty prefix of `steps` reaches Null from `v`. */
  ghost predicate LandsOnNull(v: Json, steps: seq<QueryStep>) {
    exists k :: 1 <= k <= |steps| && Follow(v, steps[..k]) == Ok(Null)
  }

  /** Following a path from its first step: apply it, then follow the rest from there. */
  lemma {:induction false} FollowCons(v: Json, x: QueryStep, t: seq<QueryStep>)
    ensures Follow(v, [x] + t) ==
      match ApplyStep(v, x)
      case Err(e) => Err(e)
      case Ok(u) => Follow(u, t)
    decreases |t|
  {
    var s := [x] + t;
    if t == [] {
      assert s[..0] == [];
    } else {
      var init := t[..|t| - 1];
      assert s[..|s| - 1] == [x] + init;
      assert s[|s| - 1] == t[|t| - 1];
      FollowCons(v, x, init);
    }
  }

  /** Nothing can be followed out of Null: every step on Null fails. */
  lemma FollowFromNull(steps: seq<QueryStep>)
    requires steps != []
    ensures Follow(Null, steps).Err?
  {
    FollowCons(Null, steps[0], steps[1..]);
    assert [steps[0]] + steps[1..] == steps;
  }

  /**
   * The evaluator is path following cut short at Null: its result is Null
   * when some step lands on Null, and otherwise exactly what following the
   * whole path gives, value or error alike.
   */
  lemma {:induction false} WalkIsFollowUntilNull(v: Json, steps: seq<QueryStep>)
    ensures Walk(v, steps) == if LandsOnNull(v, steps) then Ok(Null) else Follow(v, steps)
    decreases |steps|
  {
    if steps == [] {
      assert !LandsOnNull(v, steps);
    } else {
      var x, t := steps[0], steps[1..];
      assert steps == [x] + t;
      FollowCons(v, x, t);
      forall k | 1 <= k <= |steps|
        ensures Follow(v, steps[..k]) ==
          match ApplyStep(v, x)
          case Err(e) => Err(e)
          case Ok(u) => Follow(u, t[..k - 1])
      {
        assert steps[..k] == [x] + t[..k - 1];
        FollowCons(v, x, t[..k - 1]);
      }
      match ApplyStep(v, x)
      case Err(e) =>
        assert !LandsOnNull(v, steps);
      case Ok(u) =>
        if u == Null {
          assert Follow(v, steps[..1]) == Ok(Null);
        } else {
          WalkIsFollowUntilNull(u, t);
          if LandsOnNull(u, t) {
            var k :| 1 <= k <= |t| && Follow(u, t[..k]) == Ok(Null);
            assert Follow(v, steps[..k + 1]) == Ok(Null);
          }
          if LandsOnNull(v, steps) {
            var k :| 1 <= k <= |steps| && Follow(v, steps[..k]) == Ok(Null);
            assert k != 1;
            assert Follow(u, t[..k - 1]) == Ok(Null);
          }
        }
    }
  }

  /**
   * A value that is not Null is the result exactly when it is the subtree
   * that applying each step in turn reaches.
   */
  lemma FoundIsSubtree(root: Json, steps: seq<QueryStep>, w: Json)
    requires w != Null
    ensures Walk(root, steps) == Ok(w) <==> Follow(root, steps) == Ok(w)
  {
    WalkIsFollowUntilNull(root, steps);
    if LandsOnNull(root, steps) {
      var k :| 1 <= k <= |steps| && Follow(root, steps[..k]) == Ok(Null);
      if k < |steps| {
        FollowAppend(root, steps[..k], steps[k..]);
        assert steps[..k] + steps[k..] == steps;
        FollowFromNull(steps[k..]);
      } else {
        assert steps[..k] == steps;
      }
    }
  }

  /**
   * The "no result" outcome: the result is Null exactly when the path is
   * empty and the document is Null, or some step lands on Null (a missing
   * key or an explicit null).
   */
  lemma NoResultIff(root: Json, steps: seq<QueryStep>)
    ensures Walk(root, steps) == Ok(Null) <==> (steps == [] && root == Null) || LandsOnNull(root, steps)
  {
    WalkIsFollowUntilNull(root, steps);
    if steps != [] && Follow(root, steps) == Ok(Null) {
      assert steps[..|steps|] == steps;
    }
  }

  /** Following `p + q` is following `p`, then `q` from where `p` arrived. */
  lemma {:induction false} FollowAppend(v: Json, p: seq<QueryStep>, q: seq<QueryStep>)
    ensures Follow(v, p + q) ==
      match Follow(v, p)
      case Err(e) => Err(e)
      case Ok(u) => Follow(u, q)
    decreases |q|
  {
    if q == [] {
      assert p + q == p;
    } else {
      var init := q[..|q| - 1];
      assert (p + q)[..|p + q| - 1] == p + init;
      assert (p + q)[|p + q| - 1] == q[|q| - 1];
      FollowAppend(v, p, init);
    }
  }

  /**
   * Evaluating `p + q` is evaluating `p`, then, unless that failed or
   * stopped at Null, evaluating `q` from where `p` arrived.
   */
  lemma {:induction false} WalkAppend(v: Json, p: seq<QueryStep>, q: seq<QueryStep>)
    requires p != []
    ensures Walk(v, p + q) ==
      match Walk(v, p)
      case Err(e) => Err(e)
      case Ok(w) => if w == Null then Ok(Null) else Walk(w, q)
    decreases |p|
  {
    var s := p + q;
    assert s[0] == p[0];
    assert s[1..] == p[1..] + q;
    match ApplyStep(v, p[0])
    case Err(e) =>
    case Ok(u) =>
      if u != Null && p[1..] != [] {
        WalkAppend(u, p[1..], q);
      }
  }

  /**
   * Once the walk is at Null, the remaining steps are not evaluated: a path
   * whose non-empty prefix evaluates to Null evaluates to Null, whatever
   * follows it, even steps that would fail on Null.
   */
  lemma ShortCircuit(v: Json, p: seq<QueryStep>, q: seq<QueryStep>)
    requires p != [] && Walk(v, p) == Ok(Null)
    ensures Walk(v, p + q) == Ok(Null)
  {
    WalkAppend(v, p, q);
  }

  /** On Null itself, with steps still to go, the first step fails: the early stop needs a step to land on Null. */
  lemma WalkFromNull(steps: seq<QueryStep>)
    requires steps != []
    ensures Walk(Null, steps) == Err(if steps[0].Key? then KeyOnNonObject else IndexOnNonArray)
  {
  }
}
