/**
 * What `Options.validate` and `Options._convert` compute, as functions of the
 * effective option map: the validator pass, the required-parameter check and
 * the per-key conversion.
 */
module OptionRules {
  import opened Values
  import opened Outcomes

  /** A validator accepts (true) or raises `ValidationError` (false). */
  type Validator = Value -> bool

  type Convertor = Value -> Value

  /**
   * The `required` argument: a flat list of keys that must all be present, or
   * a list of alternative key combinations of which one must be present.
   */
  datatype Required = Flat(keys: seq<string>) | Combinations(combos: seq<seq<string>>)

  /** The exceptions the option helpers raise. */
  datatype OptionError =
    | ValidationError(key: string)        // a validator rejected the value of `key`
    | RequiredParamsMissing(required: Required)
    | UnknownPriority(name: string)       // `ValueError` from the priority setter

  /** `_check_required(combination)`: every key of the combination is present. */
  function AllPresent(keys: seq<string>, present: set<string>): (r: bool)
    ensures r <==> forall i :: 0 <= i < |keys| ==> keys[i] in present
  {
    if keys == [] then true
    else keys[0] in present && AllPresent(keys[1..], present)
  }

  /** `any(_check_required(comb) for comb in combos)`. */
  function AnyCombination(combos: seq<seq<string>>, present: set<string>): (r: bool)
    ensures r <==> exists i :: 0 <= i < |combos| && AllPresent(combos[i], present)
  {
    if combos == [] then false
    else AllPresent(combos[0], present) || AnyCombination(combos[1..], present)
  }

  /**
   * The required-parameter check of `validate`. An empty `required` list is
   * skipped, so an empty list of combinations never fails.
   */
  function RequiredSatisfied(req: Required, present: set<string>): (r: bool)
    ensures req.Flat? ==> (r <==> forall i :: 0 <= i < |req.keys| ==> req.keys[i] in present)
    ensures req.Combinations? ==>
      (r <==> req.combos == [] || exists i :: 0 <= i < |req.combos| && AllPresent(req.combos[i], present))
  {
    match req
    case Flat(keys) => keys == [] || AllPresent(keys, present)
    case Combinations(combos) => combos == [] || AnyCombination(combos, present)
  }

  /** Validator `i` was run on a present key and rejected its value. */
  predicate Rejects(opts: map<string, Value>, validators: seq<(string, Validator)>, i: int)
    requires 0 <= i < |validators|
  {
    validators[i].0 in opts && !validators[i].1(opts[validators[i].0])
  }

  /**
   * The position of the first validator, in registration order, that runs on
   * a present key and rejects its value; validators of absent keys never run.
   */
  function FirstRejected(opts: map<string, Value>, validators: seq<(string, Validator)>): (r: Option<nat>)
    ensures r.None? <==> forall i :: 0 <= i < |validators| ==> !Rejects(opts, validators, i)
    ensures r.Some? ==> r.value < |validators| && Rejects(opts, validators, r.value)
    ensures r.Some? ==> forall i :: 0 <= i < r.value ==> !Rejects(opts, validators, i)
  {
    if validators == [] then None
    else if Rejects(opts, validators, 0) then Some(0)
    else
      var rest := validators[1..];
      assert forall i :: 1 <= i < |validators| ==> (Rejects(opts, validators, i) <==> Rejects(opts, rest, i - 1));
      match FirstRejected(opts, rest)
      case None => None
      case Some(k) => assert Rejects(opts, validators, k + 1); Some(k + 1)
  }

  /** What `validate()` does with the effective options: raise, or return normally. */
  function ValidationOutcome(opts: map<string, Value>, validators: seq<(string, Validator)>, req: Required)
    : (r: Outcome<OptionError>)
    ensures r.Pass? <==>
      (forall i :: 0 <= i < |validators| ==> !Rejects(opts, validators, i)) && RequiredSatisfied(req, opts.Keys)
    ensures r.Fail? && r.error.ValidationError? ==>
      exists i :: 0 <= i < |validators| && Rejects(opts, validators, i) && validators[i].0 == r.error.key
        && forall j :: 0 <= j < i ==> !Rejects(opts, validators, j)
    ensures r.Fail? && r.error.RequiredParamsMissing? ==>
      (forall i :: 0 <= i < |validators| ==> !Rejects(opts, validators, i)) && r.error.required == req
    ensures r.Fail? ==> !r.error.UnknownPriority?
  {
    match FirstRejected(opts, validators)
    case Some(i) => Fail(ValidationError(validators[i].0))
    case None =>
      if RequiredSatisfied(req, opts.Keys) then Pass else Fail(RequiredParamsMissing(req))
  }

  /**
   * The map `_convert()` leaves behind: each key with a convertor has its
   * value replaced by the convertor's result; every other key keeps its value.
   */
  function ConvertAll(opts: map<string, Value>, convertors: map<string, Convertor>): (r: map<string, Value>)
    ensures r.Keys == opts.Keys
    ensures forall k :: k in opts && k !in convertors ==> r[k] == opts[k]
  {
    map k | k in opts :: if k in convertors then convertors[k](opts[k]) else opts[k]
  }

  /** Combinations `[a, b]` or `[c]`: either group alone is enough, part of a group is not. */
  lemma RequiredCombinationExample()
    ensures RequiredSatisfied(Combinations([["a", "b"], ["c"]]), {"c"})
    ensures !RequiredSatisfied(Combinations([["a", "b"], ["c"]]), {"a"})
    ensures RequiredSatisfied(Combinations([]), {})
    ensures !RequiredSatisfied(Flat(["a", "b"]), {"a"})
  {
    assert AllPresent(["c"], {"c"});
    assert !AllPresent(["a", "b"], {"a"}) by { assert ["a", "b"][1] !in {"a"}; }
  }
}
