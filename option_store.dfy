/**
 * The `Options` and `CombinedOptions` objects. `CombinedOptions` is a
 * subclass of `Options` in Python; here it owns an `Options` object, `base`,
 * that holds the inherited state (defaults, effective options, validators,
 * convertors, required parameters) and provides the inherited methods.
 */
module OptionStore {
  import opened Values
  import opened Outcomes
  import opened OptionRules
  import opened Layers

  class Options {
    var defaults: Layer
    /** The effective option dictionary (`_options`). */
    var options: Layer
    /** Validators in dictionary order. */
    var validators: seq<(string, Validator)>
    var convertors: map<string, Convertor>
    var required: Required

    /** Every default key has an effective value. */
    ghost predicate Valid()
      reads this
    {
      defaults.Keys <= options.Keys
    }

    /** Sets the fields without validating or converting. */
    constructor Raw(defaults: Layer, options: Layer, validators: seq<(string, Validator)>,
                    convertors: map<string, Convertor>, required: Required)
      ensures this.defaults == defaults && this.options == options && this.validators == validators
      ensures this.convertors == convertors && this.required == required
    {
      this.defaults := defaults;
      this.options := options;
      this.validators := validators;
      this.convertors := convertors;
      this.required := required;
    }

    /**
     * `Options(options, defaults, convertors, validators, required)`: lays
     * `options` over the defaults, validates, then converts; a validation
     * failure is raised and no object results.
     */
    static method New(options: Layer, defaults: Layer, convertors: map<string, Convertor>,
                      validators: seq<(string, Validator)>, required: Required)
      returns (r: Result<Options, OptionError>)
      ensures r.Err? <==> ValidationOutcome(defaults + options, validators, required).Fail?
      ensures r.Err? ==> r.error == ValidationOutcome(defaults + options, validators, required).error
      ensures r.Ok? ==> fresh(r.value) && r.value.Valid()
      ensures r.Ok? ==> r.value.options == ConvertAll(defaults + options, convertors)
      ensures r.Ok? ==> r.value.defaults == defaults && r.value.validators == validators
      ensures r.Ok? ==> r.value.convertors == convertors && r.value.required == required
    {
      var o := new Options.Raw(defaults, defaults + options, validators, convertors, required);
      var outcome := o.Validate();
      if outcome.Fail? {
        return Err(outcome.error);
      }
      o.Convert();
      return Ok(o);
    }

    /**
     * `validate()`: runs the validators in order on the keys that are present,
     * stopping at the first rejection, then checks the required parameters.
     */
    method Validate() returns (r: Outcome<OptionError>)
      ensures r == ValidationOutcome(options, validators, required)
    {
      var i := 0;
      while i < |validators|
        invariant 0 <= i <= |validators|
        invariant forall j :: 0 <= j < i ==> !Rejects(options, validators, j)
      {
        var (key, check) := validators[i];
        if key in options && !check(options[key]) {
          assert Rejects(options, validators, i);
          assert FirstRejected(options, validators) == Some(i);
          return Fail(ValidationError(key));
        }
        i := i + 1;
      }
      if !RequiredSatisfied(required, options.Keys) {
        return Fail(RequiredParamsMissing(required));
      }
      return Pass;
    }

    /**
     * `_convert()`: replaces, in place, the value of every present key that has
     * a convertor. The keys are visited in an arbitrary order; the result does
     * not depend on it.
     */
    method Convert()
      modifies this`options
      ensures options == ConvertAll(old(options), convertors)
    {
      ghost var before := options;
      var todo := convertors.Keys;
      while todo != {}
        invariant todo <= convertors.Keys
        invariant options.Keys == before.Keys
        invariant forall k :: k in options ==>
          options[k] == if k in convertors && k !in todo then convertors[k](before[k]) else before[k]
        decreases todo
      {
        var key :| key in todo;
        if key in options {
          options := options[key := convertors[key](options[key])];
        }
        todo := todo - {key};
      }
      assert forall k :: k in options ==> options[k] == ConvertAll(before, convertors)[k];
    }

    /**
     * `is_default(option)`: false for a key without a default; otherwise
     * whether the effective value `==` the default.
     */
    function IsDefault(option: string): (r: bool)
      reads this
      requires Valid()
      ensures option !in defaults ==> !r
      ensures option in defaults ==> (r <==> PyEq(options[option], defaults[option]))
      ensures option in defaults ==> (r <==> PyEq(defaults[option], options[option]))
      ensures option in defaults && options[option] == defaults[option] ==> r
    {
      if option in defaults then
        PyEqReflexive(defaults[option]);
        PyEqSymmetric(defaults[option], options[option]);
        PyEq(options[option], defaults[option])
      else false
    }

    /** `self[key]`; a missing key raises `KeyError`, modelled as `None`. */
    function Get(key: string): (r: Option<Value>)
      reads this
      ensures r.Some? <==> key in options
      ensures r.Some? ==> r.value == options[key]
    {
      if key in options then Some(options[key]) else None
    }

    /** `get(key, default)`: what `self[key]` gives, or `default` where it would raise. */
    function GetOr(key: string, default: Value): (r: Value)
      reads this
      ensures Get(key).Some? ==> r == Get(key).value
      ensures Get(key).None? ==> r == default
    {
      if key in options then options[key] else default
    }

    /** `key in self`: exactly the keys that `self[key]` can read. */
    function Contains(key: string): (r: bool)
      reads this
      ensures r <==> Get(key).Some?
    {
      key in options
    }

    /** `keys()`, without its order: exactly the keys that `self[key]` can read. */
    function Keys(): (r: set<string>)
      reads this
      ensures forall k :: k in r <==> Get(k).Some?
    {
      options.Keys
    }

    /** `bool(self)`: true exactly when there is some key to read. */
    function NonEmpty(): (r: bool)
      reads this
      ensures r <==> Keys() != {}
    {
      SizeIsKeys(options);
      |options| != 0
    }

    /** `self[key] = val`: stores the value and re-validates; it does not convert. */
    method Set(key: string, val: Value) returns (r: Outcome<OptionError>)
      requires Valid()
      modifies this`options
      ensures Valid()
      ensures options == old(options)[key := val]
      ensures r == ValidationOutcome(options, validators, required)
    {
      options := options[key := val];
      r := Validate();
    }
  }

  /** A map has a key exactly when its size is not zero. */
  lemma SizeIsKeys(m: Layer)
    ensures |m| != 0 <==> m.Keys != {}
  {
    if m.Keys == {} {
      assert |m| == 0;
    } else {
      var k :| k in m.Keys;
      assert k in m;
    }
  }

  /** Every default key can be read, and `get` then ignores its fallback. */
  lemma DefaultKeysReadable(o: Options, key: string, default: Value)
    requires o.Valid() && key in o.defaults
    ensures o.Contains(key) && key in o.Keys()
    ensures o.GetOr(key, default) == o.options[key]
  {
  }

  /** The `priority` argument: a list or tuple of names, one name, or anything else (read as no priority). */
  datatype PriorityArg = PriorityList(list: seq<string>) | PriorityName(name: string) | NoPriority

  /**
   * The list the priority setter works with: a list is taken as it is, a
   * single name becomes a one-name list, anything else no names at all.
   */
  function NormalizePriority(val: PriorityArg): (r: seq<string>)
    ensures val.PriorityList? ==> r == val.list
    ensures val.PriorityName? ==> r == [val.name]
    ensures val.NoPriority? ==> r == []
    ensures forall n :: n in r <==> (val.PriorityList? && n in val.list) || (val.PriorityName? && n == val.name)
  {
    match val
    case PriorityList(list) => list
    case PriorityName(name) => [name]
    case NoPriority => []
  }

  /** The first name of `list` that is not a registered layer, if any. */
  function FirstUnknown(list: seq<string>, layers: map<string, Layer>): (r: Option<string>)
    ensures r.None? <==> Registered(list, layers)
    ensures r.Some? ==> r.value !in layers
    ensures r.Some? ==> exists i :: 0 <= i < |list| && list[i] == r.value && forall j :: 0 <= j < i ==> list[j] in layers
  {
    if list == [] then None
    else if list[0] !in layers then Some(list[0])
    else
      var r := FirstUnknown(list[1..], layers);
      if r.Some? then
        var i :| 0 <= i < |list[1..]| && list[1..][i] == r.value && forall j :: 0 <= j < i ==> list[1..][j] in layers;
        assert list[i + 1] == r.value;
        r
      else
        assert forall n :: n in list ==> n == list[0] || n in list[1..];
        r
  }

  class CombinedOptions {
    /** The inherited `Options` state. */
    const base: Options
    /** Layer names in registration order: the key order of `_options_dict`. */
    var names: seq<string>
    var layers: map<string, Layer>
    var priority: seq<string>

    ghost predicate Valid()
      reads this, base
    {
      && base.Valid()
      && (forall n :: n in names <==> n in layers)
      && Registered(names, layers)
      && Registered(priority, layers)
      && Listed(priority, names)
    }

    /** The effective options that `set_options` builds from the current layers and priority. */
    function Effective(): Layer
      reads this, base
      requires Valid()
    {
      Merged(base.defaults, names, layers, priority)
    }

    /**
     * What `set_options` leaves behind: the rebuilt options are validated,
     * and converted only when validation passed.
     */
    ghost predicate Rebuilt(r: Outcome<OptionError>)
      reads this, base
      requires Valid()
    {
      && r == ValidationOutcome(Effective(), base.validators, base.required)
      && base.options == if r.Pass? then ConvertAll(Effective(), base.convertors) else Effective()
    }

    /** Sets the fields; no priority yet. */
    constructor Raw(names: seq<string>, layers: map<string, Layer>, defaults: Layer,
                    convertors: map<string, Convertor>, validators: seq<(string, Validator)>, required: Required)
      requires forall n :: n in names <==> n in layers
      ensures Valid() && fresh(base)
      ensures this.names == names && this.layers == layers && priority == []
      ensures base.defaults == defaults && base.convertors == convertors
      ensures base.validators == validators && base.required == required
    {
      base := new Options.Raw(defaults, defaults, validators, convertors, required);
      this.names := names;
      this.layers := layers;
      priority := [];
    }

    /**
     * `CombinedOptions(options, priority, defaults, convertors, validators, required)`:
     * registers the layers, then assigns the priority, which rebuilds,
     * validates and converts the effective options.
     */
    static method New(names: seq<string>, layers: map<string, Layer>, priority: PriorityArg, defaults: Layer,
                      convertors: map<string, Convertor>, validators: seq<(string, Validator)>, required: Required)
      returns (r: Result<CombinedOptions, OptionError>)
      requires forall n :: n in names <==> n in layers
      ensures var list := NormalizePriority(priority);
        FirstUnknown(list, layers).Some? ==> r == Err(UnknownPriority(FirstUnknown(list, layers).value))
      ensures var list := NormalizePriority(priority);
        FirstUnknown(list, layers).None? ==>
          var outcome := ValidationOutcome(Merged(defaults, names, layers, list), validators, required);
          && (r.Err? <==> outcome.Fail?)
          && (r.Err? ==> r.error == outcome.error)
      ensures r.Ok? ==> fresh(r.value) && fresh(r.value.base) && r.value.Valid()
      ensures r.Ok? ==> r.value.names == names && r.value.layers == layers
      ensures r.Ok? ==> r.value.priority == NormalizePriority(priority)
      ensures r.Ok? ==> r.value.base.defaults == defaults && r.value.base.validators == validators
      ensures r.Ok? ==> r.value.base.convertors == convertors && r.value.base.required == required
      ensures r.Ok? ==> r.value.base.options == ConvertAll(Merged(defaults, names, layers, NormalizePriority(priority)), convertors)
      ensures r.Ok? ==> r.value.base.options == ConvertAll(r.value.Effective(), convertors)
    {
      var c := new CombinedOptions.Raw(names, layers, defaults, convertors, validators, required);
      var outcome := c.SetPriority(priority);
      if outcome.Fail? {
        return Err(outcome.error);
      }
      return Ok(c);
    }

    /**
     * The `priority` setter: normalises its argument, rejects an unregistered
     * name before changing anything, then stores the list and rebuilds.
     */
    method SetPriority(val: PriorityArg) returns (r: Outcome<OptionError>)
      requires Valid()
      modifies this`priority, base`options
      ensures Valid()
      ensures var list := NormalizePriority(val);
        FirstUnknown(list, layers).Some? ==>
          && r == Fail(UnknownPriority(FirstUnknown(list, layers).value))
          && priority == old(priority) && base.options == old(base.options)
      ensures FirstUnknown(NormalizePriority(val), layers).None? ==>
        priority == NormalizePriority(val) && Rebuilt(r)
    {
      var list := NormalizePriority(val);
      var i := 0;
      while i < |list|
        invariant 0 <= i <= |list|
        invariant forall j :: 0 <= j < i ==> list[j] in layers
      {
        if list[i] !in layers {
          return Fail(UnknownPriority(list[i]));
        }
        i := i + 1;
      }
      priority := list;
      r := SetOptions();
    }

    /**
     * `set_options()`: rebuilds the effective options from the defaults, the
     * non-priority layers in reverse registration order and the priority
     * layers in reverse priority order; then validates and converts.
     */
    method SetOptions() returns (r: Outcome<OptionError>)
      requires Valid()
      modifies base`options
      ensures Valid() && Rebuilt(r)
    {
      NonPriorityRegistered(names, priority, layers);
      base.options := base.defaults;
      var i := |names|;
      while i > 0
        invariant 0 <= i <= |names|
        invariant base.options == ApplyReversed(base.defaults, NonPriority(names[i..], priority), layers)
      {
        i := i - 1;
        assert names[i..][1..] == names[i + 1..];
        if names[i] !in priority {
          base.options := base.options + layers[names[i]];
        }
      }
      assert names[0..] == names;
      ghost var rest := base.options;
      var j := |priority|;
      while j > 0
        invariant 0 <= j <= |priority|
        invariant base.options == ApplyReversed(rest, priority[j..], layers)
      {
        j := j - 1;
        assert priority[j..][1..] == priority[j + 1..];
        base.options := base.options + layers[priority[j]];
      }
      assert priority[0..] == priority;
      ghost var merged := base.options;
      assert merged.Keys >= base.defaults.Keys by {
        forall k | k in base.defaults ensures k in merged {
          MergedKeys(base.defaults, names, layers, priority, k);
        }
      }
      r := base.Validate();
      if r.Pass? {
        base.Convert();
      }
    }
  }
}
