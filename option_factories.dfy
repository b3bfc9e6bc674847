/** The stock validators and convertors that option users plug into `Options`. */
module OptionFactories {
  import opened Values
  import opened Outcomes
  import opened OptionRules
  import opened Strings

  /** `validate_in(supported)`: the validator accepts exactly the values `in supported`. */
  function ValidateIn(supported: seq<Value>): (check: Validator)
    ensures forall v :: check(v) <==> exists i :: 0 <= i < |supported| && PyEq(v, supported[i])
  {
    v => PyIn(v, supported)
  }

  /** One entry of a `val_type` type list: `None`, or a class. */
  datatype TypeEntry = NoneMarker | Class(t: PyType)

  /** The `supported` argument of `val_type`. */
  datatype TypeSpec =
    | SpecNone                                // None
    | SpecType(t: PyType)                     // a single type
    | SpecCollection(entries: seq<TypeEntry>) // a list or tuple of types and None
    | SpecOther                               // anything else

  /** The `ValueError` a factory raises for an argument it cannot use. */
  datatype FactoryError = NotATypeSpec

  /**
   * The test of one entry: `None` accepts the values whose class is
   * `NoneType`; a class accepts its instances, `int` including bools.
   */
  function EntryAccepts(e: TypeEntry, v: Value): (r: bool)
    ensures e.NoneMarker? ==> (r <==> TypeOf(v) == NoneType)
    ensures e.Class? ==> (r <==> e.t == TypeOf(v) || e.t == ObjectType || (e.t == IntType && TypeOf(v) == BoolType))
  {
    match e
    case NoneMarker => v.VNone?
    case Class(t) => IsInstance(v, t)
  }

  /** The loop of the `val_type` validator: some entry accepts the value. */
  function AcceptedBySome(entries: seq<TypeEntry>, v: Value): (r: bool)
    ensures r <==> exists i :: 0 <= i < |entries| && EntryAccepts(entries[i], v)
  {
    if entries == [] then false
    else if EntryAccepts(entries[0], v) then true
    else
      assert forall i :: 1 <= i < |entries| ==> entries[i] == entries[1..][i - 1];
      AcceptedBySome(entries[1..], v)
  }

  /**
   * The type list `val_type` builds from its argument: `None` gives a list
   * that accepts only `None`, a single type one that accepts its instances,
   * and a collection is used as it is.
   */
  function TypeList(spec: TypeSpec): (r: seq<TypeEntry>)
    requires !spec.SpecOther?
    ensures spec.SpecNone? ==> forall v :: AcceptedBySome(r, v) <==> v.VNone?
    ensures spec.SpecType? ==> forall v :: AcceptedBySome(r, v) <==> IsInstance(v, spec.t)
    ensures spec.SpecCollection? ==> r == spec.entries
  {
    match spec
    case SpecNone => [NoneMarker]
    case SpecType(t) => [Class(t)]
    case SpecCollection(entries) => entries
  }

  /**
   * `val_type(supported)`: a validator accepting the values that are
   * instances of one of the types (`None` accepts only `None`); an argument
   * that is neither a type, `None` nor a collection raises `ValueError`.
   */
  function ValType(spec: TypeSpec): (r: Result<Validator, FactoryError>)
    ensures r.Err? <==> spec.SpecOther?
    ensures r.Ok? && spec.SpecNone? ==> forall v :: r.value(v) <==> v.VNone?
    ensures r.Ok? && spec.SpecType? ==> forall v :: r.value(v) <==> IsInstance(v, spec.t)
    ensures r.Ok? && spec.SpecCollection? ==>
      forall v :: r.value(v) <==> exists i :: 0 <= i < |spec.entries| && EntryAccepts(spec.entries[i], v)
  {
    if spec.SpecOther? then Err(NotATypeSpec)
    else
      var types := TypeList(spec);
      Ok(v => AcceptedBySome(types, v))
  }

  /** Python's `bool` is a subclass of `int`, so `val_type(int)` accepts `True`. */
  lemma ValTypeIntAcceptsBool()
    ensures ValType(SpecType(IntType)).value(VBool(true))
    ensures !ValType(SpecCollection([])).value(VNone)
  {
  }

  /** The string table of `boolean_convertor`. */
  const BoolTable: map<string, bool> := map[
    "1" := true, "0" := false, "y" := true, "n" := false,
    "yes" := true, "no" := false, "true" := true, "false" := false]

  /** The words the table maps to `False`. */
  const FalseWords: set<string> := {"0", "n", "no", "false"}

  /** `str_dict.get(key, True)`: only the four false words give `False`. */
  function TableLookup(key: string): (r: bool)
    ensures !r <==> key in FalseWords
    ensures key in BoolTable ==> r == BoolTable[key]
  {
    if key in BoolTable then BoolTable[key] else true
  }

  /**
   * `boolean_convertor(option)`: booleans are kept; a string is looked up,
   * lower-cased and stripped, in the table, and any string not in it gives
   * `True`; other values give their truthiness.
   */
  function BooleanConvertor(option: Value): (r: Value)
    ensures r.VBool?
    ensures option.VBool? ==> r == option
    ensures option.VStr? ==> (!r.b <==> Strip(Lower(option.s)) in FalseWords)
    ensures !option.VStr? ==> r.b == Truthy(option)
  {
    match option
    case VBool(_) => option
    case VStr(s) =>
      VBool(TableLookup(Strip(Lower(s))))
    case _ => VBool(Truthy(option))
  }

  /** Converting twice gives the same result as converting once. */
  lemma BooleanConvertorIdempotent(option: Value)
    ensures BooleanConvertor(BooleanConvertor(option)) == BooleanConvertor(option)
  {
  }

  /** Booleans keep their value; numbers convert by their truthiness. */
  lemma BooleanConvertorNonStrings()
    ensures BooleanConvertor(VBool(true)) == VBool(true)
    ensures BooleanConvertor(VInt(1)) == VBool(true)
    ensures BooleanConvertor(VBool(false)) == VBool(false)
    ensures BooleanConvertor(VInt(0)) == VBool(false)
    ensures BooleanConvertor(VNone) == VBool(false)
  {
  }

  /** No table word is empty or starts or ends with whitespace. */
  lemma TableWordsUnpadded(w: string)
    requires w in BoolTable
    ensures w != [] && !IsSpace(w[0]) && !IsSpace(w[|w| - 1])
  {
  }

  /** A string that lower-cases to a table word converts to that word's value. */
  lemma ConvertTableWord(word: string, lower: string)
    requires Lower(word) == lower && lower in BoolTable
    ensures BooleanConvertor(VStr(word)) == VBool(BoolTable[lower])
  {
    TableWordsUnpadded(lower);
    StripPadded([], lower, []);
    assert [] + lower + [] == lower;
  }

  /**
   * A string that lower-cases to a table word, padded with whitespace,
   * converts to that word's table value.
   */
  lemma BooleanConvertorWord(pre: string, u: string, post: string)
    requires AllSpace(pre) && AllSpace(post)
    requires Lower(u) in BoolTable
    ensures BooleanConvertor(VStr(pre + u + post)) == VBool(BoolTable[Lower(u)])
  {
    var w := Lower(u);
    TableWordsUnpadded(w);
    LowerPadded(pre, u, post);
    StripPadded(pre, w, post);
  }

  /** An unrecognised string converts to `True`. */
  lemma UnknownWordIsTrue(s: string)
    requires Strip(Lower(s)) !in BoolTable
    ensures BooleanConvertor(VStr(s)) == VBool(true)
  {
  }

  /** The lower-case forms of the example strings below. */
  lemma LowerExamples()
    ensures Lower("YES") == "yes" && Lower("y") == "y"
    ensures Lower("no") == "no" && Lower("n") == "n"
    ensures Lower("False") == "false" && Lower("maybe") == "maybe" && Lower("") == ""
  {
  }

  lemma PaddedFalseParts()
    ensures AllSpace(" ") && AllSpace("\n")
    ensures " " + "False" + "\n" == " False\n"
  {
  }

  lemma StripExamples()
    ensures Strip("maybe") == "maybe" && Strip("") == ""
  {
    StripPadded([], "maybe", []);
    assert [] + "maybe" + [] == "maybe";
    StripPadded([], [], []);
  }

  /** Table words convert regardless of case and padding; one word per lemma. */
  lemma ConvertYes()
    ensures BooleanConvertor(VStr("YES")) == VBool(true)
  {
    LowerExamples();
    ConvertTableWord("YES", "yes");
  }

  lemma ConvertY()
    ensures BooleanConvertor(VStr("y")) == VBool(true)
  {
    LowerExamples();
    ConvertTableWord("y", "y");
  }

  lemma ConvertNo()
    ensures BooleanConvertor(VStr("no")) == VBool(false)
  {
    LowerExamples();
    ConvertTableWord("no", "no");
  }

  lemma ConvertN()
    ensures BooleanConvertor(VStr("n")) == VBool(false)
  {
    LowerExamples();
    ConvertTableWord("n", "n");
  }

  lemma ConvertPaddedFalse()
    ensures BooleanConvertor(VStr(" False\n")) == VBool(false)
  {
    LowerExamples();
    PaddedFalseParts();
    BooleanConvertorWord(" ", "False", "\n");
  }

  lemma UnknownExamples()
    ensures "maybe" !in BoolTable && "" !in BoolTable
  {
  }

  /** An unrecognised word converts to `True`. */
  lemma ConvertMaybe()
    ensures BooleanConvertor(VStr("maybe")) == VBool(true)
  {
    LowerExamples();
    StripExamples();
    UnknownExamples();
    UnknownWordIsTrue("maybe");
  }

  /**
   * The empty string is falsy but is not a table word, so it converts to
   * `True`.
   */
  lemma ConvertEmpty()
    ensures BooleanConvertor(VStr("")) == VBool(true)
  {
    LowerExamples();
    StripExamples();
    UnknownExamples();
    UnknownWordIsTrue("");
  }

  /** All the string conversions above, together. */
  lemma BooleanConvertorExamples()
    ensures BooleanConvertor(VStr("YES")) == VBool(true)
    ensures BooleanConvertor(VStr("y")) == VBool(true)
    ensures BooleanConvertor(VStr("no")) == VBool(false)
    ensures BooleanConvertor(VStr("n")) == VBool(false)
    ensures BooleanConvertor(VStr(" False\n")) == VBool(false)
    ensures BooleanConvertor(VStr("maybe")) == VBool(true)
    ensures BooleanConvertor(VStr("")) == VBool(true)
  {
    ConvertYes();
    ConvertY();
    ConvertNo();
    ConvertN();
    ConvertPaddedFalse();
    ConvertMaybe();
    ConvertEmpty();
  }

  /**
   * `rel_path_convertor(parent_path)`: a falsy value is returned unchanged;
   * any other value becomes `Path(parent_path) / option`, here the abstract
   * `join`.
   */
  function RelPathConvertor(parent: string, join: (string, Value) -> Value): (c: Convertor)
    ensures forall v :: !Truthy(v) ==> c(v) == v
    ensures forall v :: Truthy(v) ==> c(v) == join(parent, v)
  {
    option => if !Truthy(option) then option else join(parent, option)
  }
}
