# foliantcontrib.utils in Dafny

A Dafny model of the shared helpers that Foliant preprocessors and backends
use, with proofs of what they promise.

- **Option handling** (`foliant/contrib/combined_options.py`). `Options`
  lays a user's option dictionary over defaults, runs validators, checks
  required parameters and converts values in place. `CombinedOptions` merges
  several named option dictionaries (layers) under a priority list and
  rebuilds the effective options whenever the priority changes. The stock
  factories `validate_in`, `val_type`, `boolean_convertor` and
  `rel_path_convertor` are modelled too.
- **Chapter lists** (`foliant/contrib/chapters.py`). `flatten_seq` turns the
  nested chapter tree of `foliant.yml` into a flat list of chapter paths.
  `Chapters` keeps the tree and its flat list in step. `get_chapter_title`
  looks up the title of a chapter.
- **Prepending** (`foliant/contrib/utils.py`). `prepend_file` works out where
  text goes at the top of a Markdown file: after YAML front matter, after a
  first-line heading, or at the very start. It then splices the text in.

Modules:

| file | module | contents |
|---|---|---|
| `outcomes.dfy` | `Outcomes` | `Option`, `Result`, and `Outcome` (pass, or an exception) |
| `values.dfy` | `Values` | Python option values: truthiness, `==`, `isinstance`, `in` |
| `strings.dfy` | `Strings` | the `str` methods used: `lower`, `strip`, `startswith`, `find` |
| `option_rules.dfy` | `OptionRules` | validation, required-parameter check, conversion, as functions of the option map |
| `layers.dfy` | `Layers` | the layer fold of `set_options` and its precedence rules |
| `option_store.dfy` | `OptionStore` | the classes `Options` and `CombinedOptions` |
| `option_factories.dfy` | `OptionFactories` | `validate_in`, `val_type`, `boolean_convertor`, `rel_path_convertor` |
| `chapter_tree.dfy` | `ChapterTree` | `flatten_seq`, `find_chapter`, `get_chapter_title`, the class `Chapters` |
| `prepend.dfy` | `Prepend` | the insertion point and splice of `prepend_file` |

How Python is mapped:

- **Exceptions** become values.
  - `ValidationError`, `RequiredParamsMissingError` and the priority setter's
    `ValueError` are `OptionRules.OptionError`.
  - `ChapterNotFoundError` and the `StopIteration` that `next` raises on an
    empty mapping are `ChapterTree.TitleError`.
  - A method that may raise returns `Outcome`. A constructor that may raise
    is a static `New` method returning `Result`.
- **Validators** are functions `Value -> bool`. `false` stands for raising
  `ValidationError`.
- **Convertors** are functions `Value -> Value`.
- **Validator order.** Validators are kept in dictionary order, because the
  first failing key is the one reported. Convertors are a map: each key is
  converted once, independently of the others, so their order does not
  matter.
- **Inheritance.** `CombinedOptions` is a subclass of `Options` in Python.
  Here it owns an `Options` object, `base`, which holds the inherited state.

## Model

| member | source | states |
|---|---|---|
| Values.Truthy | foliant/contrib/combined_options.py:341 | `bool(v)`: a bool or int is true exactly when its number is non-zero, a string or list exactly when non-empty; a `Path` is always true, `None` never |
| Values.TypeOf | foliant/contrib/combined_options.py:267 | `type(v)` is never `object` itself, and a bool's class is `bool`, distinct from `int` |
| Values.IsInstance | foliant/contrib/combined_options.py:267 | `isinstance(v, t)` holds exactly when `t` is the value's own class, `object`, or `int` for a bool |
| Values.PyEq | foliant/contrib/combined_options.py:112 | `==` compares a bool and an int by number (`True == 1`); values of two different classes other than bool and int are never equal |
| Values.PyEqReflexive | foliant/contrib/combined_options.py:112 | every value is `==` to itself, so an untouched default counts as default |
| Values.PyEqSymmetric | foliant/contrib/combined_options.py:112 | Python `==` on option values is symmetric; `is_default` uses it to compare in either order |
| Values.PyIn | foliant/contrib/combined_options.py:239 | `v in supported` holds exactly when some element compares `==` to `v` (so `True in [1]`) |
| Strings.Lower | foliant/contrib/combined_options.py:329 | `lower()` keeps the length, leaves no upper-case letter and changes nothing else |
| Strings.LowerPadded | foliant/contrib/combined_options.py:329 | lower-casing leaves surrounding whitespace alone |
| Strings.TrimStart | foliant/contrib/combined_options.py:329 | the result is a suffix of the input; what was cut is all whitespace; the result does not start with whitespace |
| Strings.TrimEnd | foliant/contrib/combined_options.py:329 | the result is a prefix of the input; what was cut is all whitespace; the result does not end with whitespace |
| Strings.Strip | foliant/contrib/combined_options.py:329 | `strip()` is no longer than its input and has no whitespace at either end |
| Strings.TrimStartPadded | foliant/contrib/combined_options.py:329 | stripping leading whitespace from whitespace + word gives the word |
| Strings.TrimEndPadded | foliant/contrib/combined_options.py:329 | stripping trailing whitespace from word + whitespace gives the word |
| Strings.StripPadded | foliant/contrib/combined_options.py:329 | `strip()` of a word padded with whitespace gives back the word |
| Strings.IsSpace | foliant/contrib/combined_options.py:329 | the whitespace `strip()` removes includes space, tab and both line breaks, and never a letter or digit |
| Strings.StartsWith | foliant/contrib/utils.py:24 | `startswith(p)` holds exactly when `p` fits in the string and agrees with it character by character |
| Strings.FindFrom | foliant/contrib/utils.py:25 | `find(sub, start)` returns the lowest index at or after `start` where `sub` occurs, or -1 when there is none |
| OptionRules.AllPresent | foliant/contrib/combined_options.py:70-74 | `_check_required` holds exactly when every key of the combination is present |
| OptionRules.AnyCombination | foliant/contrib/combined_options.py:88 | the `any(...)` holds exactly when some combination is fully present |
| OptionRules.RequiredSatisfied | foliant/contrib/combined_options.py:82-94 | a flat list passes exactly when all its keys are present; combinations pass exactly when one is fully present; an empty list always passes |
| OptionRules.FirstRejected | foliant/contrib/combined_options.py:76-81 | finds the first validator, in order, that runs on a present key and rejects its value; None exactly when no validator rejects |
| OptionRules.ValidationOutcome | foliant/contrib/combined_options.py:63-94 | validation passes exactly when no validator of a present key rejects and the required check holds; a `ValidationError` names the key of the first validator, in order, that rejects; the required check is reached only when every validator accepted |
| OptionRules.ConvertAll | foliant/contrib/combined_options.py:96-107 | conversion keeps the key set and leaves every key without a convertor unchanged |
| OptionRules.RequiredCombinationExample | foliant/contrib/combined_options.py:82-94 | `[[a, b], [c]]` is met by `{c}` but not by `{a}`; an empty list is met by nothing; a flat `[a, b]` is not met by `{a}` |
| Layers.ApplyReversed | foliant/contrib/combined_options.py:212-217 | the reversed `update` loop keeps every key of the start map, and the first listed layer, applied last, keeps all of its values |
| Layers.Merged | foliant/contrib/combined_options.py:210-217 | every default key has an effective value, and the first priority layer's values all survive |
| Layers.NonPriority | foliant/contrib/combined_options.py:212-214 | the layers `set_options` applies first are exactly the registered names not in the priority list |
| Layers.NonPriorityRegistered | foliant/contrib/combined_options.py:212-214 | those names are all registered layers |
| Layers.ApplyReversedKeys | foliant/contrib/combined_options.py:212-217 | after the reversed `update` loop, a key is present exactly when the start map or an applied layer has it |
| Layers.ApplyReversedFirst | foliant/contrib/combined_options.py:216-217 | in a reversed `update` loop, the first listed layer that has a key decides its value |
| Layers.ApplyReversedSource | foliant/contrib/combined_options.py:212-217 | every value after the loop comes from an applied layer or from the start map |
| Layers.NonPriorityFirst | foliant/contrib/combined_options.py:212-214 | among non-priority layers, the earliest registered one that has a key decides its value |
| Layers.MergedKeys | foliant/contrib/combined_options.py:210-217 | the effective key set is the default keys plus the keys of every registered layer |
| Layers.PriorityWins | foliant/contrib/combined_options.py:216-217 | a key in a priority layer takes its value from the first such layer in priority order, over every other layer and the defaults |
| Layers.EarlierRegisteredWins | foliant/contrib/combined_options.py:212-214 | a key in no priority layer takes its value from the earliest registered layer that has it |
| Layers.DefaultsLowest | foliant/contrib/combined_options.py:210-217 | a default key that no layer sets keeps its default value |
| Layers.MergedSource | foliant/contrib/combined_options.py:210-217 | every effective value is the value of some registered layer or of the defaults |
| Layers.DisjointLayersIgnorePriority | foliant/contrib/combined_options.py:210-217 | when no two layers share a key, the priority list does not change the effective options |
| Layers.CliOverFileExample | foliant/contrib/combined_options.py:210-217 | defaults `{x:1, y:2}`, layers `file`, `cli` and priority `[cli, file]` give `{x:1, y:3, z:5}` |
| OptionStore.Options.New | foliant/contrib/combined_options.py:31-56 | construction raises exactly the validation outcome of `defaults` updated by `options`; otherwise the object holds those options converted |
| OptionStore.Options.Validate | foliant/contrib/combined_options.py:63-94 | `validate()` yields exactly the validation outcome of the current options |
| OptionStore.Options.Convert | foliant/contrib/combined_options.py:96-107 | `_convert()` replaces the options by their conversion: convertor keys converted, all else unchanged |
| OptionStore.Options.IsDefault | foliant/contrib/combined_options.py:109-113 | false for a key without a default; otherwise true exactly when the value `==` the default, compared in either order; an untouched default is default |
| OptionStore.Options.Get | foliant/contrib/combined_options.py:118-119 | `self[key]` gives the stored value, and `KeyError` exactly for a missing key |
| OptionStore.Options.GetOr | foliant/contrib/combined_options.py:134-135 | `get(key, default)` gives what `self[key]` gives, and `default` exactly where `self[key]` would raise |
| OptionStore.Options.Contains | foliant/contrib/combined_options.py:125-126 | `key in self` holds exactly for the keys `self[key]` can read |
| OptionStore.Options.Keys | foliant/contrib/combined_options.py:137-138 | `keys()` are exactly the keys `self[key]` can read |
| OptionStore.Options.NonEmpty | foliant/contrib/combined_options.py:131-132 | `bool(self)` is true exactly when there is some key |
| OptionStore.Options.Set | foliant/contrib/combined_options.py:121-123 | `self[key] = val` stores the value, changes no other key, re-validates and does not convert |
| OptionStore.DefaultKeysReadable | foliant/contrib/combined_options.py:31-56 | every default key is `in` the options and listed by `keys()`, and `get` then returns its value, not the fallback |
| OptionStore.NormalizePriority | foliant/contrib/combined_options.py:189-194 | a list is taken as it is; a single name becomes exactly the one-name list; anything else gives the empty list |
| OptionStore.FirstUnknown | foliant/contrib/combined_options.py:196-200 | the first priority name that is not a registered layer; none exactly when all are registered |
| OptionStore.CombinedOptions.New | foliant/contrib/combined_options.py:156-179 | construction fails on the first unknown priority name, or with the validation outcome of the merged options; otherwise the object keeps the given defaults, validators, convertors, required parameters, layers and normalised priority, and holds `ConvertAll` of the layer merge of those arguments |
| OptionStore.CombinedOptions.SetPriority | foliant/contrib/combined_options.py:186-202 | an unknown name gives `ValueError` with priority and options untouched; otherwise the normalised list is stored and the options rebuilt |
| OptionStore.CombinedOptions.SetOptions | foliant/contrib/combined_options.py:204-220 | the effective options are rebuilt as the layer merge, validated, and converted only when validation passed |
| OptionFactories.ValidateIn | foliant/contrib/combined_options.py:223-247 | the validator accepts exactly the values `==` to some supported value |
| OptionFactories.EntryAccepts | foliant/contrib/combined_options.py:264-268 | a `None` entry accepts exactly the values of class `NoneType`; a class entry accepts its instances, `int` including bools |
| OptionFactories.AcceptedBySome | foliant/contrib/combined_options.py:262-269 | the `val_type` validator's loop accepts exactly when some type entry accepts |
| OptionFactories.TypeList | foliant/contrib/combined_options.py:270-277 | the list built from `None` accepts only `None`, the one built from a type accepts exactly its instances, a collection is used as it is |
| OptionFactories.ValType | foliant/contrib/combined_options.py:253-278 | `None` accepts only `None`, a type accepts its instances, a collection accepts the union; any other argument raises `ValueError` |
| OptionFactories.ValTypeIntAcceptsBool | foliant/contrib/combined_options.py:262-273 | `val_type(int)` accepts `True`; an empty type list accepts nothing |
| OptionFactories.TableLookup | foliant/contrib/combined_options.py:316-329 | `str_dict.get(key, True)` is false exactly for the four false words and agrees with the table |
| OptionFactories.BooleanConvertor | foliant/contrib/combined_options.py:308-331 | the result is a bool; bools are kept; a string is false exactly when, lower-cased and stripped, it is a false word; other values give their truthiness |
| OptionFactories.BooleanConvertorIdempotent | foliant/contrib/combined_options.py:326-331 | converting twice is converting once |
| OptionFactories.BooleanConvertorNonStrings | foliant/contrib/combined_options.py:326-331 | `True`, `1` give true; `False`, `0`, `None` give false |
| OptionFactories.TableWordsUnpadded | foliant/contrib/combined_options.py:316-325 | no table word is empty or has whitespace at either end |
| OptionFactories.ConvertTableWord | foliant/contrib/combined_options.py:328-329 | a string that lower-cases to a table word converts to that word's value |
| OptionFactories.BooleanConvertorWord | foliant/contrib/combined_options.py:328-329 | any case, with any whitespace padding, a table word converts to its value |
| OptionFactories.UnknownWordIsTrue | foliant/contrib/combined_options.py:329 | a string that is not a table word after lower-casing and stripping converts to `True` |
| OptionFactories.LowerExamples | foliant/contrib/combined_options.py:329 | the lower-case forms of the example strings |
| OptionFactories.StripExamples | foliant/contrib/combined_options.py:329 | `strip()` leaves `maybe` and the empty string unchanged |
| OptionFactories.UnknownExamples | foliant/contrib/combined_options.py:316-325 | `maybe` and the empty string are not table words |
| OptionFactories.ConvertYes | foliant/contrib/combined_options.py:312 | `'YES'` converts to `True` |
| OptionFactories.ConvertY | foliant/contrib/combined_options.py:312 | `'y'` converts to `True` |
| OptionFactories.ConvertNo | foliant/contrib/combined_options.py:312 | `'no'` converts to `False` |
| OptionFactories.ConvertN | foliant/contrib/combined_options.py:312 | `'n'` converts to `False` |
| OptionFactories.ConvertPaddedFalse | foliant/contrib/combined_options.py:328-329 | `' False\n'` converts to `False` |
| OptionFactories.ConvertMaybe | foliant/contrib/combined_options.py:329 | `'maybe'` converts to `True` |
| OptionFactories.ConvertEmpty | foliant/contrib/combined_options.py:329 | the empty string, though falsy, converts to `True` |
| OptionFactories.BooleanConvertorExamples | foliant/contrib/combined_options.py:308-331 | all the string conversions above together |
| OptionFactories.RelPathConvertor | foliant/contrib/combined_options.py:334-346 | falsy values pass through unchanged; any other value is joined onto the parent path |
| ChapterTree.Leaves | foliant/contrib/chapters.py:14-18 | a string item is its own leaf; an item that is neither a string nor a container has none |
| ChapterTree.LeavesSeq | foliant/contrib/chapters.py:9-19 | a list of bare strings flattens to those strings, in order |
| ChapterTree.LeavesEntries | foliant/contrib/chapters.py:13-18 | a mapping of titles to bare paths flattens to those paths, in order; its keys never appear |
| ChapterTree.Values | foliant/contrib/chapters.py:13 | `values()` has one entry per mapping entry: its value, in order |
| ChapterTree.Children | foliant/contrib/chapters.py:13 | `flatten_seq` iterates over a list's items or a mapping's values |
| ChapterTree.LeavesSeqConcat | foliant/contrib/chapters.py:14-18 | flattening distributes over concatenation of sibling lists |
| ChapterTree.LeavesEntriesAreValues | foliant/contrib/chapters.py:13 | flattening a mapping is flattening its list of values: keys never appear |
| ChapterTree.LeavesOfChildren | foliant/contrib/chapters.py:13-18 | a container's leaves are its children's leaves, in order |
| ChapterTree.OtherDropped | foliant/contrib/chapters.py:15-18 | an item that is neither a string nor a container contributes nothing |
| ChapterTree.FlattenSeq | foliant/contrib/chapters.py:9-19 | `flatten_seq` returns exactly the string leaves, depth first, left to right |
| ChapterTree.ChapterTitleExamples | foliant/contrib/chapters.py:111-127 | the three documented cases: a titled entry gives its title, a bare one `''`, a missing one `ChapterNotFoundError` |
| ChapterTree.Truthy | foliant/contrib/chapters.py:141 | `if found:` holds only for a hit; a bare hit is truthy exactly when its path is non-empty, a mapping hit always |
| ChapterTree.Find | foliant/contrib/chapters.py:136-156 | a string the search returns is the path searched for |
| ChapterTree.FindItems | foliant/contrib/chapters.py:137-144 | the same for the list loop |
| ChapterTree.ChapterTitle | foliant/contrib/chapters.py:158-164 | a title is returned only for a chapter of the flat list; `ChapterNotFoundError` names the path looked up |
| ChapterTree.FindSound | foliant/contrib/chapters.py:136-156 | any hit, bare or titled, is a leaf of the tree |
| ChapterTree.FindItemsSound | foliant/contrib/chapters.py:137-144 | the same for the list loop |
| ChapterTree.FirstStop | foliant/contrib/chapters.py:136-156 | the first stop carrying the path, read as a search result: a bare or titled hit, none, or an empty-mapping error |
| ChapterTree.FirstStopConcat | foliant/contrib/chapters.py:137-144 | the first match in two concatenated stop lists is in the first list if there is one there |
| ChapterTree.FindIsFirstStop | foliant/contrib/chapters.py:136-156 | for a non-empty path, `find_chapter` returns the first matching stop in search order (a mapping shows only its first value), or raises at an empty mapping met before it |
| ChapterTree.FindItemsIsFirstStop | foliant/contrib/chapters.py:137-144 | the same for the list loop |
| ChapterTree.Paths | foliant/contrib/chapters.py:136-156 | the paths carried by a list of search stops, in order |
| ChapterTree.PathsConcat | foliant/contrib/chapters.py:137-144 | the paths of two concatenated stop lists are concatenated |
| ChapterTree.OneKeyStopsAreLeaves | foliant/contrib/chapters.py:9-19 | when every mapping has one key, the search sees exactly the flat list, in order, and never raises |
| ChapterTree.OneKeyStopsSeqAreLeaves | foliant/contrib/chapters.py:14-18 | the same for a list of nodes |
| ChapterTree.ChapterTitleComplete | foliant/contrib/chapters.py:105-164 | when every mapping has one key, a non-empty path has a title exactly when it is in the flat list |
| ChapterTree.FirstValueOnly | foliant/contrib/chapters.py:146-152 | the second value of a mapping is flattened but gets `ChapterNotFoundError` |
| ChapterTree.EmptyPathNested | foliant/contrib/chapters.py:140-144 | a nested `''` match is falsy and skipped, so `''` is found at top level but not inside a nested list |
| ChapterTree.Chapters.constructor | foliant/contrib/chapters.py:33-41 | the new object holds the tree and its flattening |
| ChapterTree.Chapters.SetChapters | foliant/contrib/chapters.py:72-75 | assigning `chapters` stores the tree and recomputes the flat list |
| ChapterTree.Chapters.Len | foliant/contrib/chapters.py:43-44 | `len(ch)` is the number of leaves |
| ChapterTree.Chapters.At | foliant/contrib/chapters.py:46-47 | `ch[i]` is the i-th leaf, counting from the end for negative `i`; `IndexError` exactly outside `-len..len-1` |
| ChapterTree.Chapters.Contains | foliant/contrib/chapters.py:49-50 | `item in ch` is membership among the leaves |
| ChapterTree.Chapters.GetChapterTitle | foliant/contrib/chapters.py:105-164 | a returned title belongs to a chapter in the flat list; `ChapterNotFoundError` names the path looked up |
| ChapterTree.AccessorsAgree | foliant/contrib/chapters.py:43-50 | `ch[i]` succeeds exactly for `-len(ch) <= i < len(ch)`, and what it returns is `in ch` |
| Prepend.AfterYfm | foliant/contrib/utils.py:24 | holds exactly when `before_yfm` is unset and the file's first four characters are `---\n` |
| Prepend.AfterHeading | foliant/contrib/utils.py:29 | holds exactly when `before_heading` is unset and the file's first character is `#` |
| Prepend.Place | foliant/contrib/utils.py:22-34 | the insertion point lies within the file; the inserted text is the content, with at most one line break before it |
| Prepend.Splice | foliant/contrib/utils.py:36 | the result is the source with the segment inserted at `start`: the text before and after is kept, the length adds up, and cutting the segment out gives back the source |
| Prepend.PrependText | foliant/contrib/utils.py:36 | the result is as long as the file plus the inserted text |
| Prepend.NotBothBranches | foliant/contrib/utils.py:24-34 | the front-matter and heading adjustments never both apply |
| Prepend.PrependLength | foliant/contrib/utils.py:24-36 | the result is the file plus the content, plus one character exactly when front matter or a heading is skipped |
| Prepend.PrependBeforeAll | foliant/contrib/utils.py:22-36 | with `before_yfm` and `before_heading` set, the result is `content + source` |
| Prepend.PrependIsSplice | foliant/contrib/utils.py:36 | the file's text is kept before and after the inserted segment; cutting the segment out gives back the file |
| Prepend.PrependAfterClosedYfm | foliant/contrib/utils.py:24-28 | with closed front matter, the content goes right after the first closing `\n---\n` found from index 1, with a line break before it |
| Prepend.PrependUnclosedYfm | foliant/contrib/utils.py:24-28 | with unclosed front matter, the result is `'\n' + content + source` |
| Prepend.PrependAfterHeading | foliant/contrib/utils.py:29-34 | with a first-line heading, the content goes after the first line break found from index 1, or at the end when there is none, with a line break before it |
| Prepend.PrependPlain | foliant/contrib/utils.py:22-36 | with nothing to skip, the result is `content + source` |
| Prepend.YfmExampleClose | foliant/contrib/utils.py:25 | in the front-matter example, the closing marker is first found at index 8 |
| Prepend.PrependYfmExample | foliant/contrib/utils.py:24-36 | front matter: the content goes on a new line after the block |
| Prepend.PrependHeadingExample | foliant/contrib/utils.py:29-36 | a heading line: the content goes on a new line after it |
| Prepend.PrependHeadingOnlyExample | foliant/contrib/utils.py:29-36 | a heading without a line break: the content goes at the end |

## Left out

- `path_convertor` and `yaml_to_dict_convertor` (`combined_options.py:288-305`): they call a YAML parser.
- `validate_exists` (`combined_options.py:281-285`): it queries the file system.
- The `Path` join in `rel_path_convertor` is the parameter `join`; only the falsy pass-through is modelled exactly.
- The file read and write of `prepend_file` (`utils.py:19-20`, `utils.py:38-39`): the model maps the file's text to the new text. That text is what Python's text-mode read yields: UTF-8 decoded, with `\r\n` and `\r` already turned into `\n`, so a front-matter block with CRLF line ends is recognised. The write turns `\n` back into the platform's line end, which the model does not show.
- Prepend.PrependText: takes `before_yfm` and `before_heading` explicitly; the source's defaults are `before_yfm=False` and `before_heading=True` (`utils.py:5-10`).
- `Chapters.get_chapter_by_path`, `Chapters.paths`, `Chapters.from_config` and the `Path(...).resolve()` calls for `working_dir` and `src_dir`: they are path and file-system handling.
- `__iter__`, `__repr__` and `__str__` of both helper classes; `items()` and `values()` of `Options`; the order of `keys()`, which is modelled as a set.
- The text of every exception message, including the `"\nor:\n"` join of required combinations.
- `deepcopy(self.defaults)`: the modelled option values are immutable, so a copy is the same value.
- Validators are total functions to `bool`. An exception other than `ValidationError` raised by a validator, or a validator with side effects, is not modelled. The same goes for convertors that raise.
- Option values cover `None`, bool, int, str, `Path` and lists. Floats, dicts and other objects are not modelled. A `Path` is held as its normalised string, so two paths are `==` exactly when those strings are equal.
- Values.Value: tuples are not modelled. `VList` is a Python list; a tuple differs from a list under `==` and `isinstance(v, list)`, so a tuple option value cannot be stood for by `VList`.
- OptionFactories.ValidateIn: `supported` is a list. Other containers (a string, which tests substrings, or a set or dict) and the `ValueError` for an argument without `__contains__` are not modelled.
- OptionRules.RequiredSatisfied: `required` is either all keys or all combinations. A mixed list, which the source reads as flat when its first element is a string and then fails on the unhashable list, is not modelled.
- Strings.Lower: lower-cases ASCII letters only. No other character lower-cases to one of the ASCII letters in the boolean table, so the table lookup of `boolean_convertor` gives the same result as with Python's full `str.lower()`.
- ChapterTree.Node: mapping keys are strings, and a mapping may hold duplicate keys, which a Python `dict` cannot; no proof depends on their absence.
- ChapterTree.Chapters.constructor and ChapterTree.Chapters.SetChapters: the tree must be a list or a mapping, as the constructor parameter's type says; the setter (`chapters.py:72-75`) has no annotation and takes anything. `flatten_seq` of any other value raises, or iterates a string character by character, and neither case is modelled.
- `test/utils.py` and `test_pext/test_preprocessor_ext.py`: they exercise a working-directory context manager and a module that is not part of this model.
