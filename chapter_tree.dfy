/**
 * The chapter list of a Foliant project: a YAML tree of lists, one-key
 * mappings `{title: path}` and bare chapter paths. `flatten_seq` turns it
 * into the plain list of chapter paths, and `get_chapter_title` looks a
 * chapter path up and returns its title.
 */
module ChapterTree {
  import opened Outcomes

  /**
   * A node of the parsed chapter tree. A mapping keeps its entries in
   * insertion order, as a Python `dict` does; any other YAML scalar is
   * `Other`.
   */
  datatype Node =
    | Str(s: string)
    | List(items: seq<Node>)
    | Dict(entries: seq<Entry>)
    | Other

  datatype Entry = Entry(key: string, value: Node)

  /** A list or a mapping: what `flatten_seq` accepts. */
  predicate IsContainer(n: Node)
  {
    n.List? || n.Dict?
  }

  // ---------------------------------------------------------------------
  // Flattening
  // ---------------------------------------------------------------------

  /**
   * The string leaves of a tree, depth first and left to right: a string is
   * its own leaf, and a node that is neither a string nor a container has
   * none.
   */
  function Leaves(n: Node): (r: seq<string>)
    ensures n.Str? ==> r == [n.s]
    ensures !n.Str? && !IsContainer(n) ==> r == []
    decreases n
  {
    match n
    case Str(s) => [s]
    case List(items) => LeavesSeq(items)
    case Dict(entries) => LeavesEntries(entries)
    case Other => []
  }

  /** The leaves of a list of nodes; a list of bare strings is its own flattening. */
  function LeavesSeq(xs: seq<Node>): (r: seq<string>)
    ensures (forall i :: 0 <= i < |xs| ==> xs[i].Str?) ==>
      |r| == |xs| && forall i :: 0 <= i < |xs| ==> r[i] == xs[i].s
    decreases xs
  {
    if xs == [] then [] else Leaves(xs[0]) + LeavesSeq(xs[1..])
  }

  /**
   * The leaves of a mapping's values; its keys play no part, so a mapping
   * of titles to bare paths flattens to those paths.
   */
  function LeavesEntries(es: seq<Entry>): (r: seq<string>)
    ensures (forall i :: 0 <= i < |es| ==> es[i].value.Str?) ==>
      |r| == |es| && forall i :: 0 <= i < |es| ==> r[i] == es[i].value.s
    decreases es
  {
    if es == [] then [] else Leaves(es[0].value) + LeavesEntries(es[1..])
  }

  /** `seq.values()` of a mapping. */
  function Values(es: seq<Entry>): (r: seq<Node>)
    ensures |r| == |es|
    ensures forall i :: 0 <= i < |es| ==> r[i] == es[i].value
  {
    if es == [] then [] else [es[0].value] + Values(es[1..])
  }

  /** The children `flatten_seq` iterates over: a list's items or a mapping's values. */
  function Children(n: Node): (r: seq<Node>)
    requires IsContainer(n)
    ensures n.List? ==> r == n.items
    ensures n.Dict? ==> r == Values(n.entries)
    ensures forall i :: 0 <= i < |r| ==> (n decreases to r[i])
  {
    if n.List? then n.items
    else
      var r := Values(n.entries);
      assert forall i :: 0 <= i < |r| ==> (n decreases to n.entries[i]) && r[i] == n.entries[i].value;
      r
  }

  lemma {:induction false} LeavesSeqConcat(a: seq<Node>, b: seq<Node>)
    ensures LeavesSeq(a + b) == LeavesSeq(a) + LeavesSeq(b)
    decreases a
  {
    if a == [] {
      assert a + b == b;
    } else {
      assert (a + b)[1..] == a[1..] + b;
      LeavesSeqConcat(a[1..], b);
    }
  }

  /** Flattening a mapping is flattening the list of its values: keys never appear. */
  lemma {:induction false} LeavesEntriesAreValues(es: seq<Entry>)
    ensures LeavesEntries(es) == LeavesSeq(Values(es))
    decreases es
  {
    if es != [] {
      assert Values(es)[1..] == Values(es[1..]);
      LeavesEntriesAreValues(es[1..]);
    }
  }

  /** The leaves of a container are the leaves of its children, in order. */
  lemma LeavesOfChildren(n: Node)
    requires IsContainer(n)
    ensures Leaves(n) == LeavesSeq(Children(n))
  {
    if n.Dict? {
      LeavesEntriesAreValues(n.entries);
    }
  }

  /** A leaf that is neither a string nor a container contributes nothing. */
  lemma {:induction false} OtherDropped(a: seq<Node>, b: seq<Node>)
    ensures LeavesSeq(a + [Other] + b) == LeavesSeq(a + b)
  {
    LeavesSeqConcat(a + [Other], b);
    LeavesSeqConcat(a, [Other]);
    LeavesSeqConcat(a, b);
  }

  /**
   * `flatten_seq(seq)`: walks the items of a list, or the values of a
   * mapping, appending strings and extending with the flattening of nested
   * containers; anything else is skipped.
   */
  method FlattenSeq(n: Node) returns (result: seq<string>)
    requires IsContainer(n)
    ensures result == Leaves(n)
    decreases n
  {
    var vals := Children(n);
    result := [];
    for i := 0 to |vals|
      invariant result == LeavesSeq(vals[..i])
    {
      var item := vals[i];
      if IsContainer(item) {
        var sub := FlattenSeq(item);
        result := result + sub;
      } else if item.Str? {
        result := result + [item.s];
      }
      assert vals[..i + 1] == vals[..i] + [item];
      LeavesSeqConcat(vals[..i], [item]);
    }
    assert vals[..|vals|] == vals;
    LeavesOfChildren(n);
  }

  // ---------------------------------------------------------------------
  // Title lookup
  // ---------------------------------------------------------------------

  /**
   * What `find_chapter` produces: `None`, the matching bare string, the
   * mapping whose first value matched (kept as its first key, which is all
   * the caller reads of it), or the `StopIteration` that `next` raises on
   * an empty mapping.
   */
  datatype Search = Miss | HitStr(s: string) | HitDict(title: string) | EmptyMapping

  /**
   * Python truthiness of a found value: a mapping returned by the search is
   * never empty, a string is truthy unless it is empty.
   */
  function Truthy(found: Search): (r: bool)
    ensures r ==> found.HitStr? || found.HitDict?
    ensures found.HitStr? ==> (r <==> |found.s| > 0)
    ensures found.HitDict? ==> r
  {
    match found
    case Miss => false
    case HitStr(s) => s != ""
    case HitDict(_) => true
    case EmptyMapping => false
  }

  /**
   * `find_chapter(chapters, to_find)`. In a mapping only the first value is
   * looked at; a nested result is passed up only when it is truthy.
   */
  function Find(n: Node, t: string): (r: Search)
    ensures r.HitStr? ==> r.s == t
    decreases n
  {
    match n
    case List(items) => FindItems(items, t)
    case Dict(entries) =>
      if entries == [] then EmptyMapping
      else
        var val := entries[0].value;
        if val.Str? && val.s == t then HitDict(entries[0].key)
        else
          var found := Find(val, t);
          if found.EmptyMapping? || Truthy(found) then found else Miss
    case Str(s) => if s == t then HitStr(s) else Miss
    case Other => Miss
  }

  /** The `for i in chapters` loop of `find_chapter`. */
  function FindItems(items: seq<Node>, t: string): (r: Search)
    ensures r.HitStr? ==> r.s == t
    decreases items
  {
    if items == [] then Miss
    else
      var i := items[0];
      if IsContainer(i) then
        var found := Find(i, t);
        if found.EmptyMapping? || Truthy(found) then found else FindItems(items[1..], t)
      else if i.Str? && i.s == t then HitStr(i.s)
      else FindItems(items[1..], t)
  }

  datatype TitleError = ChapterNotFound(path: string) | StopIteration

  /**
   * `get_chapter_title(chapter_path)`: the key of the `{title: path}`
   * entry, `''` for a bare entry, `ChapterNotFoundError` when nothing
   * matches.
   */
  function ChapterTitle(chapters: Node, path: string): (r: Result<string, TitleError>)
    ensures r.Ok? ==> path in Leaves(chapters)
    ensures r.Err? && r.error.ChapterNotFound? ==> r.error.path == path
  {
    FindSound(chapters, path);
    match Find(chapters, path)
    case Miss => Err(ChapterNotFound(path))
    case HitStr(_) => Ok("")
    case HitDict(title) => Ok(title)
    case EmptyMapping => Err(StopIteration)
  }

  /** The three examples of the `get_chapter_title` documentation. */
  lemma ChapterTitleExamples()
    ensures ChapterTitle(List([Dict([Entry("Chapter Title", Str("info/index.md"))])]), "info/index.md")
      == Ok("Chapter Title")
    ensures ChapterTitle(List([Str("info/index.md")]), "info/index.md") == Ok("")
    ensures ChapterTitle(List([Str("info.md")]), "info/index.md") == Err(ChapterNotFound("info/index.md"))
  {
  }

  /** A search hit is always a chapter path that flattening also yields. */
  lemma {:induction false} FindSound(n: Node, t: string)
    ensures Find(n, t).HitStr? || Find(n, t).HitDict? ==> t in Leaves(n)
    decreases n, 1
  {
    match n
    case List(items) =>
      FindItemsSound(items, t);
    case Dict(entries) =>
      if entries != [] {
        var val := entries[0].value;
        if !(val.Str? && val.s == t) {
          FindSound(val, t);
        }
        assert Leaves(n) == Leaves(val) + LeavesEntries(entries[1..]);
      }
    case Str(s) =>
    case Other =>
  }

  lemma {:induction false} FindItemsSound(items: seq<Node>, t: string)
    ensures FindItems(items, t).HitStr? || FindItems(items, t).HitDict? ==> t in LeavesSeq(items)
    decreases items, 0
  {
    if items != [] {
      var i := items[0];
      assert LeavesSeq(items) == Leaves(i) + LeavesSeq(items[1..]);
      if IsContainer(i) {
        FindSound(i, t);
      }
      FindItemsSound(items[1..], t);
    }
  }

  // ---------------------------------------------------------------------
  // An independent reading of the search: the entries a search can see,
  // in the order it sees them.
  // ---------------------------------------------------------------------

  /** One stop of the search: a bare path, a `{title: path}` entry, or an empty mapping. */
  datatype Stop = Bare(path: string) | Titled(title: string, path: string) | Raise

  /**
   * The stops of a tree in search order. A mapping shows only its first
   * value: as a titled entry when that value is a string, otherwise as the
   * stops of that value.
   */
  function Stops(n: Node): seq<Stop>
    decreases n
  {
    match n
    case Str(s) => [Bare(s)]
    case List(items) => StopsSeq(items)
    case Dict(entries) =>
      if entries == [] then [Raise]
      else if entries[0].value.Str? then [Titled(entries[0].key, entries[0].value.s)]
      else Stops(entries[0].value)
    case Other => []
  }

  function StopsSeq(xs: seq<Node>): seq<Stop>
    decreases xs
  {
    if xs == [] then [] else Stops(xs[0]) + StopsSeq(xs[1..])
  }

  /** The first stop that matches `t` or raises, read as a search result. */
  function FirstStop(stops: seq<Stop>, t: string): (r: Search)
    ensures r.HitStr? ==> r.s == t && Bare(t) in stops
    ensures r.HitDict? ==> Titled(r.title, t) in stops
    ensures r.Miss? ==> forall k :: 0 <= k < |stops| ==> stops[k] != Raise && stops[k].path != t
    ensures r.EmptyMapping? ==> Raise in stops
  {
    if stops == [] then Miss
    else
      match stops[0]
      case Raise => EmptyMapping
      case Bare(p) => if p == t then HitStr(t) else FirstStop(stops[1..], t)
      case Titled(title, p) => if p == t then HitDict(title) else FirstStop(stops[1..], t)
  }

  lemma {:induction false} FirstStopConcat(a: seq<Stop>, b: seq<Stop>, t: string)
    ensures FirstStop(a + b, t) == if FirstStop(a, t).Miss? then FirstStop(b, t) else FirstStop(a, t)
    decreases a
  {
    if a == [] {
      assert a + b == b;
    } else {
      assert (a + b)[1..] == a[1..] + b;
      FirstStopConcat(a[1..], b, t);
    }
  }

  /**
   * For any non-empty chapter path, the search returns exactly the first
   * stop, in search order, that carries that path, or raises at the first
   * empty mapping met before it.
   */
  lemma {:induction false} FindIsFirstStop(n: Node, t: string)
    requires t != ""
    ensures Find(n, t) == FirstStop(Stops(n), t)
    decreases n, 1
  {
    match n
    case List(items) =>
      FindItemsIsFirstStop(items, t);
    case Dict(entries) =>
      if entries != [] && !entries[0].value.Str? {
        FindIsFirstStop(entries[0].value, t);
      }
    case Str(s) =>
    case Other =>
  }

  lemma {:induction false} FindItemsIsFirstStop(items: seq<Node>, t: string)
    requires t != ""
    ensures FindItems(items, t) == FirstStop(StopsSeq(items), t)
    decreases items, 0
  {
    if items != [] {
      var i := items[0];
      FirstStopConcat(Stops(i), StopsSeq(items[1..]), t);
      if IsContainer(i) {
        FindIsFirstStop(i, t);
      }
      FindItemsIsFirstStop(items[1..], t);
    }
  }

  /** Every mapping in the tree has exactly one entry, as in `- Title: path`. */
  predicate OneKeyMappings(n: Node)
    decreases n
  {
    match n
    case Str(_) => true
    case List(items) => forall i :: 0 <= i < |items| ==> OneKeyMappings(items[i])
    case Dict(entries) => |entries| == 1 && OneKeyMappings(entries[0].value)
    case Other => true
  }

  /** The paths the stops carry. */
  function Paths(stops: seq<Stop>): (r: seq<string>)
    requires forall k :: 0 <= k < |stops| ==> !stops[k].Raise?
    ensures |r| == |stops|
    ensures forall k :: 0 <= k < |stops| ==> r[k] == stops[k].path
  {
    if stops == [] then [] else [stops[0].path] + Paths(stops[1..])
  }

  lemma {:induction false} PathsConcat(a: seq<Stop>, b: seq<Stop>)
    requires forall k :: 0 <= k < |a| ==> !a[k].Raise?
    requires forall k :: 0 <= k < |b| ==> !b[k].Raise?
    ensures Paths(a + b) == Paths(a) + Paths(b)
  {
    assert forall k :: 0 <= k < |a + b| ==> Paths(a + b)[k] == (Paths(a) + Paths(b))[k];
  }

  /**
   * When every mapping has one key, the search sees every chapter of the
   * flat list, in the same order, and never raises.
   */
  lemma {:induction false} OneKeyStopsAreLeaves(n: Node)
    requires OneKeyMappings(n)
    ensures forall k :: 0 <= k < |Stops(n)| ==> !Stops(n)[k].Raise?
    ensures Paths(Stops(n)) == Leaves(n)
    decreases n, 1
  {
    match n
    case List(items) =>
      OneKeyStopsSeqAreLeaves(items);
    case Dict(entries) =>
      var v := entries[0].value;
      assert entries[1..] == [];
      assert LeavesEntries(entries) == Leaves(v);
      if !v.Str? {
        OneKeyStopsAreLeaves(v);
      }
    case Str(_) =>
    case Other =>
  }

  lemma {:induction false} OneKeyStopsSeqAreLeaves(items: seq<Node>)
    requires forall i :: 0 <= i < |items| ==> OneKeyMappings(items[i])
    ensures forall k :: 0 <= k < |StopsSeq(items)| ==> !StopsSeq(items)[k].Raise?
    ensures Paths(StopsSeq(items)) == LeavesSeq(items)
    decreases items, 0
  {
    if items != [] {
      OneKeyStopsAreLeaves(items[0]);
      OneKeyStopsSeqAreLeaves(items[1..]);
      PathsConcat(Stops(items[0]), StopsSeq(items[1..]));
    }
  }

  /**
   * In a chapter list whose mappings all have one key, a non-empty path has
   * a title exactly when it is one of the flattened chapters.
   */
  lemma ChapterTitleComplete(chapters: Node, path: string)
    requires OneKeyMappings(chapters) && path != ""
    ensures ChapterTitle(chapters, path).Ok? <==> path in Leaves(chapters)
  {
    FindIsFirstStop(chapters, path);
    OneKeyStopsAreLeaves(chapters);
    var stops := Stops(chapters);
    if path in Leaves(chapters) {
      var k :| 0 <= k < |stops| && Paths(stops)[k] == path;
      assert stops[k].path == path;
    }
    FindSound(chapters, path);
  }

  /**
   * Only the first value of a mapping is searched: a chapter that is the
   * second value of a mapping is flattened but has no title.
   */
  lemma FirstValueOnly()
    ensures "b.md" in Leaves(List([Dict([Entry("A", Str("a.md")), Entry("B", Str("b.md"))])]))
    ensures ChapterTitle(List([Dict([Entry("A", Str("a.md")), Entry("B", Str("b.md"))])]), "b.md")
      == Err(ChapterNotFound("b.md"))
  {
    var d := Dict([Entry("A", Str("a.md")), Entry("B", Str("b.md"))]);
    assert Leaves(d) == ["a.md", "b.md"];
  }

  /**
   * A nested match on the empty path is falsy, so the search moves past it:
   * the empty path is flattened but not found inside a nested list.
   */
  lemma EmptyPathNested()
    ensures "" in Leaves(List([List([Str("")])]))
    ensures ChapterTitle(List([List([Str("")])]), "") == Err(ChapterNotFound(""))
    ensures ChapterTitle(List([Str("")]), "") == Ok("")
  {
  }

  // ---------------------------------------------------------------------
  // The Chapters helper
  // ---------------------------------------------------------------------

  /**
   * `Chapters`: the chapter tree together with its flat list, recomputed
   * whenever the tree is assigned.
   */
  class Chapters {
    var chapters: Node
    var flat: seq<string>

    ghost predicate Valid()
      reads this
    {
      IsContainer(chapters) && flat == Leaves(chapters)
    }

    constructor(chapters: Node)
      requires IsContainer(chapters)
      ensures Valid() && this.chapters == chapters
    {
      this.chapters := chapters;
      var f := FlattenSeq(chapters);
      flat := f;
    }

    /** The `chapters` setter: stores the tree and recomputes the flat list. */
    method SetChapters(chapters: Node)
      requires IsContainer(chapters)
      modifies this
      ensures Valid() && this.chapters == chapters
    {
      this.chapters := chapters;
      var f := FlattenSeq(chapters);
      flat := f;
    }

    /** `len(ch)`. */
    function Len(): (r: nat)
      reads this
      requires Valid()
      ensures r == |Leaves(chapters)|
    {
      |flat|
    }

    /**
     * `ch[i]`: Python indexing of the flat list, negative indices counting
     * from the end; `None` is the `IndexError`.
     */
    function At(i: int): (r: Option<string>)
      reads this
      requires Valid()
      ensures 0 <= i < |Leaves(chapters)| ==> r == Some(Leaves(chapters)[i])
      ensures -|Leaves(chapters)| <= i < 0 ==> r == Some(Leaves(chapters)[|Leaves(chapters)| + i])
      ensures r.None? <==> !(-|Leaves(chapters)| <= i < |Leaves(chapters)|)
    {
      if 0 <= i < |flat| then Some(flat[i])
      else if -|flat| <= i < 0 then Some(flat[|flat| + i])
      else None
    }

    /** `item in ch`. */
    function Contains(item: string): (r: bool)
      reads this
      requires Valid()
      ensures r <==> exists k :: 0 <= k < |Leaves(chapters)| && Leaves(chapters)[k] == item
    {
      assert flat == Leaves(chapters);
      item in flat
    }

    /** `get_chapter_title`: any title it returns belongs to a chapter of the flat list. */
    function GetChapterTitle(path: string): (r: Result<string, TitleError>)
      reads this
      requires Valid()
      ensures r.Ok? ==> Contains(path)
      ensures r.Err? && r.error.ChapterNotFound? ==> r.error.path == path
    {
      ChapterTitle(chapters, path)
    }
  }

  /** The accessors agree with each other: `ch[i] in ch` for every valid index. */
  lemma AccessorsAgree(ch: Chapters, i: int)
    requires ch.Valid()
    ensures ch.At(i).Some? <==> -(ch.Len() as int) <= i < ch.Len()
    ensures ch.At(i).Some? ==> ch.Contains(ch.At(i).value)
  {
  }
}
