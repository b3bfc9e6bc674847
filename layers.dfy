/**
 * How `CombinedOptions.set_options` lays the registered option maps over the
 * defaults, and which layer's value each key ends up with.
 */
module Layers {
  import opened Values

  /** One option dictionary. `a + b` is `a.update(b)`: keys of `b` win. */
  type Layer = map<string, Value>

  /** Every name in `order` is a registered layer. */
  predicate Registered(order: seq<string>, layers: map<string, Layer>)
  {
    forall n :: n in order ==> n in layers
  }

  /** Every priority name is one of the registered names. */
  predicate Listed(priority: seq<string>, names: seq<string>)
  {
    forall p :: p in priority ==> p in names
  }

  /**
   * `for name in reversed(order): acc.update(layers[name])`: the first name of
   * `order` is applied last.
   */
  function ApplyReversed(acc: Layer, order: seq<string>, layers: map<string, Layer>): (r: Layer)
    requires Registered(order, layers)
    ensures acc.Keys <= r.Keys
    ensures order != [] ==> forall k :: k in layers[order[0]] ==> k in r && r[k] == layers[order[0]][k]
  {
    if order == [] then acc else ApplyReversed(acc, order[1..], layers) + layers[order[0]]
  }

  /** The registered names that are not in `priority`, in registration order. */
  function NonPriority(names: seq<string>, priority: seq<string>): (r: seq<string>)
    ensures forall x :: x in r <==> x in names && x !in priority
  {
    if names == [] then []
    else if names[0] in priority then NonPriority(names[1..], priority)
    else [names[0]] + NonPriority(names[1..], priority)
  }

  lemma NonPriorityRegistered(names: seq<string>, priority: seq<string>, layers: map<string, Layer>)
    requires Registered(names, layers)
    ensures Registered(NonPriority(names, priority), layers)
  {
    var np := NonPriority(names, priority);
    forall i | 0 <= i < |np| ensures np[i] in layers {
      assert np[i] in np;
    }
  }

  /**
   * The effective options `set_options` builds: the defaults, then the
   * non-priority layers in reverse registration order, then the priority
   * layers in reverse priority order.
   */
  function Merged(defaults: Layer, names: seq<string>, layers: map<string, Layer>, priority: seq<string>): (r: Layer)
    requires Registered(names, layers) && Registered(priority, layers)
    ensures defaults.Keys <= r.Keys
    ensures priority != [] ==> forall k :: k in layers[priority[0]] ==> k in r && r[k] == layers[priority[0]][k]
  {
    NonPriorityRegistered(names, priority, layers);
    ApplyReversed(ApplyReversed(defaults, NonPriority(names, priority), layers), priority, layers)
  }

  /** A key is present after the fold exactly when the start map or one of the applied layers has it. */
  lemma {:induction false} ApplyReversedKeys(acc: Layer, order: seq<string>, layers: map<string, Layer>, k: string)
    requires Registered(order, layers)
    ensures k in ApplyReversed(acc, order, layers) <==> k in acc || exists i :: 0 <= i < |order| && k in layers[order[i]]
  {
    if order != [] {
      ApplyReversedKeys(acc, order[1..], layers, k);
      if exists i :: 0 <= i < |order| && k in layers[order[i]] {
        var i :| 0 <= i < |order| && k in layers[order[i]];
        if i > 0 { assert order[1..][i - 1] == order[i]; }
      }
      if exists i :: 0 <= i < |order[1..]| && k in layers[order[1..][i]] {
        var i :| 0 <= i < |order[1..]| && k in layers[order[1..][i]];
        assert order[i + 1] == order[1..][i];
      }
    }
  }

  /** The first layer of `order` that has the key supplies its value. */
  lemma {:induction false} ApplyReversedFirst(acc: Layer, order: seq<string>, layers: map<string, Layer>, k: string, i: nat)
    requires Registered(order, layers)
    requires i < |order| && k in layers[order[i]]
    requires forall j :: 0 <= j < i ==> k !in layers[order[j]]
    ensures k in ApplyReversed(acc, order, layers)
    ensures ApplyReversed(acc, order, layers)[k] == layers[order[i]][k]
  {
    if i > 0 {
      assert order[1..][i - 1] == order[i];
      ApplyReversedFirst(acc, order[1..], layers, k, i - 1);
    }
  }

  /** The value of a key after the fold comes from one of the applied layers, or from the start map. */
  lemma {:induction false} ApplyReversedSource(acc: Layer, order: seq<string>, layers: map<string, Layer>, k: string)
    requires Registered(order, layers)
    requires k in ApplyReversed(acc, order, layers)
    ensures || (exists i :: 0 <= i < |order| && k in layers[order[i]] && ApplyReversed(acc, order, layers)[k] == layers[order[i]][k])
            || (k in acc && ApplyReversed(acc, order, layers)[k] == acc[k] && forall i :: 0 <= i < |order| ==> k !in layers[order[i]])
  {
    if order != [] && k !in layers[order[0]] {
      var rest := order[1..];
      ApplyReversedSource(acc, rest, layers, k);
      if exists i :: 0 <= i < |rest| && k in layers[rest[i]] && ApplyReversed(acc, rest, layers)[k] == layers[rest[i]][k] {
        var i :| 0 <= i < |rest| && k in layers[rest[i]] && ApplyReversed(acc, rest, layers)[k] == layers[rest[i]][k];
        assert order[i + 1] == rest[i];
      } else {
        assert forall i :: 1 <= i < |order| ==> order[i] == rest[i - 1];
      }
    }
  }

  /**
   * Among the non-priority layers, the earliest registered one that has the
   * key supplies its value.
   */
  lemma {:induction false} NonPriorityFirst(acc: Layer, names: seq<string>, priority: seq<string>,
                                            layers: map<string, Layer>, k: string, i: nat)
    requires Registered(names, layers)
    requires i < |names| && names[i] !in priority && k in layers[names[i]]
    requires forall j :: 0 <= j < i && names[j] !in priority ==> k !in layers[names[j]]
    ensures k in ApplyReversed(acc, NonPriority(names, priority), layers) &&
      ApplyReversed(acc, NonPriority(names, priority), layers)[k] == layers[names[i]][k]
  {
    NonPriorityRegistered(names, priority, layers);
    NonPriorityRegistered(names[1..], priority, layers);
    if i > 0 {
      assert names[1..][i - 1] == names[i];
      NonPriorityFirst(acc, names[1..], priority, layers, k, i - 1);
    }
  }

  /** Keys present in the effective options: the default keys and the keys of every registered layer. */
  lemma MergedKeys(defaults: Layer, names: seq<string>, layers: map<string, Layer>, priority: seq<string>, k: string)
    requires Registered(names, layers) && Registered(priority, layers) && Listed(priority, names)
    ensures k in Merged(defaults, names, layers, priority) <==>
      k in defaults || exists i :: 0 <= i < |names| && k in layers[names[i]]
  {
    NonPriorityRegistered(names, priority, layers);
    var np := NonPriority(names, priority);
    var base := ApplyReversed(defaults, np, layers);
    ApplyReversedKeys(defaults, np, layers, k);
    ApplyReversedKeys(base, priority, layers, k);
    if exists i :: 0 <= i < |names| && k in layers[names[i]] {
      var i :| 0 <= i < |names| && k in layers[names[i]];
      if names[i] in priority {
        var j :| 0 <= j < |priority| && priority[j] == names[i];
      } else {
        assert names[i] in np;
        var j :| 0 <= j < |np| && np[j] == names[i];
      }
    }
    if exists j :: 0 <= j < |np| && k in layers[np[j]] {
      var j :| 0 <= j < |np| && k in layers[np[j]];
      assert np[j] in np;
      var i :| 0 <= i < |names| && names[i] == np[j];
      assert k in layers[names[i]];
    }
    if exists j :: 0 <= j < |priority| && k in layers[priority[j]] {
      var j :| 0 <= j < |priority| && k in layers[priority[j]];
      assert priority[j] in priority;
      var i :| 0 <= i < |names| && names[i] == priority[j];
      assert k in layers[names[i]];
    }
  }

  /**
   * A priority layer that has the key, with no earlier-listed priority layer
   * having it, supplies the effective value: the first listed priority wins,
   * over every non-priority layer and the defaults.
   */
  lemma PriorityWins(defaults: Layer, names: seq<string>, layers: map<string, Layer>, priority: seq<string>,
                     k: string, i: nat)
    requires Registered(names, layers) && Registered(priority, layers)
    requires i < |priority| && k in layers[priority[i]]
    requires forall j :: 0 <= j < i ==> k !in layers[priority[j]]
    ensures k in Merged(defaults, names, layers, priority)
    ensures Merged(defaults, names, layers, priority)[k] == layers[priority[i]][k]
  {
    NonPriorityRegistered(names, priority, layers);
    ApplyReversedFirst(ApplyReversed(defaults, NonPriority(names, priority), layers), priority, layers, k, i);
  }

  /**
   * When no priority layer has the key, the earliest registered non-priority
   * layer that has it supplies the effective value.
   */
  lemma EarlierRegisteredWins(defaults: Layer, names: seq<string>, layers: map<string, Layer>, priority: seq<string>,
                              k: string, i: nat)
    requires Registered(names, layers) && Registered(priority, layers)
    requires forall j :: 0 <= j < |priority| ==> k !in layers[priority[j]]
    requires i < |names| && names[i] !in priority && k in layers[names[i]]
    requires forall j :: 0 <= j < i && names[j] !in priority ==> k !in layers[names[j]]
    ensures k in Merged(defaults, names, layers, priority)
    ensures Merged(defaults, names, layers, priority)[k] == layers[names[i]][k]
  {
    NonPriorityRegistered(names, priority, layers);
    var base := ApplyReversed(defaults, NonPriority(names, priority), layers);
    NonPriorityFirst(defaults, names, priority, layers, k, i);
    ApplyReversedKeys(base, priority, layers, k);
    ApplyReversedSource(base, priority, layers, k);
  }

  /** A key that no registered layer has keeps its default value. */
  lemma DefaultsLowest(defaults: Layer, names: seq<string>, layers: map<string, Layer>, priority: seq<string>, k: string)
    requires Registered(names, layers) && Registered(priority, layers) && Listed(priority, names)
    requires forall i :: 0 <= i < |names| ==> k !in layers[names[i]]
    requires k in defaults
    ensures k in Merged(defaults, names, layers, priority)
    ensures Merged(defaults, names, layers, priority)[k] == defaults[k]
  {
    MergedKeys(defaults, names, layers, priority, k);
    MergedSource(defaults, names, layers, priority, k);
  }

  /**
   * Every effective value is the value of some registered layer that has the
   * key, or else the default.
   */
  lemma MergedSource(defaults: Layer, names: seq<string>, layers: map<string, Layer>, priority: seq<string>, k: string)
    requires Registered(names, layers) && Registered(priority, layers) && Listed(priority, names)
    requires k in Merged(defaults, names, layers, priority)
    ensures var m := Merged(defaults, names, layers, priority);
      || (exists i :: 0 <= i < |names| && k in layers[names[i]] && m[k] == layers[names[i]][k])
      || (k in defaults && m[k] == defaults[k] && forall i :: 0 <= i < |names| ==> k !in layers[names[i]])
  {
    NonPriorityRegistered(names, priority, layers);
    var np := NonPriority(names, priority);
    var base := ApplyReversed(defaults, np, layers);
    var m := Merged(defaults, names, layers, priority);
    ApplyReversedSource(base, priority, layers, k);
    if exists j :: 0 <= j < |priority| && k in layers[priority[j]] && m[k] == layers[priority[j]][k] {
      var j :| 0 <= j < |priority| && k in layers[priority[j]] && m[k] == layers[priority[j]][k];
      assert priority[j] in priority;
      var i :| 0 <= i < |names| && names[i] == priority[j];
    } else {
      ApplyReversedSource(defaults, np, layers, k);
      if exists j :: 0 <= j < |np| && k in layers[np[j]] && base[k] == layers[np[j]][k] {
        var j :| 0 <= j < |np| && k in layers[np[j]] && base[k] == layers[np[j]][k];
        assert np[j] in np;
        var i :| 0 <= i < |names| && names[i] == np[j];
      } else {
        forall i | 0 <= i < |names| ensures k !in layers[names[i]] {
          if names[i] in priority {
            var j :| 0 <= j < |priority| && priority[j] == names[i];
          } else {
            assert names[i] in np;
            var j :| 0 <= j < |np| && np[j] == names[i];
          }
        }
      }
    }
  }

  /** No two registered layers share a key. */
  predicate KeyDisjoint(names: seq<string>, layers: map<string, Layer>)
    requires Registered(names, layers)
  {
    forall i, j :: 0 <= i < j < |names| ==> layers[names[i]].Keys !! layers[names[j]].Keys
  }

  /** When no two layers share a key, the effective options do not depend on the priority. */
  lemma DisjointLayersIgnorePriority(defaults: Layer, names: seq<string>, layers: map<string, Layer>,
                                     p1: seq<string>, p2: seq<string>)
    requires Registered(names, layers) && KeyDisjoint(names, layers)
    requires Registered(p1, layers) && Listed(p1, names)
    requires Registered(p2, layers) && Listed(p2, names)
    ensures Merged(defaults, names, layers, p1) == Merged(defaults, names, layers, p2)
  {
    var m1 := Merged(defaults, names, layers, p1);
    var m2 := Merged(defaults, names, layers, p2);
    forall k ensures k in m1 <==> k in m2 {
      MergedKeys(defaults, names, layers, p1, k);
      MergedKeys(defaults, names, layers, p2, k);
    }
    forall k | k in m1 ensures m1[k] == m2[k] {
      MergedKeys(defaults, names, layers, p1, k);
      MergedKeys(defaults, names, layers, p2, k);
      MergedSource(defaults, names, layers, p1, k);
      MergedSource(defaults, names, layers, p2, k);
      if exists i :: 0 <= i < |names| && k in layers[names[i]] && m1[k] == layers[names[i]][k] {
        var i1 :| 0 <= i1 < |names| && k in layers[names[i1]] && m1[k] == layers[names[i1]][k];
        var i2 :| 0 <= i2 < |names| && k in layers[names[i2]] && m2[k] == layers[names[i2]][k];
        assert k in layers[names[i1]].Keys && k in layers[names[i2]].Keys;
        assert i1 == i2;
      }
    }
  }

  /**
   * An end-to-end merge: defaults `{x: 1, y: 2}`,
   * layers `file: {y: 3, z: 4}` and `cli: {z: 5}`, priority `[cli, file]`.
   */
  lemma CliOverFileExample()
    ensures var layers := map["file" := map["y" := VInt(3), "z" := VInt(4)], "cli" := map["z" := VInt(5)]];
      Merged(map["x" := VInt(1), "y" := VInt(2)], ["file", "cli"], layers, ["cli", "file"])
        == map["x" := VInt(1), "y" := VInt(3), "z" := VInt(5)]
  {
    var layers := map["file" := map["y" := VInt(3), "z" := VInt(4)], "cli" := map["z" := VInt(5)]];
    assert NonPriority(["file", "cli"], ["cli", "file"]) == [] by {
      assert ["file", "cli"][1..] == ["cli"];
    }
    assert ["cli", "file"][1..] == ["file"];
  }
}
