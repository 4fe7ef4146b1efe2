/** The pure helpers of `utils.py`: the tool-name classifier built by
    `make_toolDetector`, `sorted_nonempty_item_tuples`, `attribute_factory`
    and the constant factories.
 */
module Utils {
  import opened Outcomes
  import opened Strings
  import StringOrder

  // ---------------------------------------------------------------------
  // make_toolDetector / looksLikeATool
  // ---------------------------------------------------------------------

  /** A `known`, `prefixes` or `suffixes` argument: absent (`None`), one
      whitespace-separated string, or a list of names. */
  datatype NameSpec = Unset | Text(text: string) | Listed(names: seq<string>)

  /** The names an argument stands for: none when absent, the words of a
      string, the list itself. */
  function Names(spec: NameSpec): (ns: seq<string>)
    ensures spec.Unset? ==> ns == []
    ensures spec.Text? ==> forall n :: n in ns ==> IsWord(n)
    ensures spec.Listed? ==> ns == spec.names
  {
    match spec
    case Unset => []
    case Text(t) => Words(t)
    case Listed(ns) => ns
  }

  /** The configuration `looksLikeATool` closes over. */
  datatype ToolDetector = ToolDetector(
    known: set<string>,
    prefixes: seq<string>,
    suffixes: seq<string>,
    noDashes: bool)

  /** `make_toolDetector(known=…, prefixes=…, suffixes=…, nodashes=…)`. */
  function MakeToolDetector(known: NameSpec, prefixes: NameSpec, suffixes: NameSpec, noDashes: bool): (d: ToolDetector)
    ensures forall n :: n in d.known <==> n in Names(known)
    ensures d.prefixes == Names(prefixes) && d.suffixes == Names(suffixes)
    ensures d.noDashes == noDashes
  {
    ToolDetector((set n | n in Names(known)), Names(prefixes), Names(suffixes), noDashes)
  }

  /** A string argument means the same as the list of its words. */
  lemma TextSpecIsWordList(ws: seq<string>, prefixes: NameSpec, suffixes: NameSpec, noDashes: bool)
    requires forall i :: 0 <= i < |ws| ==> IsWord(ws[i])
    ensures MakeToolDetector(Text(Join(ws, ' ')), prefixes, suffixes, noDashes)
         == MakeToolDetector(Listed(ws), prefixes, suffixes, noDashes)
    ensures MakeToolDetector(Unset, Text(Join(ws, ' ')), suffixes, noDashes).prefixes == ws
    ensures MakeToolDetector(Unset, prefixes, Text(Join(ws, ' ')), noDashes).suffixes == ws
  {
    WordsOfJoin(ws);
  }

  /** Whether some prefix in `prefixes` starts `name` (the first loop). */
  function AnyPrefix(name: string, prefixes: seq<string>): (r: bool)
    ensures r <==> exists i :: 0 <= i < |prefixes| && StartsWith(name, prefixes[i])
  {
    if |prefixes| == 0 then false
    else StartsWith(name, prefixes[0]) || AnyPrefix(name, prefixes[1..])
  }

  /** Whether some suffix in `suffixes` ends `name` (the second loop). */
  function AnySuffix(name: string, suffixes: seq<string>): (r: bool)
    ensures r <==> exists i :: 0 <= i < |suffixes| && EndsWith(name, suffixes[i])
  {
    if |suffixes| == 0 then false
    else EndsWith(name, suffixes[0]) || AnySuffix(name, suffixes[1..])
  }

  /** `looksLikeATool(name)`: `True`, `False`, or `None` when no rule
      decides. The rules are tried in order and the first match wins:
      known name, dash, prefix, suffix. */
  function LooksLikeATool(d: ToolDetector, name: string): (r: Option<bool>)
    ensures name in d.known ==> r == Some(true)
    ensures r == Some(false) <==> name !in d.known && d.noDashes && '-' in name
    ensures r == Some(true) <==>
              name in d.known
              || (!(d.noDashes && '-' in name)
                  && ((exists i :: 0 <= i < |d.prefixes| && StartsWith(name, d.prefixes[i]))
                      || (exists i :: 0 <= i < |d.suffixes| && EndsWith(name, d.suffixes[i]))))
  {
    if name in d.known then Some(true)
    else if d.noDashes && '-' in name then Some(false)
    else if AnyPrefix(name, d.prefixes) || AnySuffix(name, d.suffixes) then Some(true)
    else None
  }

  /** The detector of the `make_toolDetector` docstring examples. */
  function ExampleDetector(known: NameSpec): ToolDetector {
    MakeToolDetector(known, Listed(["plone_", "portal_"]), Listed(["_catalog", "_registry"]), true)
  }

  /** The docstring examples decided by a prefix or a suffix. */
  lemma AffixExamples()
    ensures LooksLikeATool(ExampleDetector(Unset), "plone_utils") == Some(true)
    ensures LooksLikeATool(ExampleDetector(Unset), "mimetype_registry") == Some(true)
  {
    assert "plone_utils"[..6] == "plone_";
    assert "mimetype_registry"[8..] == "_registry";
  }

  /** The docstring example rejected by the dash rule. */
  lemma DashExample()
    ensures LooksLikeATool(ExampleDetector(Unset), "my-silly_registry") == Some(false)
  {
    assert "my-silly_registry"[2] == '-';
  }

  /** The docstring example no rule decides. */
  lemma UndecidedExample()
    ensures LooksLikeATool(ExampleDetector(Unset), "acl_users") == None
  {
    var d := ExampleDetector(Unset);
    assert '-' !in "acl_users";
    assert !AnyPrefix("acl_users", d.prefixes) by {
      assert "acl_users"[0] != "plone_"[0] && "acl_users"[0] != "portal_"[0];
    }
    assert !AnySuffix("acl_users", d.suffixes) by {
      assert "acl_users"[1] != "_catalog"[0] && "acl_users"[0] != "_registry"[0];
    }
  }

  /** A known name is a tool whatever the other rules say. */
  lemma KnownExamples(ws: seq<string>)
    requires ws == ["acl_users", "my-silly_registry"]
    ensures LooksLikeATool(ExampleDetector(Listed(ws)), ws[0]) == Some(true)
    ensures LooksLikeATool(ExampleDetector(Listed(ws)), ws[1]) == Some(true)
  {
  }

  // ---------------------------------------------------------------------
  // sorted_nonempty_item_tuples
  // ---------------------------------------------------------------------

  /** The items of a dict: no key occurs twice. */
  predicate DistinctKeys<V>(items: seq<(string, Option<V>)>) {
    forall i, j :: 0 <= i < j < |items| ==> items[i].0 != items[j].0
  }

  /** Item tuples in strictly ascending key order. */
  predicate SortedByKey<V>(ps: seq<(string, V)>) {
    forall i, j :: 0 <= i < j < |ps| ==> StringOrder.Less(ps[i].0, ps[j].0)
  }

  lemma SortedCons<V>(p: (string, V), ps: seq<(string, V)>)
    requires SortedByKey(ps)
    requires |ps| > 0 ==> StringOrder.Less(p.0, ps[0].0)
    ensures SortedByKey([p] + ps)
  {
    var r := [p] + ps;
    forall i, j | 0 <= i < j < |r|
      ensures StringOrder.Less(r[i].0, r[j].0)
    {
      if i == 0 && j > 1 {
        StringOrder.LessTransitive(p.0, ps[0].0, ps[j - 1].0);
      }
    }
  }

  /** One step of the sort: puts `p` in its place among sorted items whose
      keys all differ from its own. */
  function Insert<V(!new)>(p: (string, V), ps: seq<(string, V)>): (r: seq<(string, V)>)
    requires SortedByKey(ps)
    requires forall i :: 0 <= i < |ps| ==> ps[i].0 != p.0
    ensures SortedByKey(r)
    ensures forall e :: e in r <==> e == p || e in ps
    ensures |r| == |ps| + 1
  {
    if |ps| == 0 then [p]
    else if StringOrder.Less(p.0, ps[0].0) then
      SortedCons(p, ps);
      [p] + ps
    else
      StringOrder.LessTotal(p.0, ps[0].0);
      var rest := Insert(p, ps[1..]);
      assert forall e :: e in ps[1..] ==> e in ps;
      assert |rest| > 0 && (rest[0] == p || rest[0] in ps[1..]);
      assert StringOrder.Less(ps[0].0, rest[0].0);
      SortedCons(ps[0], rest);
      assert forall e :: e in ps <==> e == ps[0] || e in ps[1..] by {
        assert ps == [ps[0]] + ps[1..];
      }
      [ps[0]] + rest
  }

  /** `sorted_nonempty_item_tuples(dic)`, with the dict given by its items:
      the items whose value is not `None`, as tuples sorted by key. */
  function SortedNonemptyItemTuples<V(!new)>(items: seq<(string, Option<V>)>): (r: seq<(string, V)>)
    requires DistinctKeys(items)
    ensures SortedByKey(r)
    ensures forall k, v :: (k, v) in r <==> (k, Some(v)) in items
  {
    if |items| == 0 then []
    else
      var rest := SortedNonemptyItemTuples(items[1..]);
      assert forall e :: e in items <==> e == items[0] || e in items[1..] by {
        assert items == [items[0]] + items[1..];
      }
      match items[0].1
      case None => rest
      case Some(v) =>
        assert forall i :: 0 <= i < |rest| ==> rest[i].0 != items[0].0 by {
          forall i | 0 <= i < |rest|
            ensures rest[i].0 != items[0].0
          {
            assert (rest[i].0, Some(rest[i].1)) in items[1..];
          }
        }
        Insert((items[0].0, v), rest)
  }

  /** Sorted item tuples are determined by the items they hold. */
  lemma {:induction false} SortedUnique<V>(x: seq<(string, V)>, y: seq<(string, V)>)
    requires SortedByKey(x) && SortedByKey(y)
    requires forall e :: e in x <==> e in y
    ensures x == y
    decreases |x|
  {
    assert |x| > 0 <==> |y| > 0 by {
      if |x| > 0 { assert x[0] in x; }
      if |y| > 0 { assert y[0] in y; }
    }
    if |x| > 0 {
      assert x[0] in y;
      var j :| 0 <= j < |y| && y[j] == x[0];
      assert y[0] in x;
      var i :| 0 <= i < |x| && x[i] == y[0];
      if j > 0 {
        if i > 0 {
          StringOrder.LessAsymmetric(x[0].0, x[i].0);
        } else {
          StringOrder.LessIrreflexive(y[0].0);
        }
      }
      assert x[0] == y[0];
      forall e
        ensures e in x[1..] <==> e in y[1..]
      {
        if e in x[1..] {
          var k :| 1 <= k < |x| && x[k] == e;
          StringOrder.LessIrreflexive(x[0].0);
          assert e in y && e != y[0];
          assert y == [y[0]] + y[1..];
        }
        if e in y[1..] {
          var k :| 1 <= k < |y| && y[k] == e;
          StringOrder.LessIrreflexive(y[0].0);
          assert e in x && e != x[0];
          assert x == [x[0]] + x[1..];
        }
      }
      SortedUnique(x[1..], y[1..]);
      assert x == [x[0]] + x[1..] && y == [y[0]] + y[1..];
    }
  }

  /** Two dicts with the same non-`None` entries, in whatever order and with
      whatever extra `None` entries, give the same tuple. */
  lemma SameEntriesSameTuple<V(!new)>(a: seq<(string, Option<V>)>, b: seq<(string, Option<V>)>)
    requires DistinctKeys(a) && DistinctKeys(b)
    requires forall k, v :: (k, Some(v)) in a <==> (k, Some(v)) in b
    ensures SortedNonemptyItemTuples(a) == SortedNonemptyItemTuples(b)
  {
    var x, y := SortedNonemptyItemTuples(a), SortedNonemptyItemTuples(b);
    forall e
      ensures e in x <==> e in y
    {
      assert e in x <==> (e.0, Some(e.1)) in a;
    }
    SortedUnique(x, y);
  }

  /** `dict(tuples)`: later pairs win. */
  function AsDict<V>(ps: seq<(string, V)>): map<string, V> {
    if |ps| == 0 then map[]
    else AsDict(ps[..|ps| - 1])[ps[|ps| - 1].0 := ps[|ps| - 1].1]
  }

  /** Storing pairs in turn: every key of the dictionary comes from a pair,
      and its value is that of the last pair with that key. */
  lemma {:induction false} LastPairWins<V>(ps: seq<(string, V)>)
    ensures forall k :: k in AsDict(ps) <==> exists i :: 0 <= i < |ps| && ps[i].0 == k
    ensures forall i :: 0 <= i < |ps| && (forall j :: i < j < |ps| ==> ps[j].0 != ps[i].0) ==>
              AsDict(ps)[ps[i].0] == ps[i].1
    decreases |ps|
  {
    if |ps| > 0 {
      var init := ps[..|ps| - 1];
      LastPairWins(init);
      forall k
        ensures k in AsDict(ps) <==> exists i :: 0 <= i < |ps| && ps[i].0 == k
      {
        if k in AsDict(init) {
          var i :| 0 <= i < |init| && init[i].0 == k;
          assert ps[i].0 == k;
        }
        if i :| 0 <= i < |ps| && ps[i].0 == k {
          if i < |ps| - 1 {
            assert init[i].0 == k;
          }
        }
      }
      forall i | 0 <= i < |ps| && (forall j :: i < j < |ps| ==> ps[j].0 != ps[i].0)
        ensures AsDict(ps)[ps[i].0] == ps[i].1
      {
        if i < |ps| - 1 {
          assert init[i] == ps[i];
          assert ps[|ps| - 1].0 != ps[i].0;
        }
      }
    }
  }

  lemma {:induction false} AsDictOfDistinct<V>(ps: seq<(string, V)>)
    requires forall i, j :: 0 <= i < j < |ps| ==> ps[i].0 != ps[j].0
    ensures forall k :: k in AsDict(ps) <==> exists i :: 0 <= i < |ps| && ps[i].0 == k
    ensures forall i :: 0 <= i < |ps| ==> AsDict(ps)[ps[i].0] == ps[i].1
    decreases |ps|
  {
    if |ps| > 0 {
      var init := ps[..|ps| - 1];
      AsDictOfDistinct(init);
      forall k
        ensures k in AsDict(ps) <==> exists i :: 0 <= i < |ps| && ps[i].0 == k
      {
        if k in AsDict(init) {
          var i :| 0 <= i < |init| && init[i].0 == k;
          assert ps[i].0 == k;
        }
        if i :| 0 <= i < |ps| && ps[i].0 == k {
          if i < |ps| - 1 {
            assert init[i].0 == k;
          }
        }
      }
      forall i | 0 <= i < |ps|
        ensures AsDict(ps)[ps[i].0] == ps[i].1
      {
        if i < |ps| - 1 {
          assert init[i] == ps[i];
        }
      }
    }
  }

  /** `dict(sorted_nonempty_item_tuples(dic))` is `dic` without its
      `None`-valued entries: it holds exactly the keys whose value is not
      `None`, each with its value. */
  lemma DictOfTuples<V(!new)>(items: seq<(string, Option<V>)>)
    requires DistinctKeys(items)
    ensures forall k :: k in AsDict(SortedNonemptyItemTuples(items)) <==>
                        exists j :: 0 <= j < |items| && items[j].0 == k && items[j].1.Some?
    ensures forall j :: 0 <= j < |items| && items[j].1.Some? ==>
                        AsDict(SortedNonemptyItemTuples(items))[items[j].0] == items[j].1.value
  {
    var ps := SortedNonemptyItemTuples(items);
    forall i, j | 0 <= i < j < |ps|
      ensures ps[i].0 != ps[j].0
    {
      StringOrder.LessIrreflexive(ps[i].0);
    }
    AsDictOfDistinct(ps);
    forall k | k in AsDict(ps)
      ensures exists j :: 0 <= j < |items| && items[j].0 == k && items[j].1.Some?
    {
      var i :| 0 <= i < |ps| && ps[i].0 == k;
      assert (ps[i].0, Some(ps[i].1)) in items;
    }
    forall j | 0 <= j < |items| && items[j].1.Some?
      ensures items[j].0 in AsDict(ps) && AsDict(ps)[items[j].0] == items[j].1.value
    {
      assert items[j] == (items[j].0, Some(items[j].1.value));
      assert (items[j].0, items[j].1.value) in ps;
      var i :| 0 <= i < |ps| && ps[i] == (items[j].0, items[j].1.value);
    }
  }

  // ---------------------------------------------------------------------
  // attribute_factory and the constant factories
  // ---------------------------------------------------------------------

  /** `attribute_factory(o)(aname, override)`, with `o`'s attributes as a
      map: reads `override` when it is truthy, else `aname`; a missing
      attribute raises `AttributeError`. */
  function GimmeAttribute<V>(attributes: map<string, V>, aname: string, override: Option<string>): (r: Result<V>)
    ensures override.None? || override.value == "" ==>
              (aname in attributes ==> r == Ok(attributes[aname]))
              && (aname !in attributes ==> r == Err(AttributeError))
    ensures override.Some? && override.value != "" ==>
              (override.value in attributes ==> r == Ok(attributes[override.value]))
              && (override.value !in attributes ==> r == Err(AttributeError))
  {
    var name := if override.Some? && override.value != "" then override.value else aname;
    if name in attributes then Ok(attributes[name]) else Err(AttributeError)
  }

  /** A truthy override makes the attribute name irrelevant. */
  lemma OverrideIgnoresName<V>(attributes: map<string, V>, a1: string, a2: string, override: string)
    requires override != ""
    ensures GimmeAttribute(attributes, a1, Some(override)) == GimmeAttribute(attributes, a2, Some(override))
  {
  }

  /** `false_by_default()`, the default of the flags of `FUNCMAP`. */
  function FalseByDefault(): (b: bool)
    ensures !b
  {
    false
  }

  /** `gimme_0()`, the neutral size step and nesting depth. */
  function Gimme0(): (n: int)
    ensures n == 0
  {
    0
  }

  /** `gimme_1()`, the neutral scale factor. */
  function Gimme1(): (n: int)
    ensures n == 1
  {
    1
  }
}
