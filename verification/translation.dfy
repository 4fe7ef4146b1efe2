/** `info['my_translation']` (`get_translated`): the object a dictionary
    with a `path` or a `uid` refers to, in the current language.

    The dictionary is normalised first (sorted, `None` values dropped),
    which both makes it a memo key of the callable proxy and puts `path`
    before `uid`. The specifiers are tried in that order until one yields
    an object; then the object is replaced by its translation into the
    current language where it has another one.
 */
module Translation {
  import opened Outcomes
  import opened Strings
  import opened Utils
  import StringOrder
  import Memo
  import Factories

  /** What `getTranslations` gives: the attribute is missing, or its call
      returns a map from language to translations, or raises. */
  datatype Translations<O> = NoTranslations | TranslationsOf(result: Result<map<string, seq<O>>>)

  /** What the language step reads of an object: its `Language` (already
      called if callable; `None` when missing), its translations and the
      outcome of `getCanonical()`. */
  datatype ObjInfo<O> = ObjInfo(language: Option<string>, translations: Translations<O>, canonical: Result<O>)

  /** The site the resolver works on: `restrictedTraverse` from the portal
      object, the catalog search behind `uid2brain`, and the objects'
      language data. */
  datatype Site<!O> = Site(
    traverse: string -> Result<O>,
    search: string -> Result<seq<Factories.Brain<O>>>,
    describe: O -> ObjInfo<O>)

  /** The effect of one normalised item: an object was found; nothing was
      found, and whether the item counts as a given specifier; or an error
      escaped. */
  datatype Step<O> = Found(obj: O) | Missed(counted: bool) | Escaped(error: Error)

  /** The traversal path of a `path` value: leading slashes dropped. */
  function PathOf(val: string): (p: string)
    ensures |p| > 0 ==> p[0] != '/'
    ensures forall c :: c in p ==> c in val
    ensures p == "" <==> forall k :: 0 <= k < |val| ==> val[k] == '/'
  {
    if StartsWith(val, "/") then LStripSlashes(val) else val
  }

  /** One item of the loop: `path` is traversed when non-empty, a failing
      traversal (`AttributeError`, `KeyError`) still counting as a given
      specifier; `uid` is looked up when non-empty, and the object of its
      first brain fetched, outside any `try`; other keys do nothing. */
  function Specifier<O>(site: Site<O>, key: string, val: string): (s: Step<O>)
    ensures key != "path" && key != "uid" ==> s == Missed(false)
    ensures key == "path" ==> (s == Missed(false) <==> PathOf(val) == "")
    ensures key == "path" && s.Escaped? ==> s.error != AttributeError && s.error != KeyError
    ensures key == "uid" ==> (s == Missed(false) <==> val == "")
    ensures key == "uid" && val != "" ==>
              (s.Escaped? <==> site.search(val).Err?
                               || (|site.search(val).value| > 0 && site.search(val).value[0].getObject.Err?))
    ensures key == "uid" && s.Found? ==>
              site.search(val).Ok? && |site.search(val).value| > 0 && site.search(val).value[0].getObject == Ok(s.obj)
    ensures key == "path" && PathOf(val) != "" && site.traverse(PathOf(val)).Ok? ==>
              s == Found(site.traverse(PathOf(val)).value)
    ensures key == "path" && PathOf(val) != "" && site.traverse(PathOf(val)).Err? ==>
              var e := site.traverse(PathOf(val)).error;
              s == (if e == AttributeError || e == KeyError then Missed(true) else Escaped(e))
    ensures key == "uid" && val != "" && site.search(val).Err? ==> s == Escaped(site.search(val).error)
    ensures key == "uid" && val != "" && site.search(val) == Ok([]) ==> s == Missed(true)
    ensures key == "uid" && val != "" && site.search(val).Ok? && |site.search(val).value| > 0 ==>
              var got := site.search(val).value[0].getObject;
              s == (if got.Ok? then Found(got.value) else Escaped(got.error))
  {
    if key == "path" then
      var p := PathOf(val);
      if p == "" then Missed(false)
      else
        match site.traverse(p)
        case Ok(o) => Found(o)
        case Err(e) => if e == AttributeError || e == KeyError then Missed(true) else Escaped(e)
    else if key == "uid" then
      if val == "" then Missed(false)
      else
        match Factories.Uid2Brain(site.search, val)
        case Err(e) => Escaped(e)
        case Ok(None) => Missed(true)
        case Ok(Some(brain)) =>
          match brain.getObject
          case Ok(o) => Found(o)
          case Err(e) => Escaped(e)
    else Missed(false)
  }

  /** An item that missed but counts as a given specifier. */
  predicate Counted<O>(s: Step<O>) {
    s.Missed? && s.counted
  }

  function StepAt<O>(site: Site<O>, tuples: seq<(string, string)>, i: nat): Step<O>
    requires i < |tuples|
  {
    Specifier(site, tuples[i].0, tuples[i].1)
  }

  /** The loop over the normalised items: the first item that finds an
      object or raises decides; without one, `None` if some specifier was
      given and `ValueError` if none was. */
  function Scan<O>(site: Site<O>, tuples: seq<(string, string)>, counted: bool): (r: Result<Option<O>>)
    ensures r.Ok? && r.value.Some? ==>
              exists i :: 0 <= i < |tuples| && StepAt(site, tuples, i) == Found(r.value.value)
                          && forall j :: 0 <= j < i ==> StepAt(site, tuples, j).Missed?
    ensures (forall j :: 0 <= j < |tuples| ==> StepAt(site, tuples, j).Missed?) ==>
              r == (if counted || exists j :: 0 <= j < |tuples| && Counted(StepAt(site, tuples, j)) then Ok(None) else Err(ValueError))
    decreases |tuples|
  {
    if |tuples| == 0 then (if counted then Ok(None) else Err(ValueError))
    else
      match StepAt(site, tuples, 0)
      case Found(o) => Ok(Some(o))
      case Escaped(e) => Err(e)
      case Missed(c) =>
        var r := Scan(site, tuples[1..], counted || c);
        StepShift(site, tuples);
        CountedShift(site, tuples);
        assert (forall j :: 0 <= j < |tuples| ==> StepAt(site, tuples, j).Missed?) ==>
               forall j :: 0 <= j < |tuples[1..]| ==> StepAt(site, tuples[1..], j).Missed?;
        if r.Ok? && r.value.Some? then
          ghost var i :| 0 <= i < |tuples[1..]| && StepAt(site, tuples[1..], i) == Found(r.value.value)
                         && forall j :: 0 <= j < i ==> StepAt(site, tuples[1..], j).Missed?;
          assert StepAt(site, tuples, i + 1) == Found(r.value.value);
          r
        else r
  }

  /** The steps of `tuples[1..]` are those of `tuples` from the second on. */
  lemma StepShift<O>(site: Site<O>, tuples: seq<(string, string)>)
    requires |tuples| > 0
    ensures forall j :: 0 < j < |tuples| ==> StepAt(site, tuples, j) == StepAt(site, tuples[1..], j - 1)
    ensures forall j :: 0 <= j < |tuples| - 1 ==> StepAt(site, tuples[1..], j) == StepAt(site, tuples, j + 1)
  {
  }

  lemma CountedShift<O>(site: Site<O>, tuples: seq<(string, string)>)
    requires |tuples| > 0
    ensures (exists j :: 0 <= j < |tuples| && Counted(StepAt(site, tuples, j))) <==>
            Counted(StepAt(site, tuples, 0)) || exists j :: 0 <= j < |tuples[1..]| && Counted(StepAt(site, tuples[1..], j))
  {
    if j :| 0 <= j < |tuples| && Counted(StepAt(site, tuples, j)) {
      if j > 0 {
        assert StepAt(site, tuples[1..], j - 1) == StepAt(site, tuples, j);
      }
    }
    if j :| 0 <= j < |tuples[1..]| && Counted(StepAt(site, tuples[1..], j)) {
      assert StepAt(site, tuples, j + 1) == StepAt(site, tuples[1..], j);
    }
  }

  /** The items before the decisive one only missed, so the decisive one
      decides the scan. */
  lemma {:induction false} ScanDecidedAt<O>(site: Site<O>, tuples: seq<(string, string)>, counted: bool, i: nat)
    requires i < |tuples|
    requires forall j :: 0 <= j < i ==> StepAt(site, tuples, j).Missed?
    requires !StepAt(site, tuples, i).Missed?
    ensures StepAt(site, tuples, i).Found? ==> Scan(site, tuples, counted) == Ok(Some(StepAt(site, tuples, i).obj))
    ensures StepAt(site, tuples, i).Escaped? ==> Scan(site, tuples, counted) == Err(StepAt(site, tuples, i).error)
    decreases i
  {
    if i > 0 {
      assert StepAt(site, tuples, 0).Missed?;
      forall j | 0 <= j < i - 1
        ensures StepAt(site, tuples[1..], j).Missed?
      {
        assert StepAt(site, tuples[1..], j) == StepAt(site, tuples, j + 1);
      }
      assert StepAt(site, tuples[1..], i - 1) == StepAt(site, tuples, i);
      ScanDecidedAt(site, tuples[1..], counted || StepAt(site, tuples, 0).counted, i - 1);
    }
  }

  /** An object in a language other than the current one: only then is a
      translation looked for. */
  predicate Foreign<O>(lang: Option<string>, info: ObjInfo<O>) {
    lang.Some? && info.language.Some? && info.language.value != "" && info.language != lang
  }

  /** The language step: the object is kept when no language is current,
      when it has no language or the current one, and when it offers no
      translations; otherwise its first translation into the current
      language, `None` when it has none, and on the known `AttributeError`
      of `getTranslations` its canonical object (or the object itself when
      that fails too). Other errors propagate. */
  function Localize<O>(lang: Option<string>, o: O, info: ObjInfo<O>): (r: Result<Option<O>>)
    ensures Foreign(lang, info) && info.translations.TranslationsOf? && info.translations.result.Ok? ==>
              var m := info.translations.result.value;
              r == if lang.value in m && |m[lang.value]| > 0 then Ok(Some(m[lang.value][0])) else Ok(None)
    ensures Foreign(lang, info) && info.translations == TranslationsOf(Err(AttributeError)) ==>
              r == Ok(Some(if info.canonical.Ok? then info.canonical.value else o))
    ensures Foreign(lang, info) && info.translations.TranslationsOf? && info.translations.result.Err?
            && info.translations.result.error != AttributeError ==>
              r == Err(info.translations.result.error)
    ensures lang.None? || info.language.None? || info.language.value == "" || info.language == lang ==>
              r == Ok(Some(o))
    ensures info.translations.NoTranslations? ==> r == Ok(Some(o))
    ensures r.Err? ==> info.translations.TranslationsOf? && info.translations.result == Err(r.error)
                       && r.error != AttributeError
    ensures r.Ok? && r.value.Some? ==>
              || r.value.value == o
              || (info.translations.TranslationsOf? && info.translations.result.Ok?
                  && lang.Some? && lang.value in info.translations.result.value
                  && |info.translations.result.value[lang.value]| > 0
                  && r.value.value == info.translations.result.value[lang.value][0])
              || (info.canonical.Ok? && r.value.value == info.canonical.value)
    ensures r == Ok(None) <==>
              && lang.Some? && info.language.Some? && info.language.value != "" && info.language != lang
              && info.translations.TranslationsOf? && info.translations.result.Ok?
              && (lang.value !in info.translations.result.value || |info.translations.result.value[lang.value]| == 0)
  {
    if lang.None? then Ok(Some(o))
    else if info.language.None? || info.language.value == "" || info.language == lang then Ok(Some(o))
    else
      match info.translations
      case NoTranslations => Ok(Some(o))
      case TranslationsOf(Ok(m)) =>
        if lang.value in m && |m[lang.value]| > 0 then Ok(Some(m[lang.value][0])) else Ok(None)
      case TranslationsOf(Err(e)) =>
        if e == AttributeError then
          if info.canonical.Ok? then Ok(Some(info.canonical.value)) else Ok(Some(o))
        else Err(e)
  }

  /** `func(tuples)` of `get_translated` on already normalised items. */
  function Resolve<O>(site: Site<O>, lang: Option<string>, tuples: seq<(string, string)>): (r: Result<Option<O>>)
    ensures var found := Scan(site, tuples, false);
            r.Err? <==> found.Err? || (found.value.Some? && Localize(lang, found.value.value, site.describe(found.value.value)).Err?)
    ensures var found := Scan(site, tuples, false);
            r.Ok? && r.value.None? <==>
              found.Ok? && (found.value.None? || Localize(lang, found.value.value, site.describe(found.value.value)) == Ok(None))
    ensures r.Ok? && r.value.Some? ==> Scan(site, tuples, false).Ok? && Scan(site, tuples, false).value.Some?
    ensures var found := Scan(site, tuples, false);
            found.Ok? && found.value.Some? ==> r == Localize(lang, found.value.value, site.describe(found.value.value))
  {
    match Scan(site, tuples, false)
    case Err(e) => Err(e)
    case Ok(None) => Ok(None)
    case Ok(Some(o)) => Localize(lang, o, site.describe(o))
  }

  /** The memo key of a dictionary argument. */
  function KeyOf(items: seq<(string, Option<string>)>): seq<(string, string)>
    requires DistinctKeys(items)
  {
    SortedNonemptyItemTuples(items)
  }

  /** `info['my_translation'][dic]`: the proxy normalises the dictionary
      and answers a known key from its table. */
  function Translated<O>(t: Memo.Table<seq<(string, string)>, Option<O>>, site: Site<O>, lang: Option<string>,
                         items: seq<(string, Option<string>)>)
    : (out: (Result<Option<O>>, Memo.Table<seq<(string, string)>, Option<O>>))
    requires DistinctKeys(items)
    ensures KeyOf(items) !in t.entries ==> out.0 == Resolve(site, lang, KeyOf(items))
    ensures KeyOf(items) in t.entries ==> out == (Ok(t.entries[KeyOf(items)]), t)
  {
    var key := KeyOf(items);
    Memo.Fetch(t, key, Memo.Pure(() => Resolve(site, lang, key)))
  }

  /** Two dictionaries that differ only in order and `None` entries are
      one memo key: after the first has been resolved, the second is
      answered from the table. */
  lemma SameSpecifiersResolvedOnce<O>(t: Memo.Table<seq<(string, string)>, Option<O>>, site: Site<O>, lang: Option<string>,
                                      a: seq<(string, Option<string>)>, b: seq<(string, Option<string>)>)
    requires DistinctKeys(a) && DistinctKeys(b)
    requires forall k, v :: (k, Some(v)) in a <==> (k, Some(v)) in b
    requires Translated(t, site, lang, a).0.Ok?
    ensures var (r1, t1) := Translated(t, site, lang, a);
            Translated(t1, site, lang, b) == (r1, t1)
  {
    SameEntriesSameTuple(a, b);
  }

  lemma PathBeforeUid()
    ensures StringOrder.Less("path", "uid")
  {
  }

  /** A normalised entry keyed before `path` is neither `path` nor `uid`. */
  lemma BeforePathIsNeither(k: string)
    requires StringOrder.Less(k, "path")
    ensures k != "path" && k != "uid"
  {
    StringOrder.LessIrreflexive(k);
    if k == "uid" {
      PathBeforeUid();
      StringOrder.LessAsymmetric("path", "uid");
    }
  }

  /** When the path leads to an object, the uid is never consulted: the
      normalised items put `path` first among the specifiers. */
  lemma PathWins<O>(site: Site<O>, items: seq<(string, Option<string>)>, p: string, o: O)
    requires DistinctKeys(items)
    requires ("path", Some(p)) in items
    requires Specifier(site, "path", p) == Found(o)
    ensures Scan(site, KeyOf(items), false) == Ok(Some(o))
  {
    var tuples := KeyOf(items);
    assert ("path", p) in tuples;
    var i :| 0 <= i < |tuples| && tuples[i] == ("path", p);
    forall j | 0 <= j < i
      ensures StepAt(site, tuples, j).Missed?
    {
      BeforePathIsNeither(tuples[j].0);
    }
    ScanDecidedAt(site, tuples, false, i);
  }

  /** A dictionary without a usable `path` or `uid` is a configuration
      error: `ValueError`. */
  lemma NoSpecifierRaises<O>(site: Site<O>, lang: Option<string>, items: seq<(string, Option<string>)>)
    requires DistinctKeys(items)
    requires forall i :: 0 <= i < |items| && items[i].1.Some? ==>
               (items[i].0 == "path" ==> PathOf(items[i].1.value) == "")
               && (items[i].0 == "uid" ==> items[i].1.value == "")
    ensures Resolve(site, lang, KeyOf(items)) == Err(ValueError)
  {
    var tuples := KeyOf(items);
    forall j | 0 <= j < |tuples|
      ensures StepAt(site, tuples, j) == Missed(false)
    {
      assert (tuples[j].0, Some(tuples[j].1)) in items;
    }
  }

  /** A path that cannot be traversed and no uid: `None`, not an error. */
  lemma MissingPathIsNone<O>(site: Site<O>, lang: Option<string>, p: string)
    requires PathOf(p) != "" && site.traverse(PathOf(p)) == Err(KeyError)
    ensures Resolve(site, lang, [("path", p)]) == Ok(None)
  {
    assert StepAt(site, [("path", p)], 0) == Missed(true);
  }

  /** An object found by its path in the current language is returned
      as it is. */
  lemma FoundInCurrentLanguage<O>(site: Site<O>, lang: string, p: string, o: O)
    requires PathOf(p) != "" && site.traverse(PathOf(p)) == Ok(o)
    requires site.describe(o).language == Some(lang)
    ensures Resolve(site, Some(lang), [("path", p)]) == Ok(Some(o))
  {
    assert StepAt(site, [("path", p)], 0) == Found(o);
  }

  /** An object in another language that has a translation into the
      current one is replaced by that translation. */
  lemma TranslationSubstituted<O>(site: Site<O>, lang: string, p: string, o: O, other: string, m: map<string, seq<O>>)
    requires PathOf(p) != "" && site.traverse(PathOf(p)) == Ok(o)
    requires other != "" && other != lang
    requires site.describe(o).language == Some(other)
    requires site.describe(o).translations == TranslationsOf(Ok(m))
    requires lang in m && |m[lang]| > 0
    ensures Resolve(site, Some(lang), [("path", p)]) == Ok(Some(m[lang][0]))
  {
    assert StepAt(site, [("path", p)], 0) == Found(o);
  }

  /** A uid whose brain's object cannot be fetched: the error of
      `getObject()` escapes the resolver. */
  lemma UnreachableObjectRaises<O>(site: Site<O>, lang: Option<string>, uid: string, brain: Factories.Brain<O>, e: Error)
    requires uid != "" && site.search(uid) == Ok([brain]) && brain.getObject == Err(e)
    ensures Resolve(site, lang, [("uid", uid)]) == Err(e)
  {
    assert StepAt(site, [("uid", uid)], 0) == Escaped(e);
  }

  /** An empty dictionary raises `ValueError`. */
  lemma EmptyRaises<O>(site: Site<O>, lang: Option<string>)
    ensures Resolve(site, lang, KeyOf([])) == Err(ValueError)
  {
    NoSpecifierRaises(site, lang, []);
  }

  /** Any number of leading slashes is dropped from a path value. */
  lemma PathOfSlashes(rest: string, n: nat)
    requires |rest| > 0 && rest[0] != '/'
    ensures PathOf(seq(n, _ => '/') + rest) == rest
  {
    var v := seq(n, _ => '/') + rest;
    if n > 0 {
      assert StartsWith(v, "/");
      var p := LStripSlashes(v);
      assert v[n..] == rest;
      assert p == rest;
    } else {
      assert v == rest;
      assert !StartsWith(v, "/");
    }
  }

  /** Leading slashes are all dropped before the traversal: `//a/b` is
      traversed as `a/b`. */
  lemma SlashesStripped<O>(site: Site<O>, rest: string, n: nat)
    requires |rest| > 0 && rest[0] != '/'
    ensures Specifier(site, "path", seq(n, _ => '/') + rest) == Specifier(site, "path", rest)
  {
    PathOfSlashes(rest, n);
    assert !StartsWith(rest, "/");
    assert PathOf(seq(n, _ => '/') + rest) == PathOf(rest);
  }
}
