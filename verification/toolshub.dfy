/** `ToolsHub` of `make_hubs`: a lazy table from a name to a tool, adapter,
    view or browser of the context, resolved by a fixed dispatch.

    The Zope lookups (`getToolByName`, `getAdapter`, `restrictedTraverse`)
    are the functions of an `Env`; stored values are `Option`s because a
    browser that is not there is stored as `None`.
 */
module ToolsHub {
  import opened Outcomes
  import opened Strings
  import opened Utils
  import Memo

  /** A value of `NAMED_ADAPTERS`: `None`, a tool name, a `(tool, method)`
      pair, or a callable taking only the context. */
  datatype Entry<!C, V> =
    | AdapterEntry
    | ToolEntry(tool: string)
    | PairEntry(tool: string, methodName: string)
    | ContextOnly(make: C -> Result<Option<V>>)

  /** The resolution strategy chosen for a key. */
  datatype Strategy<!C, V> =
    | ByAdapter
    | ByTool
    | ByView
    | ByBrowser
    | ByContextOnly(make: C -> Result<Option<V>>)
    | Unsupported

  /** The environment lookups of the context. `traverse` is
      `restrictedTraverse` without a default: it raises when nothing is
      found. */
  datatype Env<!C, V> = Env(
    toolByName: (C, string) -> Result<V>,
    adapterByName: (C, string) -> Result<V>,
    traverse: (C, string) -> Result<V>)

  /** What `dict(context)` finds in the context: the items of a mapping
      (an object with `keys()`), a sequence of pairs, nothing iterable (as
      for `None`), or an iterable that `dict()` cannot use, with the error
      this raises: `ValueError` or `TypeError` for an element that is not a
      pair, or whatever the context's own iteration raises. */
  datatype Seed<V> =
    | Mapping(items: map<string, V>)
    | PairsOf(pairs: seq<(string, V)>)
    | NotIterable
    | BrokenItems(error: Error)

  /** `ToolsHub(context)`, a `dict` built from the context: the hub starts
      with the context's own items; `dict()` raises `TypeError` for a
      context that is not iterable, and the error of a broken iterable
      otherwise. */
  function Init<V>(seed: Seed<V>): (r: Result<Memo.Table<string, Option<V>>>)
    ensures r.Err? <==> seed.NotIterable? || seed.BrokenItems?
    ensures seed.NotIterable? ==> r == Err(TypeError)
    ensures seed.BrokenItems? ==> r == Err(seed.error)
    ensures r.Ok? ==> r.value.calls == []
    ensures seed.Mapping? ==>
              && r.value.entries.Keys == seed.items.Keys
              && forall k :: k in seed.items ==> r.value.entries[k] == Some(seed.items[k])
    ensures seed.PairsOf? ==>
              && (forall k :: k in r.value.entries <==> exists i :: 0 <= i < |seed.pairs| && seed.pairs[i].0 == k)
              && forall i :: 0 <= i < |seed.pairs| && (forall j :: i < j < |seed.pairs| ==> seed.pairs[j].0 != seed.pairs[i].0) ==>
                   r.value.entries[seed.pairs[i].0] == Some(seed.pairs[i].1)
  {
    match seed
    case Mapping(m) => Ok(Memo.Table(map k | k in m :: Some(m[k]), []))
    case PairsOf(ps) =>
      LastPairWins(ps);
      var d := AsDict(ps);
      Ok(Memo.Table(map k | k in d :: Some(d[k]), []))
    case NotIterable => Err(TypeError)
    case BrokenItems(e) => Err(e)
  }

  /** The abbreviations of `NAMED_ADAPTERS`: short keys for long tool
      names. */
  function Abbreviations(): map<string, string> {
    map[
      "acl" := "acl_users",
      "ctr" := "content_type_registry",
      "mr" := "mimetype_registry",
      "pa" := "portal_actions",
      "pc" := "portal_catalog",
      "pg" := "portal_groups",
      "pl" := "portal_languages",
      "pm" := "portal_membership",
      "pr" := "portal_registration",
      "pt" := "portal_types",
      "ptr" := "portal_transforms",
      "puc" := "portal_user_catalog",
      "pu" := "plone_utils",
      "pw" := "portal_workflow",
      "rc" := "reference_catalog"
    ]
  }

  /** The values of `NAMED_ADAPTERS` when the detector is built. */
  const KnownToolNames: seq<string> := [
    "acl_users", "content_type_registry", "mimetype_registry", "portal_actions",
    "portal_catalog", "portal_groups", "portal_languages", "portal_membership",
    "portal_registration", "portal_types", "portal_transforms",
    "portal_user_catalog", "plone_utils", "portal_workflow", "reference_catalog"
  ]

  lemma KnownNamesAreTableValues()
    ensures (set n | n in KnownToolNames) == Abbreviations().Values
  {
    var m := Abbreviations();
    assert m["acl"] == "acl_users" && m["ctr"] == "content_type_registry";
    assert m["mr"] == "mimetype_registry" && m["pa"] == "portal_actions";
    assert m["pc"] == "portal_catalog" && m["pg"] == "portal_groups";
    assert m["pl"] == "portal_languages" && m["pm"] == "portal_membership";
    assert m["pr"] == "portal_registration" && m["pt"] == "portal_types";
    assert m["ptr"] == "portal_transforms" && m["puc"] == "portal_user_catalog";
    assert m["pu"] == "plone_utils" && m["pw"] == "portal_workflow";
    assert m["rc"] == "reference_catalog";
  }

  /** `NAMED_ADAPTERS` without the optional-dependency additions: every
      abbreviation stands for its tool name, and nothing else is listed. */
  function NamedAdapters<C, V>(): (m: map<string, Entry<C, V>>)
    ensures m.Keys == Abbreviations().Keys
    ensures forall k :: k in m ==> m[k] == ToolEntry(Abbreviations()[k])
  {
    map k | k in Abbreviations() :: ToolEntry(Abbreviations()[k])
  }

  /** The module-level `looksLikeATool`: its known names are the tool names
      of `NAMED_ADAPTERS`, and a dash does not make a name a tool. */
  function HubDetector(): (d: ToolDetector)
    ensures d.known == Abbreviations().Values
    ensures d.noDashes
  {
    KnownNamesAreTableValues();
    MakeToolDetector(Listed(KnownToolNames),
                     Listed(["plone_", "portal_"]),
                     Listed(["_catalog", "_registry", "_tool"]),
                     true)
  }

  predicate LooksLikeAView(key: string) {
    EndsWith(key, "view") || '-' in key
  }

  /** The dispatch of `ToolsHub.__getitem__`, rules in order: the table,
      then a view-like name, then a tool-like name, else a browser. */
  function Classify<C, V>(table: map<string, Entry<C, V>>, key: string): (s: Strategy<C, V>)
    ensures key in table && table[key].AdapterEntry? ==> s.ByAdapter?
    ensures key in table && table[key].PairEntry? ==> s.Unsupported?
    ensures key in table && table[key].ContextOnly? ==> s == ByContextOnly(table[key].make)
    ensures s.ByView? <==> key !in table && LooksLikeAView(key)
    ensures s.ByTool? <==>
              (key in table && table[key].ToolEntry?)
              || (key !in table && !LooksLikeAView(key) && LooksLikeATool(HubDetector(), key) == Some(true))
    ensures s.ByBrowser? <==>
              key !in table && !LooksLikeAView(key) && LooksLikeATool(HubDetector(), key) != Some(true)
  {
    if key in table then
      match table[key]
      case AdapterEntry => ByAdapter
      case ToolEntry(_) => ByTool
      case PairEntry(_, _) => Unsupported
      case ContextOnly(f) => ByContextOnly(f)
    else if LooksLikeAView(key) then ByView
    else if LooksLikeATool(HubDetector(), key) == Some(true) then ByTool
    else ByBrowser
  }

  function Lift<V>(r: Result<V>): Result<Option<V>> {
    match r
    case Ok(v) => Ok(Some(v))
    case Err(e) => Err(e)
  }

  /** Runs the chosen strategy. Every lookup receives the context and the
      key itself; a callable table entry receives the context only. A
      browser is traversed as `@@key` with a default, so a missing one is
      `None`, never an error. */
  function Resolve<C, V>(table: map<string, Entry<C, V>>, env: Env<C, V>, context: C, key: string): (r: Result<Option<V>>)
    ensures Classify(table, key).ByAdapter? ==> r == Lift(env.adapterByName(context, key))
    ensures Classify(table, key).ByTool? ==> r == Lift(env.toolByName(context, key))
    ensures Classify(table, key).ByView? ==> r == Lift(env.traverse(context, key))
    ensures Classify(table, key).ByBrowser? ==>
              r == Ok(if env.traverse(context, "@@" + key).Ok? then Some(env.traverse(context, "@@" + key).value) else None)
    ensures Classify(table, key).ByContextOnly? ==> r == Classify(table, key).make(context)
    ensures Classify(table, key).Unsupported? ==> r == Err(ValueError)
  {
    match Classify(table, key)
    case ByAdapter => Lift(env.adapterByName(context, key))
    case ByTool => Lift(env.toolByName(context, key))
    case ByView => Lift(env.traverse(context, key))
    case ByBrowser =>
      var found := env.traverse(context, "@@" + key);
      Ok(if found.Ok? then Some(found.value) else None)
    case ByContextOnly(f) => f(context)
    case Unsupported => Err(ValueError)
  }

  /** `hub[key]`: a stored key is answered without dispatching again; a
      fresh key is resolved, and stored only when the resolution did not
      raise. */
  function Get<C, V>(t: Memo.Table<string, Option<V>>, table: map<string, Entry<C, V>>, env: Env<C, V>, context: C, key: string)
    : (out: (Result<Option<V>>, Memo.Table<string, Option<V>>))
    ensures key in t.entries ==> out == (Ok(t.entries[key]), t)
    ensures key !in t.entries ==> out.0 == Resolve(table, env, context, key) && out.1.calls == t.calls + [key]
    ensures key !in t.entries && out.0.Ok? ==> out.1.entries == t.entries[key := out.0.value]
    ensures out.0.Err? ==> out.1.entries == t.entries && key !in out.1.entries
  {
    Memo.Fetch(t, key, Memo.Pure(() => Resolve(table, env, context, key)))
  }

  /** An item of the context is answered from the hub as it is, before any
      dispatch: an item `pc` of a folder hides the catalog. */
  lemma ContextItemsComeFirst<C, V>(items: map<string, V>, table: map<string, Entry<C, V>>, env: Env<C, V>, context: C, key: string)
    requires key in items
    ensures Init(Mapping(items)).Ok?
    ensures var t := Init(Mapping(items)).value;
            Get(t, table, env, context, key) == (Ok(Some(items[key])), t)
  {
  }

  /** Every abbreviation is at most three letters long. */
  lemma AbbreviationsAreShort()
    ensures forall k :: k in Abbreviations() ==> |k| <= 3
  {
  }

  /** A name with a `view` ending that is not in the table is a view. */
  lemma ViewEndingMeansView<C, V>(table: map<string, Entry<C, V>>, key: string)
    requires key !in table && |key| >= 4 && key[|key| - 4..] == "view"
    ensures Classify(table, key).ByView?
  {
  }

  /** Every abbreviation is fetched with `getToolByName(context, key)`: the
      abbreviation itself is the name looked up, not the tool name the
      table maps it to. */
  lemma AbbreviationPassesKey<C, V>(env: Env<C, V>, context: C, key: string)
    requires key in Abbreviations()
    ensures Resolve(NamedAdapters(), env, context, key) == Lift(env.toolByName(context, key))
  {
  }

  lemma CatalogAbbreviation<C, V>(env: Env<C, V>, context: C)
    ensures Abbreviations()["pc"] == "portal_catalog"
    ensures Resolve(NamedAdapters(), env, context, "pc") == Lift(env.toolByName(context, "pc"))
  {
    AbbreviationPassesKey(env, context, "pc");
  }

  /** A missing browser is stored as `None`; the browser strategy never
      raises. */
  lemma BrowserNeverRaises<C, V>(table: map<string, Entry<C, V>>, env: Env<C, V>, context: C, key: string)
    requires Classify(table, key).ByBrowser?
    ensures Resolve(table, env, context, key).Ok?
    ensures env.traverse(context, "@@" + key).Err? ==> Resolve(table, env, context, key) == Ok(None)
  {
  }

  /** Inside the hub the detector's dash rule never decides: a name with a
      dash that is not in the table is a view. */
  lemma DashMeansView<C, V>(table: map<string, Entry<C, V>>, key: string)
    requires key !in table && '-' in key
    ensures Classify(table, key).ByView?
  {
  }

  /** A longer name that does not look like a view and starts with one of
      the detector's prefixes is fetched as a tool. */
  lemma PrefixedNameIsTool<C, V>(key: string, prefix: string)
    requires |key| > 3 && !LooksLikeAView(key)
    requires prefix in HubDetector().prefixes && StartsWith(key, prefix)
    ensures Classify(NamedAdapters<C, V>(), key).ByTool?
  {
    AbbreviationsAreShort();
  }

  /** `portal_membership` is a known tool name. */
  lemma MembershipIsTool<C, V>()
    ensures Classify(NamedAdapters<C, V>(), "portal_membership").ByTool?
  {
    var key := "portal_membership";
    assert key[..7] == "portal_";
    assert key[13] != 'v';
    PrefixedNameIsTool<C, V>(key, "portal_");
  }

  /** `plone_portal_state`, which the derived facts use as a browser view,
      is sent to the tool lookup by the `plone_` prefix. */
  lemma PortalStateIsTool<C, V>()
    ensures Classify(NamedAdapters<C, V>(), "plone_portal_state").ByTool?
  {
    var key := "plone_portal_state";
    assert key[..6] == "plone_";
    assert key[14] != 'v';
    PrefixedNameIsTool<C, V>(key, "plone_");
  }

  /** So is `plone_context_state`. */
  lemma ContextStateIsTool<C, V>()
    ensures Classify(NamedAdapters<C, V>(), "plone_context_state").ByTool?
  {
    var key := "plone_context_state";
    assert key[..6] == "plone_";
    assert key[15] != 'v';
    PrefixedNameIsTool<C, V>(key, "plone_");
  }

  /** A longer name that is neither view-like nor tool-like is a browser. */
  lemma OtherNameIsBrowser<C, V>(key: string)
    requires |key| > 3 && !LooksLikeAView(key)
    requires key !in HubDetector().known
    requires !AnyPrefix(key, HubDetector().prefixes) && !AnySuffix(key, HubDetector().suffixes)
    ensures Classify(NamedAdapters<C, V>(), key).ByBrowser?
  {
    AbbreviationsAreShort();
    assert key !in NamedAdapters<C, V>();
    assert LooksLikeATool(HubDetector(), key).None?;
  }

  /** `book`, asked for by the book detector, is a browser: a missing one
      is `None`. */
  lemma BookIsBrowser<C, V>()
    ensures Classify(NamedAdapters<C, V>(), "book").ByBrowser?
  {
    var key := "book";
    var d := HubDetector();
    assert key !in d.known by {
      forall i | 0 <= i < |KnownToolNames|
        ensures KnownToolNames[i] != key
      {
        assert |KnownToolNames[i]| > 4;
      }
    }
    assert !LooksLikeAView(key) by { assert key[0] != 'v'; }
    assert !AnyPrefix(key, d.prefixes) by {
      assert key[0] != "plone_"[0] && key[0] != "portal_"[0];
    }
    assert !AnySuffix(key, d.suffixes);
    OtherNameIsBrowser<C, V>(key);
  }
}
