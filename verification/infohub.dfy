/** `InfoHub` of `make_hubs`: a lazy table from a name to a derived fact,
    computed by the zero-argument factory registered for the name in
    `FUNCMAP`. The table starts with the context under `context`.

    A factory is modelled as a computation over the current entries, since
    it may read (and thereby resolve) other names of the hub while it runs.
 */
module InfoHub {
  import opened Outcomes
  import opened Utils
  import Memo

  type Factory<!V> = Memo.Compute<string, V>

  /** `info = InfoHub(); info['context'] = context`. */
  function Init<V>(context: V): (t: Memo.Table<string, V>)
    ensures t.entries == map["context" := context] && t.calls == []
  {
    Memo.Table(map["context" := context], [])
  }

  /** `info[key]`: a stored key is answered without running a factory; a
      key without factory raises `KeyError` and stores nothing; otherwise the
      factory runs once and its value is stored after it returned. */
  function Get<V>(t: Memo.Table<string, V>, funcmap: map<string, Factory<V>>, key: string)
    : (out: (Result<V>, Memo.Table<string, V>))
    ensures key in t.entries ==> out == (Ok(t.entries[key]), t)
    ensures key !in t.entries && key !in funcmap ==> out == (Err(KeyError), t)
    ensures key !in t.entries && key in funcmap ==>
              && out.1.calls == t.calls + [key]
              && out.0 == funcmap[key](t.entries).0
              && (out.0.Ok? ==> out.1.entries == funcmap[key](t.entries).1[key := out.0.value])
              && (out.0.Err? ==> out.1.entries == funcmap[key](t.entries).1)
  {
    if key in t.entries then (Ok(t.entries[key]), t)
    else if key !in funcmap then (Err(KeyError), t)
    else Memo.Fetch(t, key, funcmap[key])
  }

  /** `m2` keeps every entry of `m1` unchanged. */
  ghost predicate Extends<V>(m1: map<string, V>, m2: map<string, V>) {
    forall k :: k in m1 ==> k in m2 && m2[k] == m1[k]
  }

  /** Once a name is resolved its value never changes, as long as the
      factory that runs only adds entries. */
  lemma EntriesNeverChange<V>(t: Memo.Table<string, V>, funcmap: map<string, Factory<V>>, key: string)
    requires key in funcmap ==> Extends(t.entries, funcmap[key](t.entries).1)
    ensures Extends(t.entries, Get(t, funcmap, key).1.entries)
  {
  }

  /** A raising factory leaves its name unresolved (unless it resolved the
      name itself, through another name), so the next access runs it again. */
  lemma FailureLeavesKeyUnresolved<V>(t: Memo.Table<string, V>, funcmap: map<string, Factory<V>>, key: string)
    requires key !in t.entries && key in funcmap
    requires funcmap[key](t.entries).0.Err?
    requires key !in funcmap[key](t.entries).1
    ensures key !in Get(t, funcmap, key).1.entries
    ensures Get(Get(t, funcmap, key).1, funcmap, key).1.calls == t.calls + [key, key]
  {
  }

  /** The pre-seeded context is answered from the table, whatever the
      registry holds. */
  lemma ContextIsSeeded<V>(context: V, funcmap: map<string, Factory<V>>)
    ensures Get(Init(context), funcmap, "context") == (Ok(context), Init(context))
  {
  }

  /** A value of the example registry below. */
  datatype Fact = Flag(flag: bool) | Number(number: int)

  /** Part of `FUNCMAP`: the entries served by the constant helpers. */
  function ConstantFactories(): map<string, Factory<Fact>> {
    map[
      "skip_desktop_crumbs" := Memo.Pure(() => Ok(Flag(FalseByDefault()))),
      "image-size-steps" := Memo.Pure(() => Ok(Number(Gimme0()))),
      "image-print-factor" := Memo.Pure(() => Ok(Number(Gimme1()))),
      "print_px_factor" := Memo.Pure(() => Ok(Number(Gimme1())))
    ]
  }

  /** Asking twice runs the factory once; an unregistered name raises
      `KeyError` and leaves the table as it was. */
  lemma ConstantFactoriesResolveOnce(context: Fact)
    ensures var (r1, t1) := Get(Init(context), ConstantFactories(), "image-print-factor");
            var (r2, t2) := Get(t1, ConstantFactories(), "image-print-factor");
            && r1 == Ok(Number(1)) && r2 == r1
            && t2 == t1 && t1.calls == ["image-print-factor"]
    ensures Get(Init(context), ConstantFactories(), "no_such_fact") == (Err(KeyError), Init(context))
  {
    var fm := ConstantFactories();
    assert "image-print-factor" in fm;
    assert "no_such_fact" !in fm;
  }
}
