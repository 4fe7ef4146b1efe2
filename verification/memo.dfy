/** The lazy memo table shared by both hubs and by the callable proxy.

    A `Table` holds the resolved entries and a log of every key whose
    computation was started. Both hubs answer a stored key from the table
    and otherwise run their computation; the value is stored only after the
    computation returned, so a raising computation leaves its key
    unresolved and the next access runs it again.

    A computation receives the current entries and hands back the entries
    it leaves behind, because an InfoHub factory may resolve other keys of
    the same hub while it runs.
 */
module Memo {
  import opened Outcomes

  datatype Table<K, V> = Table(entries: map<K, V>, calls: seq<K>)

  /** Resolving one key: its result and the entries afterwards. */
  type Compute<!K, !V> = map<K, V> -> (Result<V>, map<K, V>)

  function Empty<K, V>(): Table<K, V> {
    Table(map[], [])
  }

  /** `hub[key]`: the stored value, or the value of a fresh computation,
      stored under `key` once the computation has returned normally. */
  function Fetch<K, V>(t: Table<K, V>, key: K, compute: Compute<K, V>): (out: (Result<V>, Table<K, V>))
    ensures key in t.entries ==> out == (Ok(t.entries[key]), t)
    ensures key !in t.entries ==> out.1.calls == t.calls + [key]
    ensures key !in t.entries && out.0.Ok? ==>
              out.1.entries == compute(t.entries).1[key := out.0.value]
              && out.0 == compute(t.entries).0
    ensures key !in t.entries && out.0.Err? ==>
              out.1.entries == compute(t.entries).1 && out.0 == compute(t.entries).0
  {
    if key in t.entries then (Ok(t.entries[key]), t)
    else
      var (r, m) := compute(t.entries);
      match r
      case Ok(v) => (Ok(v), Table(m[key := v], t.calls + [key]))
      case Err(e) => (Err(e), Table(m, t.calls + [key]))
  }

  /** A computation that only reads the table and calls `f`. */
  function Pure<K, V>(f: () -> Result<V>): Compute<K, V> {
    m => (f(), m)
  }

  /** After a successful fetch the key is answered from the table: the same
      value again, and no further computation. */
  lemma FetchAgain<K, V>(t: Table<K, V>, key: K, compute: Compute<K, V>, later: Compute<K, V>)
    requires Fetch(t, key, compute).0.Ok?
    ensures var (r, t') := Fetch(t, key, compute);
            Fetch(t', key, later) == (r, t')
  {
  }

  /** A failed pure computation stores nothing, so the next access computes
      again. */
  lemma FailureRetried<K, V>(t: Table<K, V>, key: K, f: () -> Result<V>, g: () -> Result<V>)
    requires key !in t.entries
    requires f().Err?
    ensures var (_, t') := Fetch(t, key, Pure(f));
            t'.entries == t.entries
            && Fetch(t', key, Pure(g)).1.calls == t.calls + [key, key]
            && Fetch(t', key, Pure(g)).0 == g()
  {
  }

  /** Fetches of a list of keys, each with its own pure computation. */
  function FetchAll<K, V>(t: Table<K, V>, keys: seq<K>, f: K -> Result<V>): (out: Table<K, V>)
    decreases |keys|
  {
    if |keys| == 0 then t
    else FetchAll(Fetch(t, keys[0], Pure(() => f(keys[0]))).1, keys[1..], f)
  }

  predicate NoDuplicates<K(==)>(s: seq<K>) {
    forall i, j :: 0 <= i < j < |s| ==> s[i] != s[j]
  }

  /** The table bookkeeping of a hub whose entries were all produced by the
      fetches in its log. */
  predicate Consistent<K(==), V>(t: Table<K, V>) {
    && NoDuplicates(t.calls)
    && forall i :: 0 <= i < |t.calls| ==> t.calls[i] in t.entries
  }

  /** Whatever the order and repetition of accesses, a computation that
      never fails runs at most once per key, and every key it ran for stays
      resolved. */
  lemma {:induction false} AtMostOncePerKey<K, V>(t: Table<K, V>, keys: seq<K>, f: K -> Result<V>)
    requires Consistent(t)
    requires forall i :: 0 <= i < |keys| ==> f(keys[i]).Ok?
    ensures Consistent(FetchAll(t, keys, f))
    ensures t.entries.Keys <= FetchAll(t, keys, f).entries.Keys
    decreases |keys|
  {
    if |keys| > 0 {
      var key := keys[0];
      var t1 := Fetch(t, key, Pure(() => f(key))).1;
      if key !in t.entries {
        forall i | 0 <= i < |t.calls|
          ensures t.calls[i] != key
        {
        }
      }
      assert Consistent(t1);
      AtMostOncePerKey(t1, keys[1..], f);
    }
  }
}
