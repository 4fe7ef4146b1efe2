/** The unique stack of `visaplan.tools.classes`, as far as `detect_group_id`
    relies on it. Its implementation is not part of this model; the assumed
    behaviour is that of a list in which `append(x)` first removes an
    existing occurrence of `x` and then pushes `x` on top, and whose
    constructor appends the given items one after the other.
 */
module UniqueStacks {

  predicate Unique<T(==)>(s: seq<T>) {
    forall i, j :: 0 <= i < j < |s| ==> s[i] != s[j]
  }

  /** `s` without any occurrence of `x`, in the original order. */
  function Remove<T(==,!new)>(s: seq<T>, x: T): (r: seq<T>)
    ensures x !in r
    ensures forall y :: y in r <==> y in s && y != x
    ensures |r| <= |s|
    ensures x !in s ==> r == s
  {
    if |s| == 0 then []
    else if s[0] == x then Remove(s[1..], x)
    else [s[0]] + Remove(s[1..], x)
  }

  /** `append(x)`: `x` ends up on top, and once only. */
  function Push<T(==,!new)>(s: seq<T>, x: T): (r: seq<T>)
    ensures |r| > 0 && r[|r| - 1] == x
    ensures forall y :: y in r <==> y in s || y == x
  {
    Remove(s, x) + [x]
  }

  /** The constructor: the given items appended in order. */
  function FromSeq<T(==,!new)>(items: seq<T>): (r: seq<T>)
    ensures |r| <= |items|
    ensures |items| > 0 ==> |r| > 0 && r[|r| - 1] == items[|items| - 1]
  {
    if |items| == 0 then [] else Push(FromSeq(items[..|items| - 1]), items[|items| - 1])
  }

  lemma {:induction false} RemoveKeepsUnique<T(!new)>(s: seq<T>, x: T)
    requires Unique(s)
    ensures Unique(Remove(s, x))
    decreases |s|
  {
    if |s| > 0 {
      assert Unique(s[1..]);
      RemoveKeepsUnique(s[1..], x);
      assert s[0] !in s[1..];
    }
  }

  /** A pushed stack never holds an item twice. */
  lemma PushKeepsUnique<T(!new)>(s: seq<T>, x: T)
    requires Unique(s)
    ensures Unique(Push(s, x))
  {
    RemoveKeepsUnique(s, x);
  }

  lemma {:induction false} FromSeqIsUnique<T(!new)>(items: seq<T>)
    ensures Unique(FromSeq(items))
    decreases |items|
  {
    if |items| > 0 {
      FromSeqIsUnique(items[..|items| - 1]);
      PushKeepsUnique(FromSeq(items[..|items| - 1]), items[|items| - 1]);
    }
  }

  /** Removing an item a unique stack holds only at its top. */
  lemma {:induction false} RemoveLast<T(!new)>(s: seq<T>)
    requires |s| > 0 && Unique(s)
    ensures Remove(s, s[|s| - 1]) == s[..|s| - 1]
    decreases |s|
  {
    if |s| > 1 {
      assert s[1..][..|s| - 2] == s[1..|s| - 1];
      RemoveLast(s[1..]);
      assert s[..|s| - 1] == [s[0]] + s[1..|s| - 1];
    }
  }

  /** Pushing changes a unique stack exactly when the item is not already
      on top. */
  lemma PushUnchangedIff<T(!new)>(s: seq<T>, x: T)
    requires Unique(s)
    ensures Push(s, x) == s <==> |s| > 0 && s[|s| - 1] == x
  {
    if |s| > 0 && s[|s| - 1] == x {
      RemoveLast(s);
    }
    if Push(s, x) == s {
      assert |s| > 0;
    }
  }

  /** Building a stack from items that are already unique keeps them as
      they are. */
  lemma {:induction false} FromUnique<T(!new)>(items: seq<T>)
    requires Unique(items)
    ensures FromSeq(items) == items
    decreases |items|
  {
    if |items| > 0 {
      var init := items[..|items| - 1];
      var x := items[|items| - 1];
      assert Unique(init);
      FromUnique(init);
      assert x !in init by {
        forall i | 0 <= i < |init|
          ensures init[i] != x
        {
          assert init[i] == items[i];
        }
      }
      calc {
        FromSeq(items);
        Push(FromSeq(init), x);
        Push(init, x);
        Remove(init, x) + [x];
        init + [x];
        items;
      }
    }
  }
}
