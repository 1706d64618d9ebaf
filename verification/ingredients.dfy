/** The ingredient list of the page: an ordered list of names that the user
    grows with the add button, shrinks with a tag's remove button and empties
    with "clear all". */
module Ingredients {
  import opened Text

  /** No name appears twice. */
  predicate NoDuplicates(l: seq<string>) {
    forall i, j :: 0 <= i < j < |l| ==> l[i] != l[j]
  }

  /** The invariant every reachable list keeps: distinct names, none empty,
      none with whitespace at either end. */
  predicate Valid(l: seq<string>) {
    && NoDuplicates(l)
    && forall i :: 0 <= i < |l| ==> l[i] != "" && IsTrimmed(l[i])
  }

  /** `addIngredient`: trim the typed text and append it unless it is empty
      or already listed (exact, case-sensitive comparison). */
  function Add(l: seq<string>, input: string): (r: seq<string>)
    ensures |l| <= |r| <= |l| + 1
    ensures r[..|l|] == l
    ensures |r| == |l| + 1 <==> Trim(input) != "" && Trim(input) !in l
    ensures forall x :: x in r <==> x in l || (x == Trim(input) && x != "")
  {
    var name := Trim(input);
    if name != "" && name !in l then l + [name] else l
  }

  /** The remove handler's `filter`: drop every entry equal to `key`. */
  function Remove(l: seq<string>, key: string): (r: seq<string>)
    ensures |r| <= |l|
    ensures forall x :: x in r <==> x in l && x != key
    ensures key !in l ==> r == l
  {
    if |l| == 0 then []
    else if l[0] == key then Remove(l[1..], key)
    else [l[0]] + Remove(l[1..], key)
  }

  /** `clearAllIngredients`. */
  function Clear(l: seq<string>): (r: seq<string>)
    ensures |r| == 0
  {
    []
  }

  /** A successful add appends the trimmed text as the new last entry. */
  lemma AddAppends(l: seq<string>, input: string)
    requires Trim(input) != "" && Trim(input) !in l
    ensures Add(l, input) == l + [Trim(input)]
  {
  }

  /** Adding the same text twice is adding it once. */
  lemma AddIdempotent(l: seq<string>, input: string)
    ensures Add(Add(l, input), input) == Add(l, input)
  {
  }

  /** Adding the same trimmed text twice to an empty list leaves one entry. */
  lemma AddTwiceKeepsOne(input: string)
    requires Trim(input) != ""
    ensures |Add(Add([], input), input)| == 1
  {
  }

  /** Add keeps the list valid. */
  lemma AddPreservesValid(l: seq<string>, input: string)
    requires Valid(l)
    ensures Valid(Add(l, input))
  {
  }

  /** Removing an entry that was just added gives back the list before the add. */
  lemma RemoveUndoesAdd(l: seq<string>, input: string)
    requires Trim(input) !in l
    ensures Remove(Add(l, input), Trim(input)) == l
  {
    if Trim(input) != "" {
      AddAppends(l, input);
      RemoveConcat(l, [Trim(input)], Trim(input));
    }
  }

  /** Remove works element by element, so it keeps the survivors in their
      relative order. */
  lemma {:induction false} RemoveConcat(a: seq<string>, b: seq<string>, key: string)
    ensures Remove(a + b, key) == Remove(a, key) + Remove(b, key)
    decreases |a|
  {
    if |a| > 0 {
      assert (a + b)[1..] == a[1..] + b;
      RemoveConcat(a[1..], b, key);
    } else {
      assert a + b == b;
    }
  }

  /** Remove deletes every copy of `key` and keeps every other name as often
      as it occurred. */
  lemma {:induction false} RemoveCounts(l: seq<string>, key: string, x: string)
    ensures multiset(Remove(l, key))[x] == if x == key then 0 else multiset(l)[x]
    decreases |l|
  {
    if |l| > 0 {
      assert l == [l[0]] + l[1..];
      RemoveCounts(l[1..], key, x);
    }
  }

  /** In a list without duplicates, an entry occurs neither before nor after
      its own position. */
  lemma OnlyAtPosition(l: seq<string>, i: nat)
    requires NoDuplicates(l) && i < |l|
    ensures l[i] !in l[..i] && l[i] !in l[i + 1..]
  {
    var before := l[..i];
    var after := l[i + 1..];
    forall k | 0 <= k < |before| ensures before[k] != l[i] {
      assert before[k] == l[k];
    }
    forall k | 0 <= k < |after| ensures after[k] != l[i] {
      assert after[k] == l[i + 1 + k];
    }
  }

  /** On a valid list, removing a listed name deletes exactly its one position. */
  lemma RemoveAtPosition(l: seq<string>, i: nat)
    requires Valid(l) && i < |l|
    ensures Remove(l, l[i]) == l[..i] + l[i + 1..]
  {
    var key := l[i];
    var before := l[..i];
    var after := l[i + 1..];
    OnlyAtPosition(l, i);
    assert l == before + [key] + after;
    assert Remove([key], key) == [] by {
      assert [key][1..] == [];
    }
    RemoveConcat(before + [key], after, key);
    RemoveConcat(before, [key], key);
    assert Remove(before, key) == before;
    assert Remove(after, key) == after;
  }

  /** Removing twice is removing once. */
  lemma RemoveIdempotent(l: seq<string>, key: string)
    ensures Remove(Remove(l, key), key) == Remove(l, key)
  {
  }

  /** Remove keeps the list valid. */
  lemma {:induction false} RemovePreservesValid(l: seq<string>, key: string)
    requires Valid(l)
    ensures Valid(Remove(l, key))
    decreases |l|
  {
    if |l| > 0 {
      var tail := l[1..];
      assert Valid(tail) by {
        forall i, j | 0 <= i < j < |tail| ensures tail[i] != tail[j] {
          assert tail[i] == l[i + 1] && tail[j] == l[j + 1];
        }
      }
      RemovePreservesValid(tail, key);
      var rest := Remove(tail, key);
      assert l[0] !in tail by {
        forall k | 0 <= k < |tail| ensures tail[k] != l[0] { assert tail[k] == l[k + 1]; }
      }
      if l[0] != key {
        var r := [l[0]] + rest;
        forall i, j | 0 <= i < j < |r| ensures r[i] != r[j] {
          if i == 0 {
            assert r[j] == rest[j - 1] && rest[j - 1] in rest;
          } else {
            assert r[i] == rest[i - 1] && r[j] == rest[j - 1];
          }
        }
        forall i | 0 <= i < |r| ensures r[i] != "" && IsTrimmed(r[i]) {
          if i > 0 {
            assert r[i] == rest[i - 1];
          }
        }
      }
    }
  }

  /** Clear yields a valid (empty) list, and clearing twice is clearing once. */
  lemma ClearIdempotentAndValid(l: seq<string>)
    ensures Clear(Clear(l)) == Clear(l)
    ensures Valid(Clear(l))
  {
  }
}
