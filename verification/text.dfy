/** String helpers shared by the browser controller and the server:
    JavaScript's `String.prototype.trim`, Python's `str.join` and Python's
    prefix slice `xs[:n]`. */
module Text {

  /** The characters `trim` strips. The Unicode space-separator category is
      abstracted to the characters listed here. */
  predicate IsWhitespace(c: char) {
    c == ' ' || c == '\t' || c == '\n' || c == '\r'
    || c == '\U{000B}' || c == '\U{000C}' || c == '\U{00A0}'
    || c == '\U{FEFF}' || c == '\U{2028}' || c == '\U{2029}'
  }

  predicate AllWhitespace(s: string) {
    forall i :: 0 <= i < |s| ==> IsWhitespace(s[i])
  }

  /** Neither end of `s` is whitespace (vacuously true of the empty string). */
  predicate IsTrimmed(s: string) {
    |s| == 0 || (!IsWhitespace(s[0]) && !IsWhitespace(s[|s| - 1]))
  }

  /** `s` is `core` with only whitespace before it (the first `i` characters)
      and only whitespace after it. */
  ghost predicate Surrounds(s: string, i: int, core: string) {
    && 0 <= i <= |s| - |core|
    && s[i..i + |core|] == core
    && AllWhitespace(s[..i])
    && AllWhitespace(s[i + |core|..])
  }

  /** Length of the longest all-whitespace prefix of `s`. */
  function LeadingSpace(s: string): (n: nat)
    ensures n <= |s|
    ensures forall i :: 0 <= i < n ==> IsWhitespace(s[i])
    ensures n < |s| ==> !IsWhitespace(s[n])
  {
    if |s| == 0 || !IsWhitespace(s[0]) then 0 else 1 + LeadingSpace(s[1..])
  }

  /** Length of the longest all-whitespace suffix of `s`. */
  function TrailingSpace(s: string): (n: nat)
    ensures n <= |s|
    ensures forall i :: |s| - n <= i < |s| ==> IsWhitespace(s[i])
    ensures n < |s| ==> !IsWhitespace(s[|s| - 1 - n])
  {
    if |s| == 0 || !IsWhitespace(s[|s| - 1]) then 0
    else 1 + TrailingSpace(s[..|s| - 1])
  }

  /** `s.trim()`: `s` without its leading and trailing whitespace. */
  function Trim(s: string): (r: string)
    ensures |r| <= |s|
    ensures IsTrimmed(r)
  {
    var a := LeadingSpace(s);
    var rest := s[a..];
    var b := TrailingSpace(rest);
    assert b < |rest| ==> rest[|rest| - 1 - b] == s[|s| - 1 - b];
    SliceTrimmed(s, a, |s| - b);
    s[a..|s| - b]
  }

  /** A slice whose first and last characters are not whitespace is trimmed. */
  lemma SliceTrimmed(s: string, a: nat, e: nat)
    requires a <= e <= |s|
    requires a < e ==> !IsWhitespace(s[a]) && !IsWhitespace(s[e - 1])
    ensures IsTrimmed(s[a..e])
  {
    if a < e {
      assert s[a..e][0] == s[a];
      assert s[a..e][e - a - 1] == s[e - 1];
    }
  }

  /** A slice with only whitespace before and after it is surrounded by it. */
  lemma SliceSurrounded(s: string, a: nat, e: nat)
    requires a <= e <= |s|
    requires forall k :: 0 <= k < a ==> IsWhitespace(s[k])
    requires forall k :: e <= k < |s| ==> IsWhitespace(s[k])
    ensures Surrounds(s, a, s[a..e])
  {
  }

  /** Trim removes whitespace, and only whitespace, from both ends: its result
      is a piece of the input with nothing but whitespace before and after it. */
  lemma TrimSurrounded(s: string)
    ensures exists i :: Surrounds(s, i, Trim(s))
  {
    var a := LeadingSpace(s);
    var rest := s[a..];
    var b := TrailingSpace(rest);
    assert forall k :: |s| - b <= k < |s| ==> s[k] == rest[k - a];
    SliceSurrounded(s, a, |s| - b);
    assert Trim(s) == s[a..|s| - b];
  }

  /** The leading whitespace of `p + t` is exactly `p` when `t` does not start with whitespace. */
  lemma LeadingSpaceOfPadded(p: string, t: string)
    requires AllWhitespace(p)
    requires |t| == 0 || !IsWhitespace(t[0])
    ensures LeadingSpace(p + t) == |p|
  {
    var s := p + t;
    assert forall k :: 0 <= k < |p| ==> s[k] == p[k];
    if |t| > 0 {
      assert s[|p|] == t[0];
    }
  }

  /** The trailing whitespace of `t + q` is exactly `q` when `t` does not end with whitespace. */
  lemma TrailingSpaceOfPadded(t: string, q: string)
    requires AllWhitespace(q)
    requires |t| == 0 || !IsWhitespace(t[|t| - 1])
    ensures TrailingSpace(t + q) == |q|
  {
    var s := t + q;
    assert forall k :: |t| <= k < |s| ==> s[k] == q[k - |t|];
    if |t| > 0 {
      assert s[|t| - 1] == t[|t| - 1];
    }
  }

  /** Trim is characterised by its contract: whatever whitespace surrounds a
      trimmed core, trimming returns exactly that core. */
  lemma TrimOfPadded(p: string, m: string, q: string)
    requires AllWhitespace(p) && AllWhitespace(q) && IsTrimmed(m)
    ensures Trim(p + m + q) == m
  {
    var s := p + m + q;
    if |m| == 0 {
      assert s == (p + q) + [];
      assert AllWhitespace(p + q) by {
        forall i | 0 <= i < |p + q| ensures IsWhitespace((p + q)[i]) {
          if i < |p| { assert (p + q)[i] == p[i]; } else { assert (p + q)[i] == q[i - |p|]; }
        }
      }
      LeadingSpaceOfPadded(p + q, []);
      assert s[LeadingSpace(s)..] == [];
    } else {
      assert s == p + (m + q);
      LeadingSpaceOfPadded(p, m + q);
      assert s[|p|..] == m + q;
      TrailingSpaceOfPadded(m, q);
      assert (m + q)[..|m + q| - |q|] == m;
    }
  }

  /** Trimming twice is trimming once. */
  lemma TrimIdempotent(s: string)
    ensures Trim(Trim(s)) == Trim(s)
  {
  }

  /** Only the ends are trimmed: `"  egg "` is stored as `"egg"`. */
  lemma TrimEggExample()
    ensures Trim("  egg ") == "egg"
  {
    TrimOfPadded("  ", "egg", " ");
    assert "  " + "egg" + " " == "  egg ";
  }

  /** Python's `sep.join(xs)`. */
  function Join(sep: string, xs: seq<string>): (r: string)
    ensures |xs| == 0 ==> r == ""
    ensures |xs| > 0 ==> xs[0] <= r
    decreases |xs|
  {
    if |xs| == 0 then ""
    else if |xs| == 1 then xs[0]
    else xs[0] + sep + Join(sep, xs[1..])
  }

  /** Position at which the `i`-th element starts inside `Join(sep, xs)`. */
  function Offset(sep: string, xs: seq<string>, i: nat): nat
    requires i <= |xs|
  {
    if i == 0 then 0 else |xs[0]| + |sep| + Offset(sep, xs[1..], i - 1)
  }

  /** Consecutive offsets are one element and one separator apart. */
  lemma {:induction false} OffsetStep(sep: string, xs: seq<string>, i: nat)
    requires i < |xs|
    ensures Offset(sep, xs, i + 1) == Offset(sep, xs, i) + |xs[i]| + |sep|
    decreases i
  {
    if i > 0 {
      OffsetStep(sep, xs[1..], i - 1);
    }
  }

  /** Python's prefix slice `xs[:n]`, which tolerates `n > len(xs)`. */
  function Take<T>(xs: seq<T>, n: nat): (r: seq<T>)
    ensures |r| == if |xs| <= n then |xs| else n
    ensures r == xs[..|r|]
  {
    if |xs| <= n then xs else xs[..n]
  }

  /** The joined string is as long as its elements plus one separator
      between each pair of neighbours. */
  lemma {:induction false} JoinLength(sep: string, xs: seq<string>)
    requires |xs| > 0
    ensures |Join(sep, xs)| + |sep| == Offset(sep, xs, |xs|)
    decreases |xs|
  {
    if |xs| > 1 {
      JoinLength(sep, xs[1..]);
    }
  }

  /** The `i`-th element sits, unchanged, at `Offset(sep, xs, i)` in the joined string. */
  lemma {:induction false} JoinElementAt(sep: string, xs: seq<string>, i: nat)
    requires i < |xs|
    ensures Offset(sep, xs, i) + |xs[i]| <= |Join(sep, xs)|
    ensures Join(sep, xs)[Offset(sep, xs, i)..Offset(sep, xs, i) + |xs[i]|] == xs[i]
    decreases i
  {
    if |xs| > 1 {
      var s := Join(sep, xs);
      var j := Join(sep, xs[1..]);
      assert s == xs[0] + sep + j;
      if i > 0 {
        var h := |xs[0]| + |sep|;
        var o := Offset(sep, xs[1..], i - 1);
        JoinElementAt(sep, xs[1..], i - 1);
        assert xs[1..][i - 1] == xs[i];
        assert s[h + o..h + o + |xs[i]|] == j[o..o + |xs[i]|];
      }
    }
  }

  /** Right after the `i`-th element (when it is not the last) comes exactly one separator. */
  lemma {:induction false} JoinSeparatorAt(sep: string, xs: seq<string>, i: nat)
    requires i + 1 < |xs|
    ensures Offset(sep, xs, i) + |xs[i]| + |sep| <= |Join(sep, xs)|
    ensures Join(sep, xs)[Offset(sep, xs, i) + |xs[i]|..Offset(sep, xs, i) + |xs[i]| + |sep|] == sep
    decreases i
  {
    var s := Join(sep, xs);
    var j := Join(sep, xs[1..]);
    assert s == xs[0] + sep + j;
    if i > 0 {
      var h := |xs[0]| + |sep|;
      var e := Offset(sep, xs[1..], i - 1) + |xs[i]|;
      JoinSeparatorAt(sep, xs[1..], i - 1);
      assert xs[1..][i - 1] == xs[i];
      assert s[h + e..h + e + |sep|] == j[e..e + |sep|];
    }
  }

  /** `needle` appears in `hay` starting at position `k`. */
  predicate OccursAt(needle: string, hay: string, k: int) {
    0 <= k <= |hay| - |needle| && hay[k..k + |needle|] == needle
  }

  ghost predicate Occurs(needle: string, hay: string) {
    exists k :: OccursAt(needle, hay, k)
  }

  /** Every element of the list can be found in the joined string. */
  lemma JoinContains(sep: string, xs: seq<string>, i: nat)
    requires i < |xs|
    ensures Occurs(xs[i], Join(sep, xs))
  {
    JoinElementAt(sep, xs, i);
    assert OccursAt(xs[i], Join(sep, xs), Offset(sep, xs, i));
  }

  /** Joining a list with one more element appends a separator and that element. */
  lemma {:induction false} JoinSnoc(sep: string, xs: seq<string>, x: string)
    requires |xs| > 0
    ensures Join(sep, xs + [x]) == Join(sep, xs) + sep + x
    decreases |xs|
  {
    if |xs| > 1 {
      assert (xs + [x])[1..] == xs[1..] + [x];
      JoinSnoc(sep, xs[1..], x);
    } else {
      assert (xs + [x])[1..] == [x];
    }
  }
}
