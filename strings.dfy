/**
 * The few functions of Go's `strings` package that the connection-string
 * code relies on, with Go's semantics: `Split` on a one-character
 * separator yields n+1 pieces for n separators (empty pieces included),
 * `Join` is its inverse, `HasPrefix` is the plain prefix test.
 *
 * Go strings are byte sequences; here they are sequences of characters.
 * The two agree for these functions because both separators, ' ' and '=',
 * are ASCII and never occur inside a multi-byte UTF-8 sequence. A Go string
 * that is not valid UTF-8 has no counterpart here.
 */
module Strings {

  /** Index of the first occurrence of `c` in `s`. */
  function IndexOf(s: string, c: char): (i: nat)
    requires c in s
    ensures i < |s| && s[i] == c && c !in s[..i]
  {
    if s[0] == c then 0
    else
      var j := IndexOf(s[1..], c);
      assert s[..j + 1] == [s[0]] + s[1..][..j];
      j + 1
  }

  /** `IndexOf` is determined by its contract: the first `c` is at `j`. */
  lemma IndexOfIs(s: string, c: char, j: nat)
    requires j < |s| && s[j] == c && c !in s[..j]
    ensures IndexOf(s, c) == j
  {
  }

  /** Go's `strings.Split(s, string(sep))`: at least one piece, and no piece holds the separator. */
  function Split(s: string, sep: char): (parts: seq<string>)
    ensures |parts| >= 1
    ensures forall k :: 0 <= k < |parts| ==> sep !in parts[k]
    decreases |s|
  {
    if sep !in s then [s]
    else
      var i := IndexOf(s, sep);
      [s[..i]] + Split(s[i + 1..], sep)
  }

  /** Go's `strings.Join(parts, string(sep))`. */
  function Join(parts: seq<string>, sep: char): string
  {
    if |parts| == 0 then ""
    else if |parts| == 1 then parts[0]
    else parts[0] + [sep] + Join(parts[1..], sep)
  }

  /**
   * The shape of a join: empty for no pieces; otherwise it starts with the
   * first piece and ends with the last, and a separator follows the first
   * piece when there are more.
   */
  lemma {:induction false} JoinShape(parts: seq<string>, sep: char)
    ensures |parts| == 0 ==> Join(parts, sep) == ""
    ensures |parts| >= 1 ==> parts[0] <= Join(parts, sep)
    ensures |parts| >= 1 ==> |parts[|parts| - 1]| <= |Join(parts, sep)|
    ensures |parts| >= 1 ==> Join(parts, sep)[|Join(parts, sep)| - |parts[|parts| - 1]|..] == parts[|parts| - 1]
    ensures |parts| >= 2 ==> |parts[0]| < |Join(parts, sep)| && Join(parts, sep)[|parts[0]|] == sep
    decreases |parts|
  {
    if |parts| >= 2 {
      var rest := parts[1..];
      JoinShape(rest, sep);
      assert rest[|rest| - 1] == parts[|parts| - 1];
      var s := Join(parts, sep);
      assert s == parts[0] + [sep] + Join(rest, sep);
      var j := Join(rest, sep);
      assert s[|s| - |j|..] == j;
    }
  }

  /** Go's `strings.HasPrefix(s, prefix)`. */
  predicate HasPrefix(s: string, prefix: string)
  {
    prefix <= s
  }

  /** Splitting at the first separator: the piece before it, then the split of the rest. */
  lemma SplitCons(p: string, sep: char, q: string)
    requires sep !in p
    ensures Split(p + [sep] + q, sep) == [p] + Split(q, sep)
  {
    var s := p + [sep] + q;
    assert s[..|p|] == p;
    IndexOfIs(s, sep, |p|);
    assert s[|p| + 1..] == q;
  }

  /** Two separators in a row give an empty piece. */
  lemma {:induction false} DoubledSeparatorGivesEmptyPiece(a: string, sep: char, b: string)
    ensures "" in Split(a + [sep, sep] + b, sep)
    decreases |a|
  {
    var s := a + [sep, sep] + b;
    if sep in a {
      var i := IndexOf(a, sep);
      assert s[..i] == a[..i];
      IndexOfIs(s, sep, i);
      var a' := a[i + 1..];
      assert s[i + 1..] == a' + [sep, sep] + b;
      DoubledSeparatorGivesEmptyPiece(a', sep, b);
    } else {
      assert s == a + [sep] + ([sep] + b);
      SplitCons(a, sep, [sep] + b);
      assert [sep] + b == [] + [sep] + b;
      SplitCons([], sep, b);
      assert Split(s, sep)[1] == "";
    }
  }

  /** Joining the pieces of a split gives back the original string. */
  lemma {:induction false} JoinSplit(s: string, sep: char)
    ensures Join(Split(s, sep), sep) == s
    decreases |s|
  {
    if sep in s {
      var i := IndexOf(s, sep);
      var rest := s[i + 1..];
      JoinSplit(rest, sep);
      assert Split(s, sep)[1..] == Split(rest, sep);
      assert s == s[..i] + [sep] + rest;
    }
  }

  /** Splitting a join of separator-free pieces gives back the pieces. */
  lemma {:induction false} SplitJoin(parts: seq<string>, sep: char)
    requires |parts| >= 1
    requires forall k :: 0 <= k < |parts| ==> sep !in parts[k]
    ensures Split(Join(parts, sep), sep) == parts
    decreases |parts|
  {
    if |parts| > 1 {
      var rest := parts[1..];
      assert forall k :: 0 <= k < |rest| ==> rest[k] == parts[k + 1];
      SplitJoin(rest, sep);
      assert Join(parts, sep) == parts[0] + [sep] + Join(rest, sep);
      SplitCons(parts[0], sep, Join(rest, sep));
      assert parts == [parts[0]] + rest;
    }
  }

  /** n separators give n + 1 pieces. */
  lemma {:induction false} SplitCount(s: string, sep: char)
    ensures |Split(s, sep)| == multiset(s)[sep] + 1
    decreases |s|
  {
    if sep in s {
      var i := IndexOf(s, sep);
      SplitCount(s[i + 1..], sep);
      assert s == s[..i] + [sep] + s[i + 1..];
      assert multiset(s) == multiset(s[..i]) + multiset{sep} + multiset(s[i + 1..]);
    } else {
      assert multiset(s)[sep] == 0;
    }
  }
}
