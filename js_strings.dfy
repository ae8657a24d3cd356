/**
 * The JavaScript string operations the translator relies on, stated on
 * `seq<char>`: `startsWith`, `endsWith`, `includes`, `split` followed by
 * `pop`, `toLowerCase`, and the rendering of `undefined` inside a template
 * literal or a `+=` concatenation.
 */
module JsStrings {
  import opened Wrappers

  /** `s.startsWith(p)` */
  predicate StartsWith(s: string, p: string) {
    |p| <= |s| && s[..|p|] == p
  }

  /** `s.endsWith(p)` */
  predicate EndsWith(s: string, p: string) {
    |p| <= |s| && s[|s| - |p|..] == p
  }

  /** Concatenation is associative. */
  lemma AppendAssoc(a: string, b: string, c: string)
    ensures a + b + c == a + (b + c)
  {
  }

  /** A string starts with any of its own prefixes. */
  lemma PrefixOfAppend(a: string, b: string)
    ensures StartsWith(a + b, a)
  {
  }

  /** Starting with `a + b` means starting with `a`, then `b`. */
  lemma StartsWithSplit(s: string, a: string, b: string)
    requires StartsWith(s, a + b)
    ensures StartsWith(s, a) && StartsWith(s[|a|..], b)
  {
    assert s[..|a|] == (a + b)[..|a|];
    assert s[|a|..][..|b|] == (a + b)[|a|..];
  }

  /** A common head keeps a prefix a prefix. */
  lemma StartsWithBoth(a: string, b: string, c: string)
    requires StartsWith(b, c)
    ensures StartsWith(a + b, a + c)
  {
    assert (a + b)[..|a + c|] == a + b[..|c|];
  }

  lemma StartsWithTrans(s: string, a: string, b: string)
    requires StartsWith(s, a) && StartsWith(a, b)
    ensures StartsWith(s, b)
  {
    assert s[..|b|] == a[..|b|];
  }

  /** Two candidate prefixes that differ at a common position cannot both
      start `s`. */
  lemma StartsWithExcludes(s: string, p: string, q: string, i: nat)
    requires StartsWith(s, p) && i < |p| && i < |q| && p[i] != q[i]
    ensures !StartsWith(s, q)
  {
    assert s[i] == p[i];
  }

  /** `s.includes(w)`: `w` occurs in `s` starting at some position. */
  predicate Includes(s: string, w: string)
    decreases |s|
  {
    StartsWith(s, w) || (s != [] && Includes(s[1..], w))
  }

  /** `s.startsWith(w, k)`: `w` occurs in `s` at position `k`. */
  predicate OccursAt(s: string, k: nat, w: string) {
    k <= |s| && StartsWith(s[k..], w)
  }

  /** Starting with `a + b` puts `b` at position `|a|`. */
  lemma OccursAfter(s: string, a: string, b: string)
    requires StartsWith(s, a + b)
    ensures OccursAt(s, |a|, b)
  {
    StartsWithSplit(s, a, b);
  }

  /** An occurrence of `a + b` is an occurrence of `a` followed by one of
      `b`. */
  lemma OccursAtSplit(s: string, k: nat, a: string, b: string)
    requires OccursAt(s, k, a + b)
    ensures OccursAt(s, k, a) && OccursAt(s, k + |a|, b)
  {
    StartsWithSplit(s[k..], a, b);
    assert s[k..][|a|..] == s[k + |a|..];
  }

  /** An occurrence of `a` is one of each prefix of `a`. */
  lemma OccursAtPrefix(s: string, k: nat, a: string, b: string)
    requires OccursAt(s, k, a) && StartsWith(a, b)
    ensures OccursAt(s, k, b)
  {
    StartsWithTrans(s[k..], a, b);
  }

  /** Two words that differ at a common position cannot both occur at the
      same place. */
  lemma OccursAtExcludes(s: string, k: nat, p: string, q: string, i: nat)
    requires OccursAt(s, k, p) && i < |p| && i < |q| && p[i] != q[i]
    ensures !OccursAt(s, k, q)
  {
    StartsWithExcludes(s[k..], p, q, i);
  }

  /** A string that starts with `p` still does after anything is appended. */
  lemma StartsWithExtend(s: string, p: string, t: string)
    requires StartsWith(s, p)
    ensures StartsWith(s + t, p)
  {
    assert (s + t)[..|p|] == s[..|p|];
  }

  /** A string ends with what was appended last. */
  lemma SuffixOfAppend(a: string, b: string)
    ensures EndsWith(a + b, b)
  {
    assert (a + b)[|a|..] == b;
  }

  /** `w` found at position `k` of `s` is included in `s`. */
  lemma {:induction false} IncludesAt(s: string, w: string, k: nat)
    requires OccursAt(s, k, w)
    ensures Includes(s, w)
    decreases k
  {
    if k > 0 {
      assert s[1..][k - 1..] == s[k..];
      IncludesAt(s[1..], w, k - 1);
    }
  }

  /** An occurrence of `a + b` includes `b`. */
  lemma OccursAtIncludesSecond(s: string, k: nat, a: string, b: string)
    requires OccursAt(s, k, a + b)
    ensures Includes(s, b)
  {
    OccursAtSplit(s, k, a, b);
    IncludesAt(s, b, k + |a|);
  }

  /** A string that starts with `h + a + b` holds `a + b` right after `h`,
      and includes both `a` and `b`. */
  lemma PairAfterHead(s: string, h: string, a: string, b: string)
    requires StartsWith(s, h + a + b)
    ensures OccursAt(s, |h|, a + b)
    ensures Includes(s, a) && Includes(s, b)
  {
    AppendAssoc(h, a, b);
    OccursAfter(s, h, a + b);
    OccursAtSplit(s, |h|, a, b);
    IncludesAt(s, a, |h|);
    IncludesAt(s, b, |h| + |a|);
  }

  /** In `h + (a + b)`, what follows `h` is `a + b`, so `a` occurs right
      after `h`. */
  lemma AfterHead(s: string, h: string, a: string, b: string)
    requires s == h + (a + b)
    ensures s[|h|..] == a + b
    ensures OccursAt(s, |h|, a)
  {
    assert s[|h|..] == a + b;
    PrefixOfAppend(a, b);
  }

  /** A string containing `w` contains every character of `w`. */
  lemma {:induction false} IncludesKeepsChars(s: string, w: string, c: char)
    requires Includes(s, w) && c in w
    ensures c in s
    decreases |s|
  {
    if StartsWith(s, w) {
      assert s[..|w|] == w;
    } else {
      IncludesKeepsChars(s[1..], w, c);
    }
  }

  /** `String(v)` for a value that is a string or `undefined`. */
  function Interpolate(v: Option<string>): string {
    match v
    case None => "undefined"
    case Some(s) => s
  }

  /** `v || fallback` for a value that is a string or `undefined`: an
      absent or empty string is falsy. */
  function OrElse(v: Option<string>, fallback: string): string {
    if v.Some? && v.value != "" then v.value else fallback
  }

  /** `c.toLowerCase()` restricted to ASCII letters. */
  function LowerChar(c: char): char {
    if 'A' <= c <= 'Z' then (c as int + 32) as char else c
  }

  /** `s.toLowerCase()` restricted to ASCII letters. */
  function ToLowerCase(s: string): (r: string)
    ensures |r| == |s|
  {
    seq(|s|, i requires 0 <= i < |s| => LowerChar(s[i]))
  }

  /** `s.split(sep)` for a one-character separator: the maximal runs of
      characters other than `sep`, in order, empty runs included. */
  function Split(s: string, sep: char): (parts: seq<string>)
    ensures |parts| >= 1
    ensures forall k :: 0 <= k < |parts| ==> sep !in parts[k]
  {
    if s == [] then [[]]
    else
      var init := Split(s[..|s| - 1], sep);
      var c := s[|s| - 1];
      if c == sep then init + [[]]
      else init[..|init| - 1] + [init[|init| - 1] + [c]]
  }

  /** `parts.join(sep)`, the inverse of `Split`. */
  function Join(parts: seq<string>, sep: char): string
    requires |parts| >= 1
  {
    if |parts| == 1 then parts[0]
    else Join(parts[..|parts| - 1], sep) + [sep] + parts[|parts| - 1]
  }

  /** Splitting and joining again gives back the original string. */
  lemma {:induction false} SplitJoin(s: string, sep: char)
    ensures Join(Split(s, sep), sep) == s
    decreases |s|
  {
    if s != [] {
      var init := Split(s[..|s| - 1], sep);
      var c := s[|s| - 1];
      SplitJoin(s[..|s| - 1], sep);
      assert s == s[..|s| - 1] + [c];
      if c == sep {
        assert Split(s, sep)[..|Split(s, sep)| - 1] == init;
      } else {
        var parts := Split(s, sep);
        assert parts == init[..|init| - 1] + [init[|init| - 1] + [c]];
        if |init| > 1 {
          assert parts[..|parts| - 1] == init[..|init| - 1];
        }
      }
    }
  }

  /** `s.split(sep).pop()`: the last part of the split. */
  function LastPart(s: string, sep: char): string {
    var parts := Split(s, sep);
    parts[|parts| - 1]
  }

  /** The last part of a non-empty string, from that of the string without
      its last character: a `sep` starts a new, empty part; any other
      character extends the last part. */
  lemma LastPartStep(s: string, sep: char)
    requires s != []
    ensures LastPart(s, sep) == if s[|s| - 1] == sep then [] else LastPart(s[..|s| - 1], sep) + [s[|s| - 1]]
  {
    var init := Split(s[..|s| - 1], sep);
    var parts := Split(s, sep);
    if s[|s| - 1] == sep {
      assert parts == init + [[]];
    } else {
      assert parts == init[..|init| - 1] + [init[|init| - 1] + [s[|s| - 1]]];
    }
  }

  /** `e` is what follows the last `sep` of `s`: a suffix of `s` without
      `sep`, preceded in `s` by `sep` unless it is the whole of `s`. */
  predicate IsTail(s: string, sep: char, e: string) {
    && EndsWith(s, e)
    && sep !in e
    && (|e| < |s| ==> s[|s| - |e| - 1] == sep)
  }

  /** Appending one character keeps `IsTail` for the part that
      `LastPartStep` builds. */
  lemma IsTailStep(t: string, c: char, sep: char, r: string)
    requires IsTail(t, sep, r)
    ensures IsTail(t + [c], sep, if c == sep then [] else r + [c])
  {
    var s := t + [c];
    if c != sep {
      assert s[|s| - |r| - 1..] == t[|t| - |r|..] + [c];
      if |r| + 1 < |s| {
        assert s[|s| - |r| - 2] == t[|t| - |r| - 1];
      }
    }
  }

  /** The last part is the suffix of `s` after the last `sep`, or the whole
      of `s` when `s` has no `sep`. */
  lemma {:induction false} LastPartIsTail(s: string, sep: char)
    ensures IsTail(s, sep, LastPart(s, sep))
    decreases |s|
  {
    if s != [] {
      var t := s[..|s| - 1];
      LastPartIsTail(t, sep);
      LastPartStep(s, sep);
      assert s == t + [s[|s| - 1]];
      IsTailStep(t, s[|s| - 1], sep, LastPart(t, sep));
    }
  }

  /** `IsTail` pins the last part down: any tail `e` of `s` in that sense
      is it. */
  lemma LastPartUnique(s: string, sep: char, e: string)
    requires IsTail(s, sep, e)
    ensures LastPart(s, sep) == e
  {
    LastPartIsTail(s, sep);
  }
}
