/**
 * The few JavaScript built-ins the modelled code relies on, with the semantics
 * JavaScript gives them: `String.prototype.split` with a one-character
 * separator, `startsWith`, `slice`, `replace` with a string pattern, indexing
 * past the end (which yields `undefined`) and the truthiness of optional strings.
 * `Option` stands for a value that may be `undefined` or `null`.
 */
module JsBuiltins {

  datatype Option<+T> = None | Some(value: T) {
    /** `x ?? default` */
    function GetOr(default: T): T {
      if Some? then value else default
    }
  }

  /** An optional string is truthy when it is present and not empty. */
  predicate Truthy(s: Option<string>) {
    s.Some? && s.value != ""
  }

  /** `s.startsWith(prefix)` */
  predicate StartsWith(s: string, prefix: string) {
    |prefix| <= |s| && s[..|prefix|] == prefix
  }

  /** `s.slice(n)` for a non-negative `n`: empty when `n` is past the end. */
  function SliceFrom(s: string, n: nat): (r: string)
    ensures |r| == if n <= |s| then |s| - n else 0
  {
    if n <= |s| then s[n..] else ""
  }

  /** `s.slice(0, n)` for a non-negative `n`: the first `n` characters, or all of `s`. */
  function SliceTo(s: string, n: nat): (r: string)
    ensures |r| == if n <= |s| then n else |s|
  {
    if n <= |s| then s[..n] else s
  }

  /** `s[i]`, which is `undefined` past the end. */
  function CharAt(s: string, i: nat): Option<char> {
    if i < |s| then Some(s[i]) else None
  }

  /** `s.replace(pattern, replacement)` with a string pattern: only the first occurrence is replaced. */
  function ReplaceFirst(s: string, pattern: string, replacement: string): string
    decreases |s|
  {
    if StartsWith(s, pattern) then replacement + s[|pattern|..]
    else if s == [] then s
    else [s[0]] + ReplaceFirst(s[1..], pattern, replacement)
  }

  /**
   * `s.split(sep)` for a one-character separator. The empty string splits into
   * one empty piece, and a trailing separator yields a trailing empty piece.
   */
  function Split(s: string, sep: char): (r: seq<string>)
    ensures |r| >= 1
    decreases |s|
  {
    if s == [] then [""]
    else
      var init := Split(s[..|s| - 1], sep);
      if s[|s| - 1] == sep then init + [""]
      else init[..|init| - 1] + [init[|init| - 1] + [s[|s| - 1]]]
  }

  /** `pieces.join(sep)` */
  function Join(pieces: seq<string>, sep: char): string
    decreases |pieces|
  {
    if pieces == [] then ""
    else if |pieces| == 1 then pieces[0]
    else Join(pieces[..|pieces| - 1], sep) + [sep] + pieces[|pieces| - 1]
  }

  /** `s.filter(keep)`: the elements `keep` accepts, in their order. */
  function Filter<T(!new)>(s: seq<T>, keep: T -> bool): (r: seq<T>)
    ensures forall x :: x in r <==> x in s && keep(x)
    ensures |r| <= |s|
    decreases |s|
  {
    if s == [] then []
    else if keep(s[0]) then [s[0]] + Filter(s[1..], keep)
    else Filter(s[1..], keep)
  }

  /** Filtering one element keeps it exactly when `keep` accepts it. */
  lemma FilterSingle<T(!new)>(x: T, keep: T -> bool)
    ensures Filter([x], keep) == if keep(x) then [x] else []
  {
    assert [x][1..] == [];
  }

  /**
   * Filtering distributes over concatenation. With `FilterSingle` this pins
   * the result down completely: the kept elements, in their order and with
   * their repetitions.
   */
  lemma {:induction false} FilterAppend<T(!new)>(a: seq<T>, b: seq<T>, keep: T -> bool)
    ensures Filter(a + b, keep) == Filter(a, keep) + Filter(b, keep)
    decreases |a|
  {
    if a == [] {
      assert a + b == b;
    } else {
      assert (a + b)[1..] == a[1..] + b;
      FilterAppend(a[1..], b, keep);
    }
  }

  /** A filter that rejects nothing leaves the sequence as it was. */
  lemma {:induction false} FilterKeepsAll<T(!new)>(s: seq<T>, keep: T -> bool)
    requires forall k :: 0 <= k < |s| ==> keep(s[k])
    ensures Filter(s, keep) == s
    decreases |s|
  {
    if s != [] {
      FilterKeepsAll(s[1..], keep);
      assert [s[0]] + s[1..] == s;
    }
  }

  /** A filter that rejects everything gives the empty sequence. */
  lemma {:induction false} FilterDropsAll<T(!new)>(s: seq<T>, keep: T -> bool)
    requires forall k :: 0 <= k < |s| ==> !keep(s[k])
    ensures Filter(s, keep) == []
    decreases |s|
  {
    if s != [] {
      FilterDropsAll(s[1..], keep);
    }
  }

  /** The elements before the first rejected one stay in front, in place. */
  lemma {:induction false} FilterPrefix<T(!new)>(s: seq<T>, keep: T -> bool, n: nat)
    requires n <= |s| && forall k :: 0 <= k < n ==> keep(s[k])
    ensures |Filter(s, keep)| >= n
    ensures forall k :: 0 <= k < n ==> Filter(s, keep)[k] == s[k]
    decreases n
  {
    if n > 0 {
      var tail := s[1..];
      assert forall k :: 0 <= k < n - 1 ==> keep(tail[k]) by {
        forall k | 0 <= k < n - 1 ensures keep(tail[k]) {
          assert tail[k] == s[k + 1];
        }
      }
      FilterPrefix(tail, keep, n - 1);
      var rest := Filter(tail, keep);
      assert Filter(s, keep) == [s[0]] + rest;
      forall k | 0 <= k < n ensures Filter(s, keep)[k] == s[k] {
        if k > 0 {
          assert rest[k - 1] == tail[k - 1];
        }
      }
    }
  }

  /** The first element kept is the first element `keep` accepts. */
  lemma {:induction false} FilterFirst<T(!new)>(s: seq<T>, keep: T -> bool, i: nat)
    requires i < |s| && keep(s[i]) && forall k :: 0 <= k < i ==> !keep(s[k])
    ensures Filter(s, keep) != [] && Filter(s, keep)[0] == s[i]
    decreases i
  {
    if i > 0 {
      FilterFirst(s[1..], keep, i - 1);
    }
  }

  /** `s.findIndex(p)`: the index of the first element `p` accepts, or -1. */
  function FindIndex<T>(s: seq<T>, p: T -> bool): (i: int)
    ensures -1 <= i < |s|
    ensures i >= 0 ==> p(s[i]) && forall k :: 0 <= k < i ==> !p(s[k])
    ensures i == -1 <==> forall k :: 0 <= k < |s| ==> !p(s[k])
    decreases |s|
  {
    if s == [] then -1
    else if p(s[0]) then 0
    else
      var i := FindIndex(s[1..], p);
      if i == -1 then -1 else i + 1
  }
}
