/** The few pieces of JavaScript semantics the scheduler's code leans on:
    optional values (`undefined`/`null`), results of calls that may throw,
    truthiness of strings, and the String and Array methods it calls.
    Strings are `seq<char>`, sequences of Unicode code points. */
module Js {

  /** A value that may be `undefined` or `null`. */
  datatype Option<+T> = None | Some(value: T)

  /** The outcome of a call that either returns or throws. */
  datatype Result<+T, +E> = Success(value: T) | Failure(error: E)

  /** `o || fallback` for an optional string: a string is truthy exactly when it is non-empty. */
  function OrElse(o: Option<string>, fallback: string): (r: string)
    ensures o.Some? && o.value != "" ==> r == o.value
    ensures (o.None? || o.value == "") ==> r == fallback
  {
    if o.Some? && o.value != "" then o.value else fallback
  }

  /** `s.startsWith(prefix)`: `s` is at least as long as `prefix` and agrees with it
      character by character. */
  function StartsWith(s: string, prefix: string): (b: bool)
    ensures b <==> |prefix| <= |s| && forall i :: 0 <= i < |prefix| ==> s[i] == prefix[i]
  {
    |prefix| <= |s| && s[..|prefix|] == prefix
  }

  /** `sub` occurs in `s` starting at index `i`. */
  predicate OccursAt(s: string, sub: string, i: int) {
    0 <= i && i + |sub| <= |s| && s[i..i + |sub|] == sub
  }

  /** `s.includes(sub)`: true exactly when `sub` occurs somewhere in `s`. */
  function Includes(s: string, sub: string): (b: bool)
    ensures b <==> exists i :: OccursAt(s, sub, i)
    decreases |s|
  {
    if StartsWith(s, sub) then
      assert OccursAt(s, sub, 0);
      true
    else if |s| == 0 then
      assert forall i :: OccursAt(s, sub, i) ==> i == 0;
      false
    else
      var rest := Includes(s[1..], sub);
      assert forall i :: OccursAt(s[1..], sub, i) <==> OccursAt(s, sub, i + 1);
      assert forall i :: OccursAt(s, sub, i) && i > 0 ==> OccursAt(s[1..], sub, i - 1);
      rest
  }

  /** The characters `String.prototype.trim` removes: white space and line terminators. */
  predicate IsWhitespace(c: char) {
    || c == ' ' || c == '\t' || c == '\n' || c == '\r' || c == '\U{000B}' || c == '\U{000C}'
    || c == '\U{00A0}' || c == '\U{1680}' || ('\U{2000}' <= c <= '\U{200A}')
    || c == '\U{2028}' || c == '\U{2029}' || c == '\U{202F}' || c == '\U{205F}'
    || c == '\U{3000}' || c == '\U{FEFF}'
  }

  /** Every character of `s` is white space (vacuously so for the empty string). */
  predicate AllWhitespace(s: string) {
    forall i :: 0 <= i < |s| ==> IsWhitespace(s[i])
  }

  /** `!s.trim()`: the trimmed string is empty, which happens exactly when `s` holds white
      space only (or nothing). */
  function IsBlank(s: string): (b: bool)
    ensures b <==> AllWhitespace(s)
  {
    Trim(s) == []
  }

  /** `s.trim()`: `s` without its leading and trailing white space. What is removed in front
      and behind is white space only, and the result starts and ends with a non-space. */
  function Trim(s: string): (r: string)
    ensures r == [] <==> AllWhitespace(s)
    ensures r != [] ==> !IsWhitespace(r[0]) && !IsWhitespace(r[|r| - 1])
    ensures exists i :: OccursAt(s, r, i) && AllWhitespace(s[..i]) && AllWhitespace(s[i + |r|..])
  {
    var t := TrimStart(s);
    var u := TrimEnd(t.1);
    TrimmedPieces(s, t.0, t.1, u);
    u
  }

  /** Cutting leading white space off `s` at `i` and then trailing white space off the rest
      leaves a piece `u` of `s` that is empty exactly when `s` was all white space. */
  lemma TrimmedPieces(s: string, i: nat, rest: string, u: string)
    requires i <= |s| && rest == s[i..] && AllWhitespace(s[..i])
    requires rest != [] ==> !IsWhitespace(rest[0])
    requires |u| <= |rest| && u == rest[..|u|] && AllWhitespace(rest[|u|..])
    requires u != [] ==> !IsWhitespace(u[|u| - 1])
    ensures u == [] <==> AllWhitespace(s)
    ensures u != [] ==> !IsWhitespace(u[0]) && !IsWhitespace(u[|u| - 1])
    ensures exists j :: OccursAt(s, u, j) && AllWhitespace(s[..j]) && AllWhitespace(s[j + |u|..])
  {
    assert s[i..i + |u|] == u;
    assert s[i + |u|..] == rest[|u|..];
    if u == [] {
      // `rest` is all white space yet cannot start with any, so nothing follows `i`.
      assert rest[|u|..] == rest;
      assert s == s[..i];
    } else {
      assert u[0] == rest[0] == s[i];
    }
    assert OccursAt(s, u, i);
  }

  /** The number of leading white-space characters of `s`, and the rest. */
  function TrimStart(s: string): (r: (nat, string))
    ensures r.0 <= |s| && r.1 == s[r.0..]
    ensures AllWhitespace(s[..r.0])
    ensures r.1 != [] ==> !IsWhitespace(r.1[0])
  {
    if s == [] || !IsWhitespace(s[0]) then (0, s)
    else
      var t := TrimStart(s[1..]);
      assert s[1..][..t.0] == s[1..t.0 + 1];
      (t.0 + 1, t.1)
  }

  /** `s` without its trailing white space. */
  function TrimEnd(s: string): (r: string)
    ensures |r| <= |s| && r == s[..|r|]
    ensures AllWhitespace(s[|r|..])
    ensures r != [] ==> !IsWhitespace(r[|r| - 1])
  {
    if s == [] || !IsWhitespace(s[|s| - 1]) then s
    else
      var r := TrimEnd(s[..|s| - 1]);
      assert s[..|s| - 1][|r|..] == s[|r|..|s| - 1];
      r
  }

  /** `c.toLowerCase()` for one code unit, on the Basic Latin letters. */
  function LowerChar(c: char): char {
    if 'A' <= c <= 'Z' then (c as int + 32) as char else c
  }

  /** `s.toLowerCase()`, restricted to the Basic Latin letters. */
  function ToLower(s: string): (r: string)
    ensures |r| == |s|
    ensures forall i :: 0 <= i < |s| ==> r[i] == LowerChar(s[i])
  {
    seq(|s|, i requires 0 <= i < |s| => LowerChar(s[i]))
  }

  /** Lower-casing works character by character, so it distributes over concatenation. */
  lemma ToLowerAppend(a: string, b: string)
    ensures ToLower(a + b) == ToLower(a) + ToLower(b)
  {
    var whole, parts := ToLower(a + b), ToLower(a) + ToLower(b);
    forall i | 0 <= i < |whole|
      ensures whole[i] == parts[i]
    {
      if i < |a| {
        assert (a + b)[i] == a[i];
      } else {
        assert (a + b)[i] == b[i - |a|];
      }
    }
  }

  /** `xs.filter(p)`: the elements of `xs` that satisfy `p`, in their order. */
  function Filter<T(!new)>(p: T -> bool, xs: seq<T>): (r: seq<T>)
    ensures |r| <= |xs|
    ensures forall x :: x in r <==> x in xs && p(x)
  {
    if xs == [] then []
    else
      var rest := Filter(p, xs[1..]);
      assert forall x :: x in xs <==> x == xs[0] || x in xs[1..];
      (if p(xs[0]) then [xs[0]] else []) + rest
  }

  /** Filtering keeps the order of the input: it distributes over concatenation. */
  lemma {:induction false} FilterAppend<T(!new)>(p: T -> bool, xs: seq<T>, ys: seq<T>)
    ensures Filter(p, xs + ys) == Filter(p, xs) + Filter(p, ys)
  {
    if xs == [] {
      assert xs + ys == ys;
    } else {
      assert (xs + ys)[1..] == xs[1..] + ys;
      FilterAppend(p, xs[1..], ys);
    }
  }
}
