/** Small value types and text helpers shared by every component of the model. */
module Prelude {

  datatype Option<+T> = None | Some(value: T)

  datatype Result<+T, +E> = Ok(value: T) | Err(error: E)

  /** The present values of a sequence of options, in order. */
  function Values<T>(s: seq<Option<T>>): seq<T> {
    if s == [] then []
    else (if s[0].Some? then [s[0].value] else []) + Values(s[1..])
  }

  lemma {:induction false} ValuesConcat<T>(a: seq<Option<T>>, b: seq<Option<T>>)
    ensures Values(a + b) == Values(a) + Values(b)
  {
    if a == [] {
      assert a + b == b;
    } else {
      var head := if a[0].Some? then [a[0].value] else [];
      assert (a + b)[0] == a[0] && (a + b)[1..] == a[1..] + b;
      ValuesConcat(a[1..], b);
      assert Values(a + b) == head + (Values(a[1..]) + Values(b));
      assert Values(a) == head + Values(a[1..]);
    }
  }

  lemma ConcatLast<T>(a: seq<T>, b: seq<T>)
    requires b != []
    ensures a + b == (a + b[..|b| - 1]) + [b[|b| - 1]]
  {
  }

  lemma SplitLast<T>(s: seq<T>)
    requires s != []
    ensures s == s[..|s| - 1] + [s[|s| - 1]]
  {
  }

  lemma TakeNext<T>(s: seq<T>, i: nat)
    requires i < |s|
    ensures s[..i + 1] == s[..i] + [s[i]]
  {
  }

  lemma RemoveAt<T>(s: seq<T>, k: nat)
    requires k < |s|
    ensures s == (s[..k] + [s[k]]) + s[k + 1..]
    ensures multiset(s) == multiset(s[..k] + s[k + 1..]) + multiset{s[k]}
  {
    assert s == (s[..k] + [s[k]]) + s[k + 1..];
  }

  /** Where a permutation of a sequence keeps the sequence's last element. */
  lemma FindLast<T>(a: seq<T>, b: seq<T>) returns (k: nat)
    requires a != [] && multiset(a) == multiset(b)
    ensures k < |b| && b[k] == a[|a| - 1]
    ensures multiset(a[..|a| - 1]) == multiset(b[..k] + b[k + 1..])
  {
    var n := |a| - 1;
    RemoveAt(a, n);
    assert a[..n] + a[n + 1..] == a[..n];
    assert a[n] in multiset(b);
    k :| 0 <= k < |b| && b[k] == a[n];
    RemoveAt(b, k);
    CancelOne(multiset(a[..n]), multiset(b[..k] + b[k + 1..]), a[n]);
  }

  lemma CancelOne<T>(m: multiset<T>, n: multiset<T>, x: T)
    requires m + multiset{x} == n + multiset{x}
    ensures m == n
  {
    assert m == (m + multiset{x}) - multiset{x};
    assert n == (n + multiset{x}) - multiset{x};
  }

  /** Unicode White_Space, the class that string trimming removes. */
  predicate IsWhitespace(c: char) {
    || '\U{0009}' <= c <= '\U{000D}' || c == ' ' || c == '\U{0085}' || c == '\U{00A0}'
    || c == '\U{1680}' || '\U{2000}' <= c <= '\U{200A}' || c == '\U{2028}' || c == '\U{2029}'
    || c == '\U{202F}' || c == '\U{205F}' || c == '\U{3000}'
  }

  function TrimStart(s: string): string {
    if s == "" then "" else if IsWhitespace(s[0]) then TrimStart(s[1..]) else s
  }

  function TrimEnd(s: string): string {
    if s == "" then "" else if IsWhitespace(s[|s| - 1]) then TrimEnd(s[..|s| - 1]) else s
  }

  function Trim(s: string): string {
    TrimEnd(TrimStart(s))
  }

  predicate IsBlank(s: string) {
    Trim(s) == ""
  }

  /** Code-point order on identifiers. */
  predicate IdLess(a: string, b: string) {
    if b == "" then false
    else if a == "" then true
    else a[0] < b[0] || (a[0] == b[0] && IdLess(a[1..], b[1..]))
  }

  lemma {:induction false} IdsAreOrdered(a: string, b: string)
    ensures !(IdLess(a, b) && IdLess(b, a))
    ensures !IdLess(a, b) && !IdLess(b, a) ==> a == b
  {
    if a != "" && b != "" {
      IdsAreOrdered(a[1..], b[1..]);
      assert a == [a[0]] + a[1..] && b == [b[0]] + b[1..];
    }
  }

  lemma {:induction false} IdOrderIsTransitive(a: string, b: string, c: string)
    ensures !IdLess(b, a) && !IdLess(c, b) ==> !IdLess(c, a)
  {
    if a != "" && b != "" && c != "" {
      IdOrderIsTransitive(a[1..], b[1..], c[1..]);
    }
  }

  lemma {:induction false} LessThroughLess(a: string, b: string, c: string)
    requires IdLess(a, b) && IdLess(b, c)
    ensures IdLess(a, c)
  {
    hide IdLess;
    IdsAreOrdered(a, b);
    IdsAreOrdered(b, c);
    IdsAreOrdered(a, c);
    IdOrderIsTransitive(a, b, c);
  }
}
