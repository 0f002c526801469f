/** What trimming text leaves, in terms of its characters. */
module Trimming {
  import opened Prelude

  /** Neither end is white space. */
  predicate CleanEnds(s: string) {
    s != "" ==> !IsWhitespace(s[0]) && !IsWhitespace(s[|s| - 1])
  }

  /** Some character is not white space. */
  predicate HasText(s: string) {
    exists i :: 0 <= i < |s| && !IsWhitespace(s[i])
  }

  lemma {:induction false} TrimStartCleans(s: string)
    ensures TrimStart(s) != "" ==> !IsWhitespace(TrimStart(s)[0])
    ensures |TrimStart(s)| <= |s| && TrimStart(s) == s[|s| - |TrimStart(s)|..]
    ensures forall i :: 0 <= i < |s| - |TrimStart(s)| ==> IsWhitespace(s[i])
  {
    hide IsWhitespace;
    if s != "" && IsWhitespace(s[0]) {
      TrimStartCleans(s[1..]);
      forall i | 0 <= i < |s| - |TrimStart(s)|
        ensures IsWhitespace(s[i])
      {
        assert i > 0 ==> s[i] == s[1..][i - 1];
      }
    }
  }

  lemma {:induction false} TrimEndCleans(s: string)
    ensures TrimEnd(s) != "" ==> !IsWhitespace(TrimEnd(s)[|TrimEnd(s)| - 1])
    ensures |TrimEnd(s)| <= |s| && TrimEnd(s) == s[..|TrimEnd(s)|]
    ensures forall i :: |TrimEnd(s)| <= i < |s| ==> IsWhitespace(s[i])
  {
    hide IsWhitespace;
    if s != "" && IsWhitespace(s[|s| - 1]) {
      TrimEndCleans(s[..|s| - 1]);
    }
  }

  /** Trimming leaves the part between the white space at both ends. */
  lemma TrimIsTheMiddle(s: string)
    ensures CleanEnds(Trim(s))
    ensures exists i, j :: 0 <= i <= j <= |s| && Trim(s) == s[i..j]
              && (forall k :: 0 <= k < i || j <= k < |s| ==> IsWhitespace(s[k]))
  {
    TrimStartCleans(s);
    TrimEndCleans(TrimStart(s));
    hide TrimStart, TrimEnd, IsWhitespace;
    var i := |s| - |TrimStart(s)|;
    var j := i + |Trim(s)|;
    assert Trim(s) == s[i..j];
    forall k | j <= k < |s|
      ensures IsWhitespace(s[k])
    {
      assert s[k] == TrimStart(s)[k - i];
    }
  }

  /** Text without white space at its ends is left as it is, and no other. */
  lemma TrimmedIffClean(s: string)
    ensures Trim(s) == s <==> CleanEnds(s)
  {
    TrimIsTheMiddle(s);
    hide IsWhitespace;
  }

  /** Nothing is left exactly of white space. */
  lemma BlankIffNoText(s: string)
    ensures IsBlank(s) <==> !HasText(s)
  {
    TrimIsTheMiddle(s);
    hide IsWhitespace, Trim;
    var i, j :| 0 <= i <= j <= |s| && Trim(s) == s[i..j]
                && (forall k :: 0 <= k < i || j <= k < |s| ==> IsWhitespace(s[k]));
    if Trim(s) != "" {
      assert s[i] == Trim(s)[0];
    }
  }
}
