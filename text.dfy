/** `strings.TrimSpace` and the blank-string test built on it. */
module Text {

  /** `unicode.IsSpace`: the Latin-1 spaces and the other White_Space code points. */
  predicate IsSpace(c: char)
  {
    || c == '\t' || c == '\n' || c == '\U{000B}' || c == '\U{000C}' || c == '\r' || c == ' '
    || c == '\U{0085}' || c == '\U{00A0}' || c == '\U{1680}'
    || ('\U{2000}' <= c <= '\U{200A}')
    || c == '\U{2028}' || c == '\U{2029}' || c == '\U{202F}' || c == '\U{205F}' || c == '\U{3000}'
  }

  predicate AllSpace(s: string)
  {
    forall i | 0 <= i < |s| :: IsSpace(s[i])
  }

  function TrimLeftSpace(s: string): (r: string)
    ensures |r| <= |s|
  {
    if |s| > 0 && IsSpace(s[0]) then TrimLeftSpace(s[1..]) else s
  }

  function TrimRightSpace(s: string): (r: string)
    ensures |r| <= |s|
  {
    if |s| > 0 && IsSpace(s[|s| - 1]) then TrimRightSpace(s[..|s| - 1]) else s
  }

  /** `strings.TrimSpace`: drop leading and trailing white space. */
  function TrimSpace(s: string): string
  {
    TrimRightSpace(TrimLeftSpace(s))
  }

  /** `strings.TrimSpace(s) == ""`, the test the validators use for a missing name. */
  predicate IsBlank(s: string)
  {
    TrimSpace(s) == ""
  }

  lemma {:induction false} TrimLeftEmpty(s: string)
    ensures TrimLeftSpace(s) == [] <==> AllSpace(s)
  {
    if |s| > 0 {
      TrimLeftEmpty(s[1..]);
      if !IsSpace(s[0]) {
        assert TrimLeftSpace(s) == s;
      }
    }
  }

  lemma {:induction false} TrimLeftKeepsNonSpaceHead(s: string)
    requires TrimLeftSpace(s) != []
    ensures !IsSpace(TrimLeftSpace(s)[0])
  {
    if |s| > 0 && IsSpace(s[0]) {
      TrimLeftKeepsNonSpaceHead(s[1..]);
    }
  }

  lemma {:induction false} TrimRightOfNonSpaceHead(s: string)
    requires |s| > 0 && !IsSpace(s[0])
    ensures TrimRightSpace(s) != []
  {
    if IsSpace(s[|s| - 1]) {
      TrimRightOfNonSpaceHead(s[..|s| - 1]);
    }
  }

  /** A string is blank exactly when every character of it is white space (the empty string included). */
  lemma BlankIffAllSpace(s: string)
    ensures IsBlank(s) <==> AllSpace(s)
  {
    TrimLeftEmpty(s);
    var l := TrimLeftSpace(s);
    if l == [] {
      assert TrimSpace(s) == [];
    } else {
      TrimLeftKeepsNonSpaceHead(s);
      TrimRightOfNonSpaceHead(l);
    }
  }
}
