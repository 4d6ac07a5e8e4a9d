/** The JavaScript string primitives the pages rely on: the whitespace class shared by
    `String.prototype.trim` and the regular-expression escape `\s`, trimming, and lower-casing. */
module Text {

  /** JavaScript whitespace and line terminators: the characters `trim` strips and `\s` matches. */
  predicate IsWhitespace(c: char) {
    || c == ' ' || c == '\t' || c == '\n' || c == '\r'
    || c == '\U{000B}' || c == '\U{000C}'
    || c == '\U{00A0}' || c == '\U{1680}'
    || ('\U{2000}' <= c <= '\U{200A}')
    || c == '\U{2028}' || c == '\U{2029}'
    || c == '\U{202F}' || c == '\U{205F}' || c == '\U{3000}' || c == '\U{FEFF}'
  }

  predicate AllWhitespace(s: string) {
    forall i :: 0 <= i < |s| ==> IsWhitespace(s[i])
  }

  predicate NoWhitespace(s: string) {
    forall i :: 0 <= i < |s| ==> !IsWhitespace(s[i])
  }

  /** `s` without its leading whitespace. */
  function TrimStart(s: string): (r: string)
    ensures |r| <= |s| && r == s[|s| - |r|..]
    ensures AllWhitespace(s[..|s| - |r|])
    ensures |r| > 0 ==> !IsWhitespace(r[0])
  {
    if |s| > 0 && IsWhitespace(s[0]) then TrimStart(s[1..]) else s
  }

  /** `s` without its trailing whitespace. */
  function TrimEnd(s: string): (r: string)
    ensures |r| <= |s| && r == s[..|r|]
    ensures AllWhitespace(s[|r|..])
    ensures |r| > 0 ==> !IsWhitespace(r[|r| - 1])
  {
    if |s| > 0 && IsWhitespace(s[|s| - 1]) then TrimEnd(s[..|s| - 1]) else s
  }

  /** JavaScript's `s.trim()`. */
  function Trim(s: string): string {
    TrimEnd(TrimStart(s))
  }

  /** Trimming an all-whitespace string leaves nothing. */
  lemma {:induction false} BlankTrimsToEmpty(s: string)
    requires AllWhitespace(s)
    ensures TrimStart(s) == "" && Trim(s) == ""
  {
    if |s| > 0 {
      BlankTrimsToEmpty(s[1..]);
    }
  }

  /** A string holding a non-whitespace character keeps it through trimming. */
  lemma NonBlankTrimsToNonEmpty(s: string, k: nat)
    requires k < |s| && !IsWhitespace(s[k])
    ensures Trim(s) != ""
  {
    var t := TrimStart(s);
    var m := |s| - |t|;
    assert m <= k by {
      forall i | 0 <= i < m ensures IsWhitespace(s[i]) {
        assert s[..m][i] == s[i];
      }
    }
    var e := TrimEnd(t);
    assert k - m < |e| by {
      assert t[k - m] == s[k];
      forall i | |e| <= i < |t| ensures IsWhitespace(t[i]) {
        assert t[|e|..][i - |e|] == t[i];
      }
    }
  }

  /** A string trims to nothing exactly when it is all whitespace. */
  lemma TrimEmptyIffBlank(s: string)
    ensures Trim(s) == "" <==> AllWhitespace(s)
  {
    if AllWhitespace(s) {
      BlankTrimsToEmpty(s);
    } else {
      var k :| 0 <= k < |s| && !IsWhitespace(s[k]);
      NonBlankTrimsToNonEmpty(s, k);
    }
  }

  /** Trimming twice changes nothing more than trimming once. */
  lemma TrimIdempotent(s: string)
    ensures Trim(Trim(s)) == Trim(s)
  {
    var t := Trim(s);
    if |t| > 0 {
      var u := TrimStart(s);
      assert t == u[..|t|];
      assert t[0] == u[0];
      assert TrimStart(t) == t;
      assert TrimEnd(t) == t;
    }
  }

  /** Lower-case form of an ASCII capital letter; every other character is unchanged. */
  function LowerChar(c: char): (l: char)
    ensures !('A' <= l <= 'Z')
  {
    if 'A' <= c <= 'Z' then (c as int - 'A' as int + 'a' as int) as char else c
  }

  /** JavaScript's `s.toLowerCase()`, restricted to ASCII letters. */
  function ToLower(s: string): (r: string)
    ensures |r| == |s|
    ensures forall i :: 0 <= i < |s| ==> r[i] == LowerChar(s[i])
  {
    seq(|s|, i requires 0 <= i < |s| => LowerChar(s[i]))
  }

  /** Lower-casing a lower-cased string changes nothing. */
  lemma ToLowerIdempotent(s: string)
    ensures ToLower(ToLower(s)) == ToLower(s)
  {
    var l := ToLower(s);
    var ll := ToLower(l);
    assert forall i :: 0 <= i < |l| ==> ll[i] == l[i];
  }
}
