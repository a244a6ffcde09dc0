/** Python's str.strip() and str.lower(), as the login handler applies them to
    the submitted email. */
module PyStrings {

  /** The characters for which Python's str.isspace() holds. */
  predicate IsSpace(c: char) {
    || c in {' ', '\t', '\n', '\r', '\U{000B}', '\U{000C}', '\U{001C}', '\U{001D}', '\U{001E}',
             '\U{001F}', '\U{0085}', '\U{00A0}', '\U{1680}', '\U{2028}', '\U{2029}', '\U{202F}',
             '\U{205F}', '\U{3000}'}
    || '\U{2000}' <= c <= '\U{200A}'
  }

  predicate IsUpper(c: char) {
    'A' <= c <= 'Z'
  }

  function LowerChar(c: char): (d: char)
    ensures !IsUpper(d)
    ensures IsSpace(d) <==> IsSpace(c)
  {
    if IsUpper(c) then (c as int + 32) as char else c
  }

  /** str.lstrip() with no argument. */
  function StripLeft(s: string): (r: string)
    ensures |r| <= |s| && r == s[|s| - |r|..]
    ensures r == [] || !IsSpace(r[0])
    ensures forall i :: 0 <= i < |s| - |r| ==> IsSpace(s[i])
  {
    if s != [] && IsSpace(s[0]) then StripLeft(s[1..]) else s
  }

  /** str.rstrip() with no argument. */
  function StripRight(s: string): (r: string)
    ensures |r| <= |s| && r == s[..|r|]
    ensures r == [] || !IsSpace(r[|r| - 1])
    ensures forall i :: |r| <= i < |s| ==> IsSpace(s[i])
  {
    if s != [] && IsSpace(s[|s| - 1]) then StripRight(s[..|s| - 1]) else s
  }

  /** str.strip() with no argument: the text between the leading and the
      trailing whitespace. */
  function Strip(s: string): (r: string)
    ensures r == [] || (!IsSpace(r[0]) && !IsSpace(r[|r| - 1]))
  {
    StripRight(StripLeft(s))
  }

  /** str.lower(), restricted to the ASCII letters. */
  function Lower(s: string): (r: string)
    ensures |r| == |s|
    ensures forall i :: 0 <= i < |s| ==> r[i] == LowerChar(s[i])
  {
    seq(|s|, i requires 0 <= i < |s| => LowerChar(s[i]))
  }

  /** `.strip().lower()`: how the login handler normalises the submitted email. */
  function Normalize(s: string): string {
    Lower(Strip(s))
  }

  lemma {:induction false} StripLeftNoop(s: string)
    requires s == [] || !IsSpace(s[0])
    ensures StripLeft(s) == s
  {
  }

  lemma {:induction false} StripRightNoop(s: string)
    requires s == [] || !IsSpace(s[|s| - 1])
    ensures StripRight(s) == s
  {
  }

  /** Stripping text that has no whitespace at either end leaves it alone. */
  lemma StripNoop(s: string)
    requires s == [] || (!IsSpace(s[0]) && !IsSpace(s[|s| - 1]))
    ensures Strip(s) == s
  {
    StripLeftNoop(s);
    StripRightNoop(s);
  }

  /** The normalised email is empty exactly when the submitted one is all whitespace. */
  lemma NormalizeEmptyIff(s: string)
    ensures Normalize(s) == "" <==> forall k :: 0 <= k < |s| ==> IsSpace(s[k])
  {
    assert |Normalize(s)| == |Strip(s)|;
    if forall k :: 0 <= k < |s| ==> IsSpace(s[k]) {
      AllSpaceStripsLeft(s);
    } else {
      var k :| 0 <= k < |s| && !IsSpace(s[k]);
      NonSpaceSurvivesStrip(s, k);
    }
  }

  /** A character that is not whitespace is never stripped. */
  lemma NonSpaceSurvivesStrip(s: string, k: int)
    requires 0 <= k < |s| && !IsSpace(s[k])
    ensures Strip(s) != []
  {
    var l := StripLeft(s);
    var off := |s| - |l|;
    assert off <= k;
    assert l[k - off] == s[k];
    assert k - off < |StripRight(l)|;
  }

  lemma {:induction false} AllSpaceStripsLeft(s: string)
    requires forall k :: 0 <= k < |s| ==> IsSpace(s[k])
    ensures StripLeft(s) == []
  {
    if s != [] {
      AllSpaceStripsLeft(s[1..]);
    }
  }

  /** The normalised email carries no upper-case letter and no surrounding whitespace. */
  lemma NormalizeShape(s: string)
    ensures var n := Normalize(s);
            (forall k :: 0 <= k < |n| ==> !IsUpper(n[k]))
            && (n == [] || (!IsSpace(n[0]) && !IsSpace(n[|n| - 1])))
  {
    var t := Strip(s);
    LowerShape(t);
  }

  /** Lowering text that has no upper-case letter leaves it alone. */
  lemma LowerNoop(t: string)
    requires forall k :: 0 <= k < |t| ==> !IsUpper(t[k])
    ensures Lower(t) == t
  {
    assert forall k :: 0 <= k < |t| ==> Lower(t)[k] == t[k];
  }

  /** Lowering keeps whitespace at the ends where it was and leaves no upper-case letter. */
  lemma LowerShape(t: string)
    requires t == [] || (!IsSpace(t[0]) && !IsSpace(t[|t| - 1]))
    ensures var n := Lower(t);
            (forall k :: 0 <= k < |n| ==> !IsUpper(n[k]))
            && (n == [] || (!IsSpace(n[0]) && !IsSpace(n[|n| - 1])))
  {
    var n := Lower(t);
    if n != [] {
      assert n[0] == LowerChar(t[0]);
      assert n[|n| - 1] == LowerChar(t[|t| - 1]);
    }
  }

  /** Normalising twice is normalising once. */
  lemma NormalizeIdempotent(s: string)
    ensures Normalize(Normalize(s)) == Normalize(s)
  {
    var n := Normalize(s);
    NormalizeShape(s);
    assert Strip(n) == n by { StripNoop(n); }
    assert Lower(n) == n by { LowerNoop(n); }
  }
}
