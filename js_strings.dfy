/**
 * ECMAScript's `String.prototype.trim`: remove the white space and line
 * terminators at both ends of a string.
 */
module JsStrings {

  /**
   * The code points `trim` strips: the ECMAScript WhiteSpace set (TAB, VT,
   * FF, SPACE, NBSP, ZWNBSP and the Unicode space separators) and the
   * LineTerminator set (LF, CR, LS, PS).
   */
  predicate IsTrimmable(c: char) {
    var n := c as int;
    n == 0x09 || n == 0x0A || n == 0x0B || n == 0x0C || n == 0x0D || n == 0x20 ||
    n == 0xA0 || n == 0x1680 || (0x2000 <= n <= 0x200A) || n == 0x2028 || n == 0x2029 ||
    n == 0x202F || n == 0x205F || n == 0x3000 || n == 0xFEFF
  }

  /** The number of trimmable characters at the start of `s`. */
  function LeadingCount(s: string): (k: nat)
    ensures k <= |s|
    ensures forall i :: 0 <= i < k ==> IsTrimmable(s[i])
    ensures k < |s| ==> !IsTrimmable(s[k])
  {
    if |s| > 0 && IsTrimmable(s[0]) then 1 + LeadingCount(s[1..]) else 0
  }

  /** The number of trimmable characters at the end of `s`. */
  function TrailingCount(s: string): (k: nat)
    ensures k <= |s|
    ensures forall i :: |s| - k <= i < |s| ==> IsTrimmable(s[i])
    ensures k < |s| ==> !IsTrimmable(s[|s| - 1 - k])
  {
    if |s| > 0 && IsTrimmable(s[|s| - 1]) then 1 + TrailingCount(s[..|s| - 1]) else 0
  }

  /** `s.trim()`. */
  function Trim(s: string): string {
    var t := s[LeadingCount(s)..];
    t[..|t| - TrailingCount(t)]
  }

  /**
   * `Trim(s)` is the slice `s[lo..hi]` whose flanks are all trimmable and
   * which neither starts nor ends with a trimmable character.
   */
  lemma TrimStripsExactlyTheEnds(s: string)
    ensures exists lo, hi :: 0 <= lo <= hi <= |s| && Trim(s) == s[lo..hi]
              && (forall i :: 0 <= i < lo ==> IsTrimmable(s[i]))
              && (forall i :: hi <= i < |s| ==> IsTrimmable(s[i]))
              && (lo < hi ==> !IsTrimmable(s[lo]) && !IsTrimmable(s[hi - 1]))
  {
    var lo := LeadingCount(s);
    var t := s[lo..];
    var hi := lo + |t| - TrailingCount(t);
    assert Trim(s) == s[lo..hi];
    assert forall i :: hi <= i < |s| ==> IsTrimmable(s[i]) by {
      forall i | hi <= i < |s| ensures IsTrimmable(s[i]) {
        assert s[i] == t[i - lo];
      }
    }
    if lo < hi {
      assert s[hi - 1] == t[|t| - 1 - TrailingCount(t)];
    }
  }

  /** The trimmed string is empty exactly when every character is trimmable. */
  lemma TrimEmptyIff(s: string)
    ensures Trim(s) == [] <==> forall i :: 0 <= i < |s| ==> IsTrimmable(s[i])
  {
    TrimStripsExactlyTheEnds(s);
  }

  /** A trimmed string's ends are not trimmable. */
  lemma TrimmedEnds(s: string)
    ensures var r := Trim(s);
            r == [] || (!IsTrimmable(r[0]) && !IsTrimmable(r[|r| - 1]))
  {
    TrimStripsExactlyTheEnds(s);
  }

  /** Trimming twice is trimming once. */
  lemma TrimIdempotent(s: string)
    ensures Trim(Trim(s)) == Trim(s)
  {
    var r := Trim(s);
    TrimmedEnds(s);
    assert LeadingCount(r) == 0;
    assert r[LeadingCount(r)..] == r;
    assert TrailingCount(r) == 0;
  }
}
