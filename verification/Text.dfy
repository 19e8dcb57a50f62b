/** Strings as sequences of code points, with the few library operations the repository leans on. */
module Text {

  /** The length of a code point in UTF-8. */
  function Width(c: char): nat {
    var n := c as int;
    if n < 0x80 then 1 else if n < 0x800 then 2 else if n < 0x1_0000 then 3 else 4
  }

  /** Go's len of a string. */
  function ByteLen(s: string): nat {
    if s == "" then 0 else Width(s[0]) + ByteLen(s[1..])
  }

  /**
   * Unicode lower-casing of a code point, as far as an ASCII result is concerned: the
   * Kelvin sign and the dotted capital I are the two code points outside A-Z that
   * lower-case to an ASCII letter, and a code point left out here never does.
   */
  function Lower(c: char): char {
    if 'A' <= c <= 'Z' then c - 'A' + 'a'
    else if c == '\U{212A}' then 'k'
    else if c == '\U{130}' then 'i'
    else c
  }

  function ToLower(s: string): string {
    seq(|s|, i requires 0 <= i < |s| => Lower(s[i]))
  }

  /** The order Go's < gives two strings. */
  predicate Below(s: string, t: string) {
    t != "" && (s == "" || s[0] < t[0] || (s[0] == t[0] && Below(s[1..], t[1..])))
  }

  lemma {:induction false} BelowIsTotal(s: string, t: string)
    ensures Below(s, t) || Below(t, s) || s == t
    ensures !(Below(s, t) && Below(t, s)) && !Below(s, s)
  {
    if s != "" {
      BelowIsTotal(s[1..], s[1..]);
      if t != "" {
        BelowIsTotal(s[1..], t[1..]);
        assert s == [s[0]] + s[1..] && t == [t[0]] + t[1..];
      }
    }
  }

  lemma {:induction false} BelowIsTransitive(s: string, t: string, u: string)
    requires Below(s, t) && Below(t, u)
    ensures Below(s, u)
  {
    if s != "" && s[0] == t[0] == u[0] {
      BelowIsTransitive(s[1..], t[1..], u[1..]);
    }
  }

  // ---------- What these operations are ----------

  /** How many characters of s are at or above a code point. */
  function AtLeast(s: string, n: nat): nat {
    if s == "" then 0 else (if s[0] as int >= n then 1 else 0) + AtLeast(s[1..], n)
  }

  /** A byte for every character, and one more at each of the three points where UTF-8 grows. */
  lemma {:induction false} ByteLenCounts(s: string)
    ensures ByteLen(s) == |s| + AtLeast(s, 0x80) + AtLeast(s, 0x800) + AtLeast(s, 0x1_0000)
  {
    if s != "" {
      ByteLenCounts(s[1..]);
    }
  }

  const UPPER := "ABCDEFGHIJKLMNOPQRSTUVWXYZ"
  const LOWER := "abcdefghijklmnopqrstuvwxyz"

  /** The capitals go to their small letters, two look-alikes to ASCII, and everything else to itself. */
  lemma LowerMeans(c: char)
    ensures forall i :: 0 <= i < 26 ==> Lower(UPPER[i]) == LOWER[i]
    ensures Lower('\U{212A}') == 'k' && Lower('\U{130}') == 'i'
    ensures c !in UPPER && c != '\U{212A}' && c != '\U{130}' ==> Lower(c) == c
  {
    if 'A' <= c <= 'Z' {
      assert UPPER[c as int - 'A' as int] == c;
    }
  }

  /** The first difference decides, and a prefix comes first. */
  lemma {:induction false} BelowMeans(s: string, t: string)
    ensures Below(s, t) <==> exists k ::
      && 0 <= k <= |s| && k < |t| && s[..k] == t[..k]
      && (k == |s| || s[k] < t[k])
  {
    if t == "" {
    } else if s == "" || s[0] != t[0] {
      assert s[..0] == t[..0];
      if s != "" {
        assert forall k :: 0 < k <= |s| && k < |t| ==> s[..k][0] == s[0] && t[..k][0] == t[0];
      }
    } else {
      var s', t' := s[1..], t[1..];
      BelowMeans(s', t');
      if Below(s', t') {
        var k :| 0 <= k <= |s'| && k < |t'| && s'[..k] == t'[..k] && (k == |s'| || s'[k] < t'[k]);
        assert s[..k + 1] == [s[0]] + s'[..k] && t[..k + 1] == [t[0]] + t'[..k];
      }
      if exists k :: 0 <= k <= |s| && k < |t| && s[..k] == t[..k] && (k == |s| || s[k] < t[k]) {
        var k :| 0 <= k <= |s| && k < |t| && s[..k] == t[..k] && (k == |s| || s[k] < t[k]);
        assert k > 0;
        assert s'[..k - 1] == s[..k][1..] && t'[..k - 1] == t[..k][1..];
      }
    }
  }
}
