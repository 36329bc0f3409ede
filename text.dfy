/**
  The JavaScript string operations the pages use: `startsWith`, `includes`,
  `toLowerCase` (on ASCII letters), `trim` and `substring(0, n)`, and the
  extent of a query parameter's value.
 */
module Text {

  /** `s.startsWith(p)`. */
  predicate StartsWith(s: string, p: string) {
    |p| <= |s| && s[..|p|] == p
  }

  /** `s.includes(t)`, searched left to right. */
  predicate Contains(s: string, t: string)
    decreases |s|
  {
    StartsWith(s, t) || (s != [] && Contains(s[1..], t))
  }

  /** `t` occurs in `s` starting at position `i`. */
  predicate OccursAt(s: string, t: string, i: int) {
    0 <= i <= |s| - |t| && s[i..i + |t|] == t
  }

  /** `includes` holds exactly when `t` occurs at some position of `s`. */
  lemma {:induction false} ContainsIffOccurs(s: string, t: string)
    ensures Contains(s, t) <==> exists i :: OccursAt(s, t, i)
    decreases |s|
  {
    if StartsWith(s, t) {
      assert OccursAt(s, t, 0);
    } else if s != [] {
      ContainsIffOccurs(s[1..], t);
      if Contains(s[1..], t) {
        var i :| OccursAt(s[1..], t, i);
        assert s[i + 1..i + 1 + |t|] == s[1..][i..i + |t|];
        assert OccursAt(s, t, i + 1);
      }
      if exists i :: OccursAt(s, t, i) {
        var i :| OccursAt(s, t, i);
        assert i != 0;
        assert s[1..][i - 1..i - 1 + |t|] == s[i..i + |t|];
        assert OccursAt(s[1..], t, i - 1);
      }
    } else {
      assert forall i :: !OccursAt(s, t, i);
    }
  }

  /** The empty string is contained in every string (`"abc".includes("")`). */
  lemma ContainsEmpty(s: string)
    ensures Contains(s, "")
  {
  }

  /** `toLowerCase` on one character; letters outside A-Z are left as they are. */
  function LowerChar(c: char): (d: char)
    ensures ('A' <= c <= 'Z') ==> d as int == c as int + 32
    ensures !('A' <= c <= 'Z') ==> d == c
  {
    if 'A' <= c <= 'Z' then (c as int + 32) as char else c
  }

  /** `toLowerCase` on a string, character by character. */
  function Lower(s: string): (r: string)
    ensures |r| == |s|
    ensures forall i :: 0 <= i < |s| ==> r[i] == LowerChar(s[i])
  {
    if s == [] then [] else [LowerChar(s[0])] + Lower(s[1..])
  }

  /** Lowering twice is lowering once. */
  lemma LowerIdempotent(s: string)
    ensures Lower(Lower(s)) == Lower(s)
  {
    assert forall i :: 0 <= i < |s| ==> LowerChar(LowerChar(s[i])) == LowerChar(s[i]);
  }

  /** A match in the original string is a match after lowering both sides. */
  lemma {:induction false} ContainsLowered(s: string, t: string)
    ensures Contains(s, t) ==> Contains(Lower(s), Lower(t))
    decreases |s|
  {
    if StartsWith(s, t) {
      assert Lower(s)[..|t|] == Lower(s[..|t|]);
    } else if s != [] {
      ContainsLowered(s[1..], t);
      assert Lower(s)[1..] == Lower(s[1..]);
    }
  }

  /**
    The characters `String.prototype.trim` removes: WhiteSpace and
    LineTerminator of section 12.2 and 12.3 of ECMA-262 (the Zs category
    listed code point by code point).
   */
  predicate IsJsWhitespace(c: char) {
    var n := c as int;
    n == 0x09 || n == 0x0B || n == 0x0C || n == 0x20 || n == 0xA0 || n == 0xFEFF
    || n == 0x1680 || (0x2000 <= n <= 0x200A) || n == 0x202F || n == 0x205F || n == 0x3000
    || n == 0x0A || n == 0x0D || n == 0x2028 || n == 0x2029
  }

  function TrimStart(s: string): (r: string)
    ensures |r| <= |s| && r == s[|s| - |r|..]
    ensures r != [] ==> !IsJsWhitespace(r[0])
  {
    if s != [] && IsJsWhitespace(s[0]) then TrimStart(s[1..]) else s
  }

  function TrimEnd(s: string): (r: string)
    ensures |r| <= |s| && r == s[..|r|]
    ensures r != [] ==> !IsJsWhitespace(r[|r| - 1])
  {
    if s != [] && IsJsWhitespace(s[|s| - 1]) then TrimEnd(s[..|s| - 1]) else s
  }

  /** `s.trim()`. */
  function Trim(s: string): string {
    TrimEnd(TrimStart(s))
  }

  /** `s.trim() !== ''` holds exactly when `s` has a character that is not whitespace. */
  lemma {:induction false} TrimEmptyIffBlank(s: string)
    ensures Trim(s) == "" <==> forall i :: 0 <= i < |s| ==> IsJsWhitespace(s[i])
    decreases |s|
  {
    if s != [] {
      if IsJsWhitespace(s[0]) {
        TrimEmptyIffBlank(s[1..]);
        assert forall i :: 1 <= i < |s| ==> s[i] == s[1..][i - 1];
      } else {
        assert TrimStart(s) == s;
        assert TrimEnd(s) != [] by { TrimEndKeepsNonBlank(s, 0); }
      }
    }
  }

  lemma {:induction false} TrimEndKeepsNonBlank(s: string, k: nat)
    requires k < |s| && !IsJsWhitespace(s[k])
    ensures k < |TrimEnd(s)|
    decreases |s|
  {
    if IsJsWhitespace(s[|s| - 1]) {
      TrimEndKeepsNonBlank(s[..|s| - 1], k);
    }
  }

  /** `s.substring(0, n)` for `n >= 0`, counting characters. */
  function Take(s: string, n: nat): (r: string)
    ensures |r| == if n < |s| then n else |s|
    ensures StartsWith(s, r)
  {
    if n < |s| then s[..n] else s
  }

  /** A query value: the text up to the next `&` or `#` (no percent or `+` decoding). */
  function QueryValue(s: string): (v: string)
    ensures StartsWith(s, v)
    ensures forall i :: 0 <= i < |v| ==> v[i] != '&' && v[i] != '#'
    ensures |v| < |s| ==> s[|v|] == '&' || s[|v|] == '#'
  {
    if s == [] || s[0] == '&' || s[0] == '#' then []
    else [s[0]] + QueryValue(s[1..])
  }

  /** A value free of `&` and `#` is read back whole. */
  lemma {:induction false} QueryValueOfPlain(v: string, rest: string)
    requires forall i :: 0 <= i < |v| ==> v[i] != '&' && v[i] != '#'
    requires rest == [] || rest[0] == '&' || rest[0] == '#'
    ensures QueryValue(v + rest) == v
  {
    if v != [] {
      assert (v + rest)[1..] == v[1..] + rest;
      QueryValueOfPlain(v[1..], rest);
    } else {
      assert v + rest == rest;
    }
  }
}
