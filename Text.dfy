/**
  Strings as the screens see them: sequences of characters, and the
  `String.prototype.trim` operation that every user-typed value goes through.
 */
module Text {

  /** The characters ECMAScript's `trim` removes: WhiteSpace (TAB, VT, FF,
      ZWNBSP and every space separator of category Zs) and LineTerminator. */
  predicate IsWhitespace(c: char) {
    var n := c as int;
    n == 0x09 || n == 0x0A || n == 0x0B || n == 0x0C || n == 0x0D ||
    n == 0x20 || n == 0xA0 || n == 0x1680 ||
    (0x2000 <= n <= 0x200A) ||
    n == 0x2028 || n == 0x2029 || n == 0x202F || n == 0x205F ||
    n == 0x3000 || n == 0xFEFF
  }

  /** Every character of `s` is whitespace (the empty string included). */
  predicate IsBlank(s: string) {
    forall i :: 0 <= i < |s| ==> IsWhitespace(s[i])
  }

  /** Drops the leading whitespace: what is left is a suffix of `s` that is
      empty or starts with a non-whitespace character, and all that was
      dropped is whitespace. */
  function TrimStart(s: string): (r: string)
    ensures |r| <= |s| && r == s[|s| - |r|..]
    ensures r == [] || !IsWhitespace(r[0])
    ensures IsBlank(s[..|s| - |r|])
  {
    if s != [] && IsWhitespace(s[0]) then
      var r := TrimStart(s[1..]);
      assert s[..|s| - |r|] == [s[0]] + s[1..][..|s| - 1 - |r|];
      r
    else s
  }

  /** Drops the trailing whitespace: what is left is a prefix of `s` that is
      empty or ends with a non-whitespace character, and all that was
      dropped is whitespace. */
  function TrimEnd(s: string): (r: string)
    ensures |r| <= |s| && r == s[..|r|]
    ensures r == [] || !IsWhitespace(r[|r| - 1])
    ensures IsBlank(s[|r|..])
  {
    if s != [] && IsWhitespace(s[|s| - 1]) then
      var r := TrimEnd(s[..|s| - 1]);
      assert s[|r|..] == s[..|s| - 1][|r|..] + [s[|s| - 1]];
      r
    else s
  }

  /** `s.trim()`. */
  function Trim(s: string): (r: string)
    ensures |r| <= |s|
    ensures r == [] || (!IsWhitespace(r[0]) && !IsWhitespace(r[|r| - 1]))
  {
    TrimEnd(TrimStart(s))
  }

  /** `!s.trim()` holds (the trimmed string is the falsy `''`) exactly when
      `s` consists of whitespace only. */
  lemma TrimEmptyIffBlank(s: string)
    ensures Trim(s) == [] <==> IsBlank(s)
  {
    if Trim(s) == [] {
      assert s[..|s|] == s;
    }
  }

  /** What `TrimStart` drops is a whitespace prefix, by position. */
  lemma TrimStartDropsWhitespace(s: string) returns (i: nat)
    ensures i <= |s| && TrimStart(s) == s[i..]
    ensures forall k :: 0 <= k < i ==> IsWhitespace(s[k])
  {
    i := |s| - |TrimStart(s)|;
    var dropped := s[..i];
    assert IsBlank(dropped);
    forall k | 0 <= k < i ensures IsWhitespace(s[k]) {
      assert dropped[k] == s[k];
    }
  }

  /** What `TrimEnd` drops is a whitespace suffix, by position. */
  lemma TrimEndDropsWhitespace(t: string) returns (j: nat)
    ensures j <= |t| && TrimEnd(t) == t[..j]
    ensures forall k :: j <= k < |t| ==> IsWhitespace(t[k])
  {
    j := |TrimEnd(t)|;
    var dropped := t[j..];
    assert IsBlank(dropped);
    forall k | j <= k < |t| ensures IsWhitespace(t[k]) {
      assert dropped[k - j] == t[k];
    }
  }

  /** Positions of a suffix `s[i..]` are positions of `s` shifted by `i`. */
  lemma SuffixPositions(s: string, i: nat, m: nat)
    requires i + m <= |s|
    requires forall k :: m <= k < |s[i..]| ==> IsWhitespace(s[i..][k])
    ensures s[i..][..m] == s[i..i + m]
    ensures forall k :: i + m <= k < |s| ==> IsWhitespace(s[k])
  {
    forall k | i + m <= k < |s| ensures IsWhitespace(s[k]) {
      assert s[k] == s[i..][k - i];
    }
  }

  /** `s.trim()` is the infix `s[i..j]` that remains once the whitespace on
      both sides is removed: everything outside it is whitespace and it
      neither starts nor ends with whitespace. */
  lemma TrimIsInfix(s: string) returns (i: nat, j: nat)
    ensures i <= j <= |s| && Trim(s) == s[i..j]
    ensures forall k :: 0 <= k < i ==> IsWhitespace(s[k])
    ensures forall k :: j <= k < |s| ==> IsWhitespace(s[k])
  {
    i := TrimStartDropsWhitespace(s);
    var t := s[i..];
    var m := TrimEndDropsWhitespace(t);
    SuffixPositions(s, i, m);
    j := i + m;
    calc {
      Trim(s);
      TrimEnd(TrimStart(s));
      TrimEnd(t);
      t[..m];
      s[i..j];
    }
  }

  /** Trimming twice is trimming once. */
  lemma TrimIdempotent(s: string)
    ensures Trim(Trim(s)) == Trim(s)
  {
    var r := Trim(s);
    assert TrimStart(r) == r;
    assert TrimEnd(r) == r;
  }
}
