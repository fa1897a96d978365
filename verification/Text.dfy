/** The string helpers of the Go library that the services use, on ASCII text. */
module Text {
  /** `unicode.IsSpace` on ASCII: tab, newline, vertical tab, form feed, carriage return, space. */
  predicate IsSpace(c: char) {
    c == ' ' || '\t' <= c <= '\r'
  }

  function LowerChar(c: char): char {
    if 'A' <= c <= 'Z' then (c as int + 32) as char else c
  }

  /** `strings.ToLower`. */
  function Lower(s: string): (r: string)
    ensures |r| == |s| && forall i :: 0 <= i < |s| ==> r[i] == LowerChar(s[i])
  {
    seq(|s|, i requires 0 <= i < |s| => LowerChar(s[i]))
  }

  function TrimLeft(s: string, drop: char -> bool): string {
    if s != "" && drop(s[0]) then TrimLeft(s[1..], drop) else s
  }

  function TrimRight(s: string, drop: char -> bool): string {
    if s != "" && drop(s[|s| - 1]) then TrimRight(s[..|s| - 1], drop) else s
  }

  /** `strings.TrimFunc`. */
  function Trim(s: string, drop: char -> bool): string {
    TrimRight(TrimLeft(s, drop), drop)
  }

  /** `strings.TrimSpace`. */
  function TrimSpace(s: string): string {
    Trim(s, IsSpace)
  }

  predicate Bare(s: string, drop: char -> bool) {
    s == "" || (!drop(s[0]) && !drop(s[|s| - 1]))
  }

  predicate IsHex(c: char) {
    '0' <= c <= '9' || 'a' <= c <= 'f' || 'A' <= c <= 'F'
  }

  /** The UUID pattern; both letter cases pass. */
  predicate IsUuid(s: string) {
    |s| == 36 && forall i :: 0 <= i < 36 ==> if i in {8, 13, 18, 23} then s[i] == '-' else IsHex(s[i])
  }

  lemma {:induction false} TrimLeftShape(s: string, drop: char -> bool) returns (n: nat)
    ensures n <= |s| && TrimLeft(s, drop) == s[n..]
    ensures forall i :: 0 <= i < n ==> drop(s[i])
    ensures n < |s| ==> !drop(s[n])
  {
    n := 0;
    if s != "" && drop(s[0]) {
      var m := TrimLeftShape(s[1..], drop);
      n := m + 1;
      forall i | 0 <= i < n ensures drop(s[i]) {
        if i > 0 { assert s[i] == s[1..][i - 1]; }
      }
    }
  }

  lemma {:induction false} TrimRightShape(s: string, drop: char -> bool) returns (n: nat)
    ensures n <= |s| && TrimRight(s, drop) == s[..n]
    ensures forall i :: n <= i < |s| ==> drop(s[i])
    ensures 0 < n ==> !drop(s[n - 1])
  {
    n := |s|;
    if s != "" && drop(s[|s| - 1]) {
      n := TrimRightShape(s[..|s| - 1], drop);
      assert s[..|s| - 1][..n] == s[..n];
      forall i | n <= i < |s| ensures drop(s[i]) {
        if i < |s| - 1 { assert s[i] == s[..|s| - 1][i]; }
      }
    } else {
      assert s[..|s|] == s;
    }
  }

  /** Trimming cuts exactly the droppable characters at the two ends. */
  lemma TrimShape(s: string, drop: char -> bool) returns (lo: nat, hi: nat)
    ensures lo <= hi <= |s| && Trim(s, drop) == s[lo..hi]
    ensures forall i :: 0 <= i < lo || hi <= i < |s| ==> drop(s[i])
    ensures Bare(Trim(s, drop), drop)
  {
    lo := TrimLeftShape(s, drop);
    var t := s[lo..];
    var n := TrimRightShape(t, drop);
    hi := lo + n;
    assert t[..n] == s[lo..hi];
    forall i | hi <= i < |s| ensures drop(s[i]) {
      assert s[i] == t[i - lo];
    }
    if 0 < n {
      assert s[lo] == t[0] && t[0] == t[..n][0];
    }
  }

  lemma TrimBare(s: string, drop: char -> bool)
    requires Bare(s, drop)
    ensures Trim(s, drop) == s
  {
  }

  predicate Blank(s: string) {
    forall i :: 0 <= i < |s| ==> IsSpace(s[i])
  }

  lemma TrimmedIsBlank(s: string)
    ensures TrimSpace(s) == "" <==> Blank(s)
  {
    var lo, hi := TrimShape(s, IsSpace);
  }

  lemma TrimTwice(s: string)
    ensures TrimSpace(TrimSpace(s)) == TrimSpace(s)
  {
    var lo, hi := TrimShape(s, IsSpace);
    TrimBare(TrimSpace(s), IsSpace);
  }

  // What the helpers are, independently of how they compute it.

  const HEX := "0123456789abcdefABCDEF"

  /** An upper-case letter becomes the lower-case one of the same place, every other character stays. */
  lemma LowerCharIs(c: char)
    ensures 'A' <= c <= 'Z' ==> LowerChar(c) as int - 'a' as int == c as int - 'A' as int
    ensures !('A' <= c <= 'Z') ==> LowerChar(c) == c
  {
  }

  lemma IsSpaceIs(c: char)
    ensures IsSpace(c) <==> c as int in {9, 10, 11, 12, 13, 32}
  {
  }

  lemma IsHexIs(c: char)
    ensures IsHex(c) <==> c in HEX
  {
    if '0' <= c <= '9' {
      assert HEX[c as int - 48] == c;
    } else if 'a' <= c <= 'f' {
      assert HEX[10 + (c as int - 97)] == c;
    } else if 'A' <= c <= 'F' {
      assert HEX[16 + (c as int - 65)] == c;
    }
  }

  predicate AllHex(s: string) {
    forall i :: 0 <= i < |s| ==> IsHex(s[i])
  }

  function Hyphenated(a: string, b: string, c: string, d: string, e: string): string {
    a + "-" + b + "-" + c + "-" + d + "-" + e
  }

  predicate FiveGroups(a: string, b: string, c: string, d: string, e: string) {
    && |a| == 8 && |b| == 4 && |c| == 4 && |d| == 4 && |e| == 12
    && AllHex(a) && AllHex(b) && AllHex(c) && AllHex(d) && AllHex(e)
  }

  /** Five groups of 8, 4, 4, 4 and 12 hexadecimal digits, joined by hyphens, are a UUID. */
  lemma GroupsAreUuid(a: string, b: string, c: string, d: string, e: string)
    requires FiveGroups(a, b, c, d, e)
    ensures IsUuid(Hyphenated(a, b, c, d, e))
  {
    var s := Hyphenated(a, b, c, d, e);
    forall i | 0 <= i < 36 ensures if i in {8, 13, 18, 23} then s[i] == '-' else IsHex(s[i]) {
      assert i < 8 ==> s[i] == a[i];
      assert 8 < i < 13 ==> s[i] == b[i - 9];
      assert 13 < i < 18 ==> s[i] == c[i - 14];
      assert 18 < i < 23 ==> s[i] == d[i - 19];
      assert 23 < i ==> s[i] == e[i - 24];
    }
  }

  /** Every UUID is of this form. */
  lemma UuidHasGroups(s: string)
    requires IsUuid(s)
    ensures FiveGroups(s[..8], s[9..13], s[14..18], s[19..23], s[24..])
    ensures s == Hyphenated(s[..8], s[9..13], s[14..18], s[19..23], s[24..])
  {
    assert s[8] == '-' && s[13] == '-' && s[18] == '-' && s[23] == '-';
  }
}
