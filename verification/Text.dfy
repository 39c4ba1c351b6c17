/** Text helpers shared by the payment and user services. */
module Text {
  function LowerChar(c: char): char { if 'A' <= c <= 'Z' then (c as int + 32) as char else c }

  /** str.lower on ASCII text */
  function Lower(s: string): string { seq(|s|, i requires 0 <= i < |s| => LowerChar(s[i])) }

  /** Capital letters become the small ones in the same place of the alphabet, all else stays. */
  lemma LowerLetter(s: string, i: nat)
    requires i < |s|
    ensures |Lower(s)| == |s|
    ensures 'A' <= s[i] <= 'Z' ==> Lower(s)[i] == "abcdefghijklmnopqrstuvwxyz"[s[i] as int - 'A' as int]
    ensures s[i] < 'A' || 'Z' < s[i] ==> Lower(s)[i] == s[i]
  {
    var c := s[i];
    if 'A' <= c <= 'Z' {
      var k := c as int - 'A' as int;
      assert "abcdefghijklmnopqrstuvwxyz"[k] as int == 'a' as int + k;
    }
  }

  lemma LowerTwice(s: string)
    ensures Lower(Lower(s)) == Lower(s)
  {}

  /** A first part without a colon is determined by the text. */
  lemma FirstColon(a: string, x: string, b: string, y: string)
    requires a + ":" + x == b + ":" + y && ':' !in a && ':' !in b
    ensures a == b && x == y
  {
    var s, t := a + ":" + x, b + ":" + y;
    assert s[|a|] == ':' && t[|b|] == ':';
    assert |a| == |b|;
    assert s[..|a|] == a && t[..|b|] == b;
    assert s[|a| + 1..] == x && t[|b| + 1..] == y;
  }

  /** What follows the last colon of a text is determined by the text. */
  lemma LastColon(a: string, x: string, b: string, y: string)
    requires a + ":" + x == b + ":" + y && ':' !in x && ':' !in y
    ensures a == b && x == y
  {
    var s, t := a + ":" + x, b + ":" + y;
    assert s[|a|] == ':' && t[|b|] == ':';
    assert s[|a| + 1..] == x && t[|b| + 1..] == y;
    assert |a| == |b|;
    assert s[..|a|] == a && t[..|b|] == b;
  }
}
