/** Text helpers that the store needs: Python's `str.join`, Python's `str()`
    of an integer, and SQLite's NOCASE collation. */
module Text {

  /** `sep.join(xs)`. */
  function Join(xs: seq<string>, sep: string): string
  {
    if |xs| == 0 then ""
    else if |xs| == 1 then xs[0]
    else Join(xs[..|xs| - 1], sep) + sep + xs[|xs| - 1]
  }

  /** Appending one more item to a non-empty join adds the separator and the item. */
  lemma JoinSnoc(xs: seq<string>, x: string, sep: string)
    requires |xs| > 0
    ensures Join(xs + [x], sep) == Join(xs, sep) + sep + x
  {
    assert (xs + [x])[..|xs|] == xs;
  }

  /** With a non-empty separator, a join is empty exactly when there is
      nothing to join or the only item is empty. */
  lemma {:induction false} JoinIsEmpty(xs: seq<string>, sep: string)
    requires sep != ""
    ensures Join(xs, sep) == "" <==> xs == [] || xs == [""]
  {
    if |xs| >= 2 {
      var j := Join(xs[..|xs| - 1], sep) + sep + xs[|xs| - 1];
      assert |j| >= |sep| > 0;
    }
  }

  predicate IsDigit(c: char) {
    '0' <= c <= '9'
  }

  function DigitChar(d: nat): (c: char)
    requires d < 10
    ensures IsDigit(c) && c as int - '0' as int == d
  {
    ('0' as int + d) as char
  }

  /** The decimal digits of `n`, most significant first, as `str(n)` prints them. */
  function NatToString(n: nat): (r: string)
    ensures |r| >= 1
    ensures forall k :: 0 <= k < |r| ==> IsDigit(r[k])
    ensures r[0] == '0' ==> n == 0 && r == "0"
    decreases n
  {
    if n < 10 then [DigitChar(n)] else NatToString(n / 10) + [DigitChar(n % 10)]
  }

  /** `str(i)` for a Python int. */
  function IntToString(i: int): (r: string)
    ensures |r| >= 1
    ensures i < 0 <==> r[0] == '-'
    ensures i >= 0 ==> r == NatToString(i)
  {
    if i < 0 then "-" + NatToString(-i) else NatToString(i)
  }

  /** Reads a string of decimal digits back as a number. */
  function ParseNat(s: string): nat
    requires forall k :: 0 <= k < |s| ==> IsDigit(s[k])
  {
    if s == [] then 0
    else
      assert IsDigit(s[|s| - 1]);
      10 * ParseNat(s[..|s| - 1]) + (s[|s| - 1] as int - '0' as int)
  }

  /** Reads `str(i)` back as an integer. */
  function ParseInt(s: string): int
    requires |s| >= 1
    requires s[0] == '-' ==> forall k :: 1 <= k < |s| ==> IsDigit(s[k])
    requires s[0] != '-' ==> forall k :: 0 <= k < |s| ==> IsDigit(s[k])
  {
    if s[0] == '-' then -(ParseNat(s[1..]) as int) else ParseNat(s)
  }

  lemma {:induction false} ParseNatToString(n: nat)
    ensures ParseNat(NatToString(n)) == n
    decreases n
  {
    if n >= 10 {
      var s := NatToString(n);
      assert s[..|s| - 1] == NatToString(n / 10);
      ParseNatToString(n / 10);
    }
  }

  /** The decimal text of an integer determines it: printing is injective. */
  lemma ParseIntToString(i: int)
    ensures ParseInt(IntToString(i)) == i
  {
    if i < 0 {
      assert IntToString(i)[1..] == NatToString(-i);
      ParseNatToString(-i);
    } else {
      ParseNatToString(i);
    }
  }

  /** SQLite's NOCASE folds only the 26 upper-case ASCII letters. */
  function FoldCase(c: char): (r: char)
    ensures 'A' <= c <= 'Z' ==> 'a' <= r <= 'z' && r as int == c as int + 32
    ensures !('A' <= c <= 'Z') ==> r == c
  {
    if 'A' <= c <= 'Z' then (c as int + 32) as char else c
  }

  function Lower(s: string): (r: string)
    ensures |r| == |s|
    ensures forall k :: 0 <= k < |s| ==> r[k] == FoldCase(s[k])
  {
    if s == [] then [] else Lower(s[..|s| - 1]) + [FoldCase(s[|s| - 1])]
  }

  /** Equality under SQLite's NOCASE collation. */
  predicate NoCaseEq(a: string, b: string) {
    Lower(a) == Lower(b)
  }

  /** Two strings are NOCASE-equal exactly when they have the same length and
      agree character by character once upper-case ASCII letters are folded. */
  lemma NoCaseEqPointwise(a: string, b: string)
    ensures NoCaseEq(a, b) <==> |a| == |b| && forall k :: 0 <= k < |a| ==> FoldCase(a[k]) == FoldCase(b[k])
  {
    if |a| == |b| && forall k :: 0 <= k < |a| ==> FoldCase(a[k]) == FoldCase(b[k]) {
      assert Lower(a) == Lower(b);
    }
  }
}
