/** String helpers the two pages rely on: ASCII lower-casing, `includes`,
    `split(" ")` / `join(" ")`, and decimal renderings of numbers. */
module Text {

  predicate IsUpper(c: char) { 'A' <= c <= 'Z' }

  /** `toLowerCase` restricted to ASCII letters. */
  function LowerChar(c: char): (r: char)
    ensures !IsUpper(r)
    ensures !IsUpper(c) ==> r == c
  {
    if IsUpper(c) then (c as int + 32) as char else c
  }

  function Lower(s: string): (r: string)
    ensures |r| == |s|
    ensures forall i :: 0 <= i < |s| ==> r[i] == LowerChar(s[i])
  {
    if s == [] then [] else [LowerChar(s[0])] + Lower(s[1..])
  }

  /** A lower-cased string has no upper-case letter left, and lower-casing it again changes nothing. */
  lemma LowerIdempotent(s: string)
    ensures forall i :: 0 <= i < |Lower(s)| ==> !IsUpper(Lower(s)[i])
    ensures Lower(Lower(s)) == Lower(s)
  {
  }

  predicate StartsWith(s: string, prefix: string)
  {
    |prefix| <= |s| && s[..|prefix|] == prefix
  }

  /** `s.includes(t)`: `t` occurs somewhere in `s`. */
  predicate Contains(s: string, t: string)
    decreases |s|
  {
    StartsWith(s, t) || (|s| > 0 && Contains(s[1..], t))
  }

  /** Every string includes the empty string and itself. */
  lemma ContainsTrivial(s: string)
    ensures Contains(s, "")
    ensures Contains(s, s)
  {
  }

  /** Lower-casing both sides keeps every occurrence: a case-insensitive search finds
      whatever a case-sensitive one would. */
  lemma {:induction false} ContainsLower(s: string, t: string)
    requires Contains(s, t)
    ensures Contains(Lower(s), Lower(t))
    decreases |s|
  {
    if StartsWith(s, t) {
      assert Lower(s)[..|t|] == Lower(s[..|t|]);
    } else {
      ContainsLower(s[1..], t);
      assert Lower(s)[1..] == Lower(s[1..]);
    }
  }

  // ---------------------------------------------------------------------
  // split(" ") and join(" ")

  /** `s.split(" ")`: the pieces between single spaces, empty pieces included. */
  function SplitSpaces(s: string): (r: seq<string>)
    ensures |r| >= 1
    ensures forall i :: 0 <= i < |r| ==> ' ' !in r[i]
  {
    if s == [] then [""]
    else
      var rest := SplitSpaces(s[1..]);
      if s[0] == ' ' then [""] + rest else [[s[0]] + rest[0]] + rest[1..]
  }

  /** `tokens.join(" ")`. */
  function JoinSpaces(tokens: seq<string>): string
  {
    if tokens == [] then ""
    else if |tokens| == 1 then tokens[0]
    else tokens[0] + " " + JoinSpaces(tokens[1..])
  }

  /** Splitting on spaces loses nothing: joining the pieces gives the string back. */
  lemma {:induction false} JoinSplit(s: string)
    ensures JoinSpaces(SplitSpaces(s)) == s
  {
    if s != [] {
      var rest := SplitSpaces(s[1..]);
      JoinSplit(s[1..]);
      if s[0] == ' ' {
        assert SplitSpaces(s) == [""] + rest;
        assert ([""] + rest)[1..] == rest;
      } else {
        var r := [[s[0]] + rest[0]] + rest[1..];
        assert SplitSpaces(s) == r;
        if |rest| == 1 {
          assert JoinSpaces(r) == [s[0]] + rest[0];
        } else {
          assert r[1..] == rest[1..];
          assert JoinSpaces(r) == [s[0]] + rest[0] + " " + JoinSpaces(rest[1..]);
          assert JoinSpaces(rest) == rest[0] + " " + JoinSpaces(rest[1..]);
        }
      }
    }
  }

  /** Splitting `a + rest` where `a` has no space glues `a` onto the first piece of `rest`. */
  lemma {:induction false} SplitNoSpacePrefix(a: string, rest: string)
    requires ' ' !in a
    ensures SplitSpaces(a + rest) == [a + SplitSpaces(rest)[0]] + SplitSpaces(rest)[1..]
    decreases |a|
  {
    if a != [] {
      assert (a + rest)[1..] == a[1..] + rest;
      assert ' ' !in a[1..] by { assert forall c :: c in a[1..] ==> c in a; }
      SplitNoSpacePrefix(a[1..], rest);
      assert [a[0]] + (a[1..] + SplitSpaces(rest)[0]) == a + SplitSpaces(rest)[0];
    } else {
      var r := SplitSpaces(rest);
      assert a + rest == rest && a + r[0] == r[0];
      assert r == [r[0]] + r[1..];
    }
  }

  /** Joining space-free pieces and splitting again gives the pieces back. */
  lemma {:induction false} SplitJoin(tokens: seq<string>)
    requires |tokens| >= 1
    requires forall i :: 0 <= i < |tokens| ==> ' ' !in tokens[i]
    ensures SplitSpaces(JoinSpaces(tokens)) == tokens
  {
    if |tokens| == 1 {
      SplitNoSpacePrefix(tokens[0], "");
      assert tokens[0] + "" == tokens[0];
    } else {
      var tail := JoinSpaces(tokens[1..]);
      SplitJoin(tokens[1..]);
      assert JoinSpaces(tokens) == tokens[0] + (" " + tail);
      SplitNoSpacePrefix(tokens[0], " " + tail);
      assert (" " + tail)[1..] == tail;
      assert SplitSpaces(" " + tail) == [""] + tokens[1..];
      assert tokens[0] + "" == tokens[0];
    }
  }

  /** Joining the first `k` pieces gives a prefix of joining them all. */
  lemma {:induction false} JoinTakePrefix(tokens: seq<string>, k: nat)
    requires k <= |tokens|
    ensures StartsWith(JoinSpaces(tokens), JoinSpaces(tokens[..k]))
  {
    if k == 0 {
      assert tokens[..0] == [];
    } else if |tokens| == 1 {
      assert tokens[..k] == tokens;
    } else if k == 1 {
      assert tokens[..1] == [tokens[0]];
    } else {
      JoinTakePrefix(tokens[1..], k - 1);
      assert tokens[..k][1..] == tokens[1..][..k - 1];
      var whole, part := JoinSpaces(tokens[1..]), JoinSpaces(tokens[1..][..k - 1]);
      assert JoinSpaces(tokens[..k]) == tokens[0] + " " + part;
      assert JoinSpaces(tokens) == tokens[0] + " " + whole;
      assert whole[..|part|] == part;
      assert (tokens[0] + " " + whole)[..|tokens[0] + " " + part|] == tokens[0] + " " + part;
    }
  }

  // ---------------------------------------------------------------------
  // Decimal numbers

  predicate IsDecimalDigit(c: char) { '0' <= c <= '9' }

  predicate AllDecimal(s: string) { forall i :: 0 <= i < |s| ==> IsDecimalDigit(s[i]) }

  function DigitChar(d: nat): (c: char)
    requires d < 10
    ensures IsDecimalDigit(c) && (c as int) - ('0' as int) == d
  {
    ('0' as int + d) as char
  }

  /** `String(n)` for a non-negative integer: decimal digits, no leading zero. */
  function NatToDecimal(n: nat): (r: string)
    ensures |r| >= 1 && AllDecimal(r)
    ensures |r| > 1 ==> r[0] != '0'
  {
    if n < 10 then [DigitChar(n)] else NatToDecimal(n / 10) + [DigitChar(n % 10)]
  }

  /** `String(n)` for any integer. */
  function IntToDecimal(n: int): (r: string)
    ensures |r| >= 1
    ensures n >= 0 ==> AllDecimal(r)
    ensures n < 0 ==> r[0] == '-' && AllDecimal(r[1..]) && |r| >= 2
  {
    if n < 0 then "-" + NatToDecimal(-n) else NatToDecimal(n)
  }

  /** The value of a string of decimal digits, read left to right. */
  function DecimalValue(s: string): nat
    requires AllDecimal(s)
  {
    if s == [] then 0
    else DecimalValue(s[..|s| - 1]) * 10 + ((s[|s| - 1] as int) - ('0' as int))
  }

  /** Reading back the decimal rendering of `n` gives `n`. */
  lemma {:induction false} DecimalRoundTrip(n: nat)
    ensures DecimalValue(NatToDecimal(n)) == n
  {
    if n >= 10 {
      DecimalRoundTrip(n / 10);
      var s := NatToDecimal(n);
      assert s[..|s| - 1] == NatToDecimal(n / 10);
    }
  }
}
