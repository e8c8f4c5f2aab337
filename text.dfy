/**
 * Decimal formatting and splitting of strings, as Python's `str()`,
 * `"{}".format`, `str.split` and `str.join` do them for the engine's
 * command strings and identifiers.
 */
module Text {
  import opened Wrappers

  function DigitChar(d: nat): char
    requires d < 10
  {
    "0123456789"[d]
  }

  predicate IsDigit(c: char)
  {
    '0' <= c <= '9'
  }

  function DigitValue(c: char): nat
    requires IsDigit(c)
  {
    (c as int - '0' as int) as nat
  }

  predicate IsNatString(s: string)
  {
    |s| > 0 && forall i :: 0 <= i < |s| ==> IsDigit(s[i])
  }

  /** Decimal digits of n, most significant first. */
  function NatToString(n: nat): string
  {
    if n < 10 then [DigitChar(n)] else NatToString(n / 10) + [DigitChar(n % 10)]
  }

  function ParseNat(s: string): nat
    requires IsNatString(s)
  {
    if |s| == 1 then DigitValue(s[0])
    else ParseNat(s[..|s| - 1]) * 10 + DigitValue(s[|s| - 1])
  }

  lemma {:induction false} NatRoundTrip(n: nat)
    ensures IsNatString(NatToString(n))
    ensures ParseNat(NatToString(n)) == n
  {
    if n >= 10 {
      NatRoundTrip(n / 10);
      var s := NatToString(n);
      assert s[..|s| - 1] == NatToString(n / 10);
    }
  }

  lemma DigitsExclude(s: string, c: char)
    requires IsNatString(s) && !IsDigit(c)
    ensures c !in s
  {
  }

  /** `str(i)`: a leading minus sign for negative values. */
  function IntToString(i: int): string
  {
    if i < 0 then "-" + NatToString(-i) else NatToString(i)
  }

  function ParseInt(s: string): Option<int>
  {
    if |s| > 0 && s[0] == '-' then
      if IsNatString(s[1..]) then Some(0 - ParseNat(s[1..])) else None
    else if IsNatString(s) then Some(ParseNat(s))
    else None
  }

  /** Decimal text of an integer reads back as that integer and holds only digits and a sign. */
  lemma IntRoundTrip(i: int)
    ensures ParseInt(IntToString(i)) == Some(i)
    ensures forall c :: c != '-' && !IsDigit(c) ==> c !in IntToString(i)
  {
    if i < 0 {
      var digits := NatToString(-i);
      NatRoundTrip(-i);
      var s := "-" + digits;
      assert s[1..] == digits;
      assert s[0] == '-';
    } else {
      NatRoundTrip(i);
    }
  }

  lemma IntNoSeparator(i: int)
    ensures ' ' !in IntToString(i) && '_' !in IntToString(i)
  {
    IntRoundTrip(i);
  }

  /** `s.split(sep)`: the pieces between occurrences of sep, empty pieces kept. */
  function SplitOn(s: string, sep: char): (r: seq<string>)
    ensures |r| > 0
  {
    if s == [] then [""]
    else
      var rest := SplitOn(s[1..], sep);
      if s[0] == sep then [""] + rest else [[s[0]] + rest[0]] + rest[1..]
  }

  /** SplitOn on a non-empty string, in terms of its first character. */
  lemma SplitOnCons(s: string, sep: char)
    requires s != []
    ensures SplitOn(s, sep) ==
      if s[0] == sep then [""] + SplitOn(s[1..], sep)
      else [[s[0]] + SplitOn(s[1..], sep)[0]] + SplitOn(s[1..], sep)[1..]
  {
  }

  /** Splitting at a separator splits each side independently. */
  lemma {:induction false} SplitOnJoin(a: string, b: string, sep: char)
    ensures SplitOn(a + [sep] + b, sep) == SplitOn(a, sep) + SplitOn(b, sep)
  {
    var s := a + [sep] + b;
    SplitOnCons(s, sep);
    if a == [] {
      assert s[1..] == b;
    } else {
      assert s[0] == a[0] && s[1..] == a[1..] + [sep] + b;
      SplitOnJoin(a[1..], b, sep);
      SplitOnCons(a, sep);
      var left := SplitOn(a[1..], sep);
      assert (left + SplitOn(b, sep))[0] == left[0];
      assert (left + SplitOn(b, sep))[1..] == left[1..] + SplitOn(b, sep);
    }
  }

  lemma {:induction false} SplitOnWord(a: string, sep: char)
    requires sep !in a
    ensures SplitOn(a, sep) == [a]
  {
    if a != [] {
      SplitOnWord(a[1..], sep);
      assert [a[0]] + a[1..] == a;
    }
  }

  /** `' '.join(tokens)`. */
  function Join(tokens: seq<string>): string
    requires |tokens| > 0
  {
    if |tokens| == 1 then tokens[0] else tokens[0] + " " + Join(tokens[1..])
  }

  predicate SpaceFree(tokens: seq<string>)
  {
    forall i :: 0 <= i < |tokens| ==> ' ' !in tokens[i]
  }

  /** Joining space-free words and splitting at spaces gives the words back. */
  lemma {:induction false} SplitJoin(tokens: seq<string>)
    requires |tokens| > 0
    requires SpaceFree(tokens)
    ensures SplitOn(Join(tokens), ' ') == tokens
  {
    if |tokens| == 1 {
      SplitOnWord(tokens[0], ' ');
    } else {
      assert forall i :: 0 <= i < |tokens| - 1 ==> tokens[1..][i] == tokens[i + 1];
      SplitJoin(tokens[1..]);
      SplitOnWord(tokens[0], ' ');
      SplitOnJoin(tokens[0], Join(tokens[1..]), ' ');
    }
  }
}
