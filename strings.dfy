/**
 * String helpers the PHP code gets from its runtime: explode/implode on one
 * separator character, integer-to-decimal conversion, and the quote
 * un-escaping `str_replace("\\'", "'", $s)`.
 */
module Strings {

  /** Position of the first `c` in `s`. */
  function IndexOf(s: string, c: char): (i: nat)
    requires c in s
    ensures i < |s| && s[i] == c && c !in s[..i]
  {
    if s[0] == c then 0
    else
      assert s == [s[0]] + s[1..];
      var j := IndexOf(s[1..], c);
      assert s[..j + 1] == [s[0]] + s[1..][..j];
      j + 1
  }

  /** PHP `explode(c, s)`: never empty, and no part contains the separator. */
  function Split(s: string, c: char): (parts: seq<string>)
    ensures |parts| >= 1
    ensures forall i :: 0 <= i < |parts| ==> c !in parts[i]
    decreases |s|
  {
    if c !in s then [s]
    else
      var i := IndexOf(s, c);
      [s[..i]] + Split(s[i + 1..], c)
  }

  /** PHP `implode(c, parts)`. */
  function Join(parts: seq<string>, c: char): string
  {
    if |parts| == 0 then ""
    else if |parts| == 1 then parts[0]
    else parts[0] + [c] + Join(parts[1..], c)
  }

  /** implode undoes explode. */
  lemma {:induction false} JoinSplit(s: string, c: char)
    ensures Join(Split(s, c), c) == s
    decreases |s|
  {
    if c in s {
      var i := IndexOf(s, c);
      var rest := Split(s[i + 1..], c);
      assert Split(s, c) == [s[..i]] + rest;
      JoinSplit(s[i + 1..], c);
      JoinCons(s[..i], rest, c);
      assert s == s[..i] + [c] + s[i + 1..];
    }
  }

  /** Joining a part in front of at least one more adds it and a separator. */
  lemma JoinCons(a: string, rest: seq<string>, c: char)
    requires |rest| >= 1
    ensures Join([a] + rest, c) == a + [c] + Join(rest, c)
  {
    assert ([a] + rest)[1..] == rest;
  }

  /** The first separator of `a + [c] + b` is the one right after `a` when `a` has none. */
  lemma {:induction false} IndexOfAfter(a: string, c: char, b: string)
    requires c !in a
    ensures IndexOf(a + [c] + b, c) == |a|
  {
    if a != [] {
      IndexOfAfter(a[1..], c, b);
      assert (a + [c] + b)[1..] == a[1..] + [c] + b;
    }
  }

  /** explode undoes implode of a non-empty list whose parts do not contain the separator. */
  lemma {:induction false} SplitJoin(parts: seq<string>, c: char)
    requires |parts| >= 1
    requires forall i :: 0 <= i < |parts| ==> c !in parts[i]
    ensures Split(Join(parts, c), c) == parts
  {
    if |parts| > 1 {
      var rest := Join(parts[1..], c);
      var s := parts[0] + [c] + rest;
      assert Join(parts, c) == s;
      assert s[|parts[0]|] == c;
      IndexOfAfter(parts[0], c, rest);
      assert s[..|parts[0]|] == parts[0];
      assert s[|parts[0]| + 1..] == rest;
      assert Split(s, c) == [parts[0]] + Split(rest, c);
      forall j | 0 <= j < |parts| - 1
        ensures c !in parts[1..][j]
      {
        assert parts[1..][j] == parts[j + 1];
      }
      SplitJoin(parts[1..], c);
      assert parts == [parts[0]] + parts[1..];
    }
  }

  predicate IsDigit(ch: char) { '0' <= ch <= '9' }

  /** A decimal numeral without superfluous leading zeros. */
  predicate IsCanonicalNat(s: string)
  {
    |s| > 0 && (forall i :: 0 <= i < |s| ==> IsDigit(s[i])) && (s[0] == '0' ==> |s| == 1)
  }

  /**
   * A string that PHP turns into an integer array key: the canonical
   * decimal spelling of an integer ("0", "17", "-3", but not "07" or "-0").
   */
  predicate IsIntKey(s: string)
  {
    IsCanonicalNat(s) || (|s| > 1 && s[0] == '-' && s[1] != '0' && IsCanonicalNat(s[1..]))
  }

  function DigitChar(d: nat): (ch: char)
    requires d < 10
    ensures IsDigit(ch) && (ch == '0' <==> d == 0)
  {
    "0123456789"[d]
  }

  /** Decimal spelling of a natural number. */
  function Dec(n: nat): (s: string)
    ensures IsCanonicalNat(s)
    ensures s[0] == '0' <==> n == 0
  {
    if n < 10 then [DigitChar(n)]
    else
      var hi := Dec(n / 10);
      hi + [DigitChar(n % 10)]
  }

  /** PHP's int-to-string conversion. */
  function DecInt(i: int): string
  {
    if i < 0 then "-" + Dec(-i) else Dec(i)
  }

  /** Every integer is spelled as an integer-like key. */
  lemma DecIntIsIntKey(i: int)
    ensures IsIntKey(DecInt(i))
  {
    if i < 0 {
      var d := Dec(-i);
      assert ("-" + d)[1..] == d;
    }
  }

  /** Value of a decimal digit. */
  function DigitValue(ch: char): (d: nat)
    requires IsDigit(ch)
    ensures d < 10 && DigitChar(d) == ch
  {
    (ch - '0') as nat
  }

  /** The number a string of decimal digits spells. */
  function NatOf(s: string): nat
    requires |s| > 0 && forall i :: 0 <= i < |s| ==> IsDigit(s[i])
  {
    if |s| == 1 then DigitValue(s[0])
    else NatOf(s[..|s| - 1]) * 10 + DigitValue(s[|s| - 1])
  }

  /** The integer an integer-like array key stands for. */
  function IntOf(s: string): int
    requires IsIntKey(s)
  {
    if IsCanonicalNat(s) then NatOf(s) as int else -(NatOf(s[1..]) as int)
  }

  /** A canonical numeral of two or more digits spells a number of at least 10. */
  lemma {:induction false} NatOfAtLeastTen(s: string)
    requires IsCanonicalNat(s) && |s| >= 2
    ensures NatOf(s) >= 10
  {
    var init := s[..|s| - 1];
    if |init| >= 2 {
      assert IsCanonicalNat(init);
      NatOfAtLeastTen(init);
    } else {
      assert init[0] == s[0] != '0';
    }
  }

  /** Spelling the number a canonical numeral stands for gives the numeral back. */
  lemma {:induction false} DecNatOf(s: string)
    requires IsCanonicalNat(s)
    ensures Dec(NatOf(s)) == s
  {
    if |s| >= 2 {
      var init := s[..|s| - 1];
      assert IsCanonicalNat(init);
      DecNatOf(init);
      NatOfAtLeastTen(s);
      var n := NatOf(s);
      assert n / 10 == NatOf(init) && n % 10 == DigitValue(s[|s| - 1]);
      assert s == init + [s[|s| - 1]];
    }
  }

  /** Spelling the integer an integer-like key stands for gives the key back. */
  lemma DecIntOf(s: string)
    requires IsIntKey(s)
    ensures DecInt(IntOf(s)) == s
  {
    if IsCanonicalNat(s) {
      DecNatOf(s);
    } else {
      DecNegativeOf(s);
    }
  }

  /** The negative case of DecIntOf: "-" followed by a canonical numeral other than "0". */
  lemma DecNegativeOf(s: string)
    requires |s| > 1 && s[0] == '-' && s[1] != '0' && IsCanonicalNat(s[1..])
    ensures DecInt(-(NatOf(s[1..]) as int)) == s
  {
    var digits := s[1..];
    DecNatOf(digits);
    assert NatOf(digits) > 0 by {
      if |digits| >= 2 { NatOfAtLeastTen(digits); }
    }
    assert s == "-" + digits;
  }

  /** `str_replace("\\'", "'", s)`: every backslash-quote pair becomes a quote, scanning left to right. */
  function Unslash(s: string): string
  {
    if |s| < 2 then s
    else if s[0] == '\\' && s[1] == '\'' then "'" + Unslash(s[2..])
    else [s[0]] + Unslash(s[1..])
  }

  /** Quote escaping as the host applies it to submitted data: a backslash before every quote. */
  function SlashQuotes(s: string): (r: string)
    ensures |r| >= |s|
    ensures |s| > 0 ==> r[0] != '\''
  {
    if s == [] then []
    else if s[0] == '\'' then "\\'" + SlashQuotes(s[1..])
    else [s[0]] + SlashQuotes(s[1..])
  }

  /** Un-slashing recovers any string from its quote-escaped form. */
  lemma {:induction false} UnslashSlashQuotes(s: string)
    ensures Unslash(SlashQuotes(s)) == s
  {
    if s != [] {
      UnslashSlashQuotes(s[1..]);
      var t := SlashQuotes(s[1..]);
      if s[0] == '\'' {
        assert SlashQuotes(s) == "\\'" + t;
        assert ("\\'" + t)[2..] == t;
      } else if s[0] == '\\' && |t| > 0 {
        assert SlashQuotes(s) == [s[0]] + t;
        assert ([s[0]] + t)[1..] == t;
      } else {
        assert SlashQuotes(s) == [s[0]] + t;
        assert ([s[0]] + t)[1..] == t;
      }
      assert s == [s[0]] + s[1..];
    }
  }

  /** strtolower: ASCII letters lowered, every other character kept. */
  function AsciiLower(s: string): (r: string)
    ensures |r| == |s|
    ensures forall i :: 0 <= i < |s| ==> r[i] == if 'A' <= s[i] <= 'Z' then (s[i] as int + 32) as char else s[i]
  {
    if s == [] then []
    else [if 'A' <= s[0] <= 'Z' then (s[0] as int + 32) as char else s[0]] + AsciiLower(s[1..])
  }

  /** A part added at the end of an implode comes after one more separator. */
  lemma {:induction false} JoinAppend(parts: seq<string>, x: string, c: char)
    requires |parts| >= 1
    ensures Join(parts + [x], c) == Join(parts, c) + [c] + x
  {
    if |parts| > 1 {
      JoinAppend(parts[1..], x, c);
      assert (parts + [x])[1..] == parts[1..] + [x];
    }
  }

  /** Text added to the last part of an implode ends the joined string. */
  lemma {:induction false} JoinExtendLast(parts: seq<string>, suffix: string, c: char)
    requires |parts| >= 1
    ensures Join(parts[..|parts| - 1] + [parts[|parts| - 1] + suffix], c) == Join(parts, c) + suffix
  {
    if |parts| > 1 {
      var tail := parts[1..];
      JoinExtendLast(tail, suffix, c);
      var ext := parts[..|parts| - 1] + [parts[|parts| - 1] + suffix];
      assert tail[..|tail| - 1] == parts[1..|parts| - 1];
      assert ext[1..] == tail[..|tail| - 1] + [tail[|tail| - 1] + suffix];
      assert ext[0] == parts[0];
    }
  }
}
