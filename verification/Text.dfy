/** Decimal numbers in text, and cutting text at a separator. */
module Text {
  import opened Rows

  predicate IsDigit(c: char) {
    '0' <= c <= '9'
  }

  function DigitChar(d: int): char
    requires 0 <= d < 10
  {
    '0' + (d as char)
  }

  function DigitValue(c: char): int {
    c as int - '0' as int
  }

  function Digits(n: nat): string {
    if n < 10 then [DigitChar(n)] else Digits(n / 10) + [DigitChar(n % 10)]
  }

  function ValueOf(s: string): int {
    if s == [] then 0 else ValueOf(s[..|s| - 1]) * 10 + DigitValue(s[|s| - 1])
  }

  /** How an integer is written into text. */
  function Dec(n: int): string {
    if n < 0 then "-" + Digits(-n) else Digits(n)
  }

  predicate AllDigits(s: string) {
    s != [] && forall c :: c in s ==> IsDigit(c)
  }

  /** White space that reading a number passes over, among the characters a header can carry. */
  predicate IsSpace(c: char) {
    '\t' <= c <= '\r' || c == ' ' || c == '\U{85}' || c == '\U{A0}'
  }

  function StripLeft(s: string): (r: string)
    ensures |r| <= |s|
  {
    if s != "" && IsSpace(s[0]) then StripLeft(s[1..]) else s
  }

  function StripRight(s: string): (r: string)
    ensures |r| <= |s|
  {
    if s != "" && IsSpace(s[|s| - 1]) then StripRight(s[..|s| - 1]) else s
  }

  /** A digit, or an underscore between two digits. */
  predicate NumeralAt(s: string, i: nat)
    requires i < |s|
  {
    IsDigit(s[i]) || (s[i] == '_' && 0 < i < |s| - 1 && IsDigit(s[i - 1]) && IsDigit(s[i + 1]))
  }

  /** Digits, with single underscores allowed between them. */
  predicate IsNumeral(s: string) {
    s != "" && forall i :: 0 <= i < |s| ==> NumeralAt(s, i)
  }

  function DigitClass(): char -> bool {
    (c: char) => IsDigit(c)
  }

  function NumeralValue(s: string): int {
    ValueOf(Where(s, DigitClass()))
  }

  function Unsigned(s: string): Option<int> {
    if IsNumeral(s) then Some(NumeralValue(s)) else None
  }

  /** A sign, at most one, and digits in groups. */
  function Signed(s: string): Option<int> {
    if s != "" && s[0] == '-' then
      match Unsigned(s[1..])
      case None => None
      case Some(n) => Some(-n)
    else if s != "" && s[0] == '+' then Unsigned(s[1..])
    else Unsigned(s)
  }

  /** Reads an integer with white space around it. */
  function ParseInt(s: string): Option<int> {
    Signed(StripRight(StripLeft(s)))
  }

  lemma {:induction false} DigitsAreDigits(n: nat)
    ensures AllDigits(Digits(n)) && ValueOf(Digits(n)) == n
  {
    if n >= 10 {
      DigitsAreDigits(n / 10);
      var s := Digits(n);
      assert s[..|s| - 1] == Digits(n / 10);
    }
  }

  /** No separator occurs in a written number. */
  lemma DecIsClean(n: int, c: char)
    requires !IsDigit(c) && c != '-'
    ensures c !in Dec(n)
  {
    if n < 0 {
      DigitsAreDigits(-n);
    } else {
      DigitsAreDigits(n);
    }
  }

  lemma DigitsAreNumerals(s: string)
    requires AllDigits(s)
    ensures IsNumeral(s) && NumeralValue(s) == ValueOf(s)
  {
    forall i | 0 <= i < |s| ensures NumeralAt(s, i) {
      assert s[i] in s;
    }
    WhereAll(s, DigitClass());
  }

  lemma NothingToStrip(s: string)
    requires s != "" && !IsSpace(s[0]) && !IsSpace(s[|s| - 1])
    ensures StripRight(StripLeft(s)) == s
  {
  }

  lemma ParseDigits(s: string)
    requires AllDigits(s)
    ensures ParseInt(s) == Some(ValueOf(s))
  {
    DigitsAreNumerals(s);
    assert s[0] in s && s[|s| - 1] in s;
    NothingToStrip(s);
  }

  lemma ParseMinus(s: string)
    requires s != "" && s[0] == '-' && AllDigits(s[1..])
    ensures ParseInt(s) == Some(-ValueOf(s[1..]))
  {
    DigitsAreNumerals(s[1..]);
    assert s[|s| - 1] in s[1..];
    NothingToStrip(s);
  }

  /** A written integer is read back. */
  lemma ParseDec(n: int)
    ensures ParseInt(Dec(n)) == Some(n)
  {
    if n < 0 {
      DigitsAreDigits(-n);
      assert Dec(n)[1..] == Digits(-n);
      ParseMinus(Dec(n));
    } else {
      DigitsAreDigits(n);
      ParseDigits(Digits(n));
    }
  }

  /** How integers are written, digit by digit. */
  lemma DecWrites(n: int, d: int)
    requires n >= 0 && 0 <= d < 10
    ensures Dec(d) == ["0123456789"[d]]
    ensures n > 0 ==> Dec(10 * n + d) == Dec(n) + ["0123456789"[d]] && Dec(-n) == "-" + Dec(n)
  {
    var m := 10 * n + d;
    assert m / 10 == n && m % 10 == d;
  }

  /** What digits are worth, one after the other. */
  lemma ValueReads(s: string, d: nat)
    requires d < 10
    ensures ValueOf("") == 0 && ValueOf(s + ["0123456789"[d]]) == 10 * ValueOf(s) + d
  {
    var t := s + ["0123456789"[d]];
    assert t[..|t| - 1] == s;
  }

  // ----- what the number parser takes

  predicate Blank(s: string) {
    forall c :: c in s ==> c in "\t\n\U{0B}\U{0C}\r \U{85}\U{A0}"
  }

  /** Digits and underscores, a digit at either end, and no two underscores in a row. */
  predicate Grouped(s: string) {
    && s != "" && s[0] in "0123456789" && s[|s| - 1] in "0123456789"
    && (forall c :: c in s ==> c in "0123456789_")
    && (forall i :: 0 < i < |s| ==> !UnderscoresAt(s, i))
  }

  predicate UnderscoresAt(s: string, i: nat)
    requires 0 < i < |s|
  {
    s[i - 1] == '_' && s[i] == '_'
  }

  lemma NumeralIsGrouped(s: string)
    requires IsNumeral(s)
    ensures Grouped(s)
  {
    assert NumeralAt(s, 0) && NumeralAt(s, |s| - 1);
    forall c | c in s ensures c in "0123456789_" {
      var i: nat :| i < |s| && s[i] == c;
      assert NumeralAt(s, i);
    }
    forall i | 0 < i < |s| ensures !UnderscoresAt(s, i) {
      assert NumeralAt(s, i);
    }
  }

  lemma GroupedIsNumeral(s: string)
    requires Grouped(s)
    ensures IsNumeral(s)
  {
    forall i | 0 <= i < |s| ensures NumeralAt(s, i) {
      assert s[i] in s;
      if s[i] == '_' {
        assert 0 < i < |s| - 1 && !UnderscoresAt(s, i) && !UnderscoresAt(s, i + 1);
        assert s[i - 1] in s && s[i + 1] in s;
      }
    }
  }

  /** `s` is blanks, a sign or none, a numeral, and blanks. */
  predicate Spells(s: string, before: string, sign: string, body: string, after: string) {
    && s == before + sign + body + after
    && Blank(before) && Blank(after) && Grouped(body)
    && (sign == "" || sign == "+" || sign == "-")
  }

  lemma {:induction false} LeftStripped(s: string) returns (before: string)
    ensures s == before + StripLeft(s) && Blank(before)
    ensures StripLeft(s) != "" ==> !IsSpace(StripLeft(s)[0])
  {
    if s != "" && IsSpace(s[0]) {
      var rest := LeftStripped(s[1..]);
      before := [s[0]] + rest;
    } else {
      before := "";
    }
  }

  lemma {:induction false} RightStripped(s: string) returns (after: string)
    ensures s == StripRight(s) + after && Blank(after)
  {
    if s != "" && IsSpace(s[|s| - 1]) {
      var rest := RightStripped(s[..|s| - 1]);
      after := rest + [s[|s| - 1]];
    } else {
      after := "";
    }
  }

  lemma SignedIsSpelled(t: string) returns (sign: string, body: string)
    requires Signed(t).Some?
    ensures t == sign + body && IsNumeral(body) && (sign == "" || sign == "+" || sign == "-")
    ensures Signed(t).value == if sign == "-" then -NumeralValue(body) else NumeralValue(body)
  {
    if t != "" && (t[0] == '-' || t[0] == '+') {
      sign, body := [t[0]], t[1..];
    } else {
      sign, body := "", t;
    }
  }

  /** Whatever is read as a number is spelled as one, with that value. */
  lemma ParsedIsSpelled(s: string) returns (before: string, sign: string, body: string, after: string)
    requires ParseInt(s).Some?
    ensures Spells(s, before, sign, body, after)
    ensures ParseInt(s).value == if sign == "-" then -NumeralValue(body) else NumeralValue(body)
  {
    before := LeftStripped(s);
    after := RightStripped(StripLeft(s));
    sign, body := SignedIsSpelled(StripRight(StripLeft(s)));
    NumeralIsGrouped(body);
    Assembled(s, before, StripLeft(s), StripRight(StripLeft(s)), sign, body, after);
  }

  lemma Assembled(s: string, before: string, u: string, t: string, sign: string, body: string, after: string)
    requires s == before + u && u == t + after && t == sign + body
    ensures s == before + sign + body + after
  {
  }

  lemma {:induction false} StripBlankLeft(before: string, rest: string)
    requires Blank(before) && rest != "" && !IsSpace(rest[0])
    ensures StripLeft(before + rest) == rest
  {
    if before == "" {
      assert before + rest == rest;
    } else {
      assert before[0] in before;
      assert (before + rest)[1..] == before[1..] + rest;
      StripBlankLeft(before[1..], rest);
    }
  }

  lemma {:induction false} StripBlankRight(rest: string, after: string)
    requires Blank(after) && rest != "" && !IsSpace(rest[|rest| - 1])
    ensures StripRight(rest + after) == rest
    decreases |after|
  {
    if after == "" {
      assert rest + after == rest;
    } else {
      var n := |after| - 1;
      assert after[n] in after;
      assert (rest + after)[..|rest + after| - 1] == rest + after[..n];
      StripBlankRight(rest, after[..n]);
    }
  }

  lemma NumeralEnds(body: string)
    requires IsNumeral(body)
    ensures IsDigit(body[0]) && IsDigit(body[|body| - 1])
  {
    assert NumeralAt(body, 0) && NumeralAt(body, |body| - 1);
  }

  lemma SignedSpelled(sign: string, body: string)
    requires IsNumeral(body) && (sign == "" || sign == "+" || sign == "-")
    ensures Signed(sign + body) == Some(if sign == "-" then -NumeralValue(body) else NumeralValue(body))
  {
    NumeralEnds(body);
    assert sign == "" ==> sign + body == body;
    assert sign != "" ==> (sign + body)[1..] == body;
  }

  /** Whatever is spelled as a number is read as it. */
  lemma SpelledIsParsed(s: string, before: string, sign: string, body: string, after: string)
    requires Spells(s, before, sign, body, after)
    ensures ParseInt(s) == Some(if sign == "-" then -NumeralValue(body) else NumeralValue(body))
  {
    GroupedIsNumeral(body);
    NumeralEnds(body);
    var t := sign + body;
    assert t[|t| - 1] == body[|body| - 1] && t[0] == if sign == "" then body[0] else sign[0];
    assert s == before + (t + after);
    assert (t + after)[0] == t[0];
    StripBlankLeft(before, t + after);
    StripBlankRight(t, after);
    SignedSpelled(sign, body);
  }

  lemma DecInjective(a: int, b: int)
    requires Dec(a) == Dec(b)
    ensures a == b
  {
    ParseDec(a);
    ParseDec(b);
  }

  /** Position of the first separator, or the length of the text. */
  function Find(s: string, sep: char): nat {
    if s == [] || s[0] == sep then 0 else 1 + Find(s[1..], sep)
  }

  lemma {:induction false} FindFinds(s: string, sep: char)
    ensures Find(s, sep) <= |s|
    ensures Find(s, sep) < |s| ==> s[Find(s, sep)] == sep
    ensures sep !in s[..Find(s, sep)]
  {
    if s != [] && s[0] != sep {
      FindFinds(s[1..], sep);
      assert s[..Find(s, sep)] == [s[0]] + s[1..][..Find(s[1..], sep)];
    }
  }

  /** Splits at the first separator. */
  function SplitFirst(s: string, sep: char): Option<(string, string)> {
    var i := Find(s, sep);
    if i < |s| then Some((s[..i], s[i + 1..])) else None
  }

  /** The part before the first separator is determined by the text. */
  lemma CutFirst(a: string, b: string, c: string, d: string, sep: char)
    requires sep !in a && sep !in c
    requires a + [sep] + b == c + [sep] + d
    ensures a == c && b == d
  {
    var s := a + [sep] + b;
    assert s[|a|] == sep && s[|c|] == sep;
    assert |a| == |c|;
    assert a == s[..|a|] && c == s[..|c|];
    assert b == s[|a| + 1..] && d == s[|c| + 1..];
  }

  /** The part after the last separator is determined by the text. */
  lemma CutLast(a: string, b: string, c: string, d: string, sep: char)
    requires sep !in b && sep !in d
    requires a + [sep] + b == c + [sep] + d
    ensures a == c && b == d
  {
    var s := a + [sep] + b;
    assert s[|a|] == sep && s[|c|] == sep;
    assert |a| == |c|;
    assert a == s[..|a|] && c == s[..|c|];
    assert b == s[|a| + 1..] && d == s[|c| + 1..];
  }

  lemma SplitJoined(a: string, sep: char, b: string)
    requires sep !in a
    ensures SplitFirst(a + [sep] + b, sep) == Some((a, b))
  {
    var s := a + [sep] + b;
    FindFinds(s, sep);
    var i := Find(s, sep);
    assert s[|a|] == sep;
    assert i == |a|;
    assert s[..i] == a && s[i + 1..] == b;
  }
}
