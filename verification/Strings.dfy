/** The string operations the hotkey grammar is written with. */
module Strings {
  /** The characters `str::trim` removes: Unicode White_Space. */
  predicate IsWhite(c: char) {
    || '\t' <= c <= '\r' || c == ' ' || c as int in {0x85, 0xA0, 0x1680, 0x2028, 0x2029, 0x202F, 0x205F, 0x3000}
    || 0x2000 <= c as int <= 0x200A
  }

  function TrimStart(s: string): string {
    if s != "" && IsWhite(s[0]) then TrimStart(s[1..]) else s
  }

  function TrimEnd(s: string): string {
    if s != "" && IsWhite(s[|s| - 1]) then TrimEnd(s[..|s| - 1]) else s
  }

  function Trim(s: string): string {
    TrimEnd(TrimStart(s))
  }

  function LowerChar(c: char): char {
    if 'A' <= c <= 'Z' then (c as int + 32) as char else c
  }

  function UpperChar(c: char): char {
    if 'a' <= c <= 'z' then (c as int - 32) as char else c
  }

  /** ASCII letters only. */
  function Lower(s: string): (r: string)
    ensures |r| == |s| && forall i | 0 <= i < |s| :: r[i] == LowerChar(s[i])
  {
    seq(|s|, i requires 0 <= i < |s| => LowerChar(s[i]))
  }

  function Upper(s: string): (r: string)
    ensures |r| == |s| && forall i | 0 <= i < |s| :: r[i] == UpperChar(s[i])
  {
    seq(|s|, i requires 0 <= i < |s| => UpperChar(s[i]))
  }

  function Split(s: string): (parts: seq<string>)
    ensures parts != []
  {
    if s == "" then [""]
    else if s[0] == '+' then [""] + Split(s[1..])
    else
      var rest := Split(s[1..]);
      [[s[0]] + rest[0]] + rest[1..]
  }

  function Join(parts: seq<string>): string {
    if parts == [] then "" else if |parts| == 1 then parts[0] else parts[0] + "+" + Join(parts[1..])
  }

  predicate IsDigit(c: char) {
    '0' <= c <= '9'
  }

  predicate AllDigits(s: string) {
    forall i | 0 <= i < |s| :: IsDigit(s[i])
  }

  function Number(s: string): nat
    requires AllDigits(s)
  {
    if s == "" then 0 else 10 * Number(s[..|s| - 1]) + (s[|s| - 1] as int - '0' as int)
  }

  function Digit(n: nat): (c: char)
    requires n < 10
    ensures IsDigit(c) && c as int - '0' as int == n
  {
    (n + '0' as int) as char
  }

  /** Decimal notation, for the numbers the grammar prints. */
  function Decimal(n: nat): string
    requires n < 100
  {
    if n < 10 then [Digit(n)] else [Digit(n / 10), Digit(n % 10)]
  }

  lemma DecimalReads(n: nat)
    requires n < 100
    ensures AllDigits(Decimal(n)) && Decimal(n) != "" && Number(Decimal(n)) == n
  {
    if n >= 10 {
      DigitReads(n / 10);
      assert Decimal(n)[..1] == [Digit(n / 10)];
    } else {
      DigitReads(n);
    }
  }

  lemma DigitReads(n: nat)
    requires n < 10
    ensures Number([Digit(n)]) == n
  {
    assert [Digit(n)][..0] == "";
  }

  lemma UpperOfLower(s: string)
    ensures Upper(Lower(s)) == Upper(s)
  {
  }

  predicate NoPlus(s: string) {
    forall i | 0 <= i < |s| :: s[i] != '+'
  }

  lemma {:induction false} SplitPart(p: string, rest: string)
    requires NoPlus(p)
    ensures Split(p + "+" + rest) == [p] + Split(rest)
    ensures Split(p) == [p]
  {
    if p == "" {
      assert p + "+" + rest == "+" + rest;
      assert ("+" + rest)[1..] == rest;
    } else {
      var all := p + "+" + rest;
      assert all[1..] == p[1..] + "+" + rest;
      SplitPart(p[1..], rest);
      assert [p[0]] + p[1..] == p;
    }
  }

  lemma {:induction false} SplitJoin(parts: seq<string>)
    requires parts != [] && forall i | 0 <= i < |parts| :: NoPlus(parts[i])
    ensures Split(Join(parts)) == parts
  {
    if |parts| == 1 {
      SplitPart(parts[0], "");
    } else {
      SplitPart(parts[0], Join(parts[1..]));
      SplitJoin(parts[1..]);
      assert parts == [parts[0]] + parts[1..];
    }
  }

  /** Not empty, and no white space at either end. */
  predicate Tidy(s: string) {
    s != "" && !IsWhite(s[0]) && !IsWhite(s[|s| - 1])
  }

  lemma TidyIsTrimmed(s: string)
    requires Tidy(s)
    ensures Trim(s) == s
  {
  }

  lemma {:induction false} JoinIsTidy(parts: seq<string>)
    requires parts != [] && forall i | 0 <= i < |parts| :: Tidy(parts[i])
    ensures Tidy(Join(parts))
  {
    if |parts| > 1 {
      JoinIsTidy(parts[1..]);
      var rest := Join(parts[1..]);
      var all := parts[0] + "+" + rest;
      assert all[0] == parts[0][0] && all[|all| - 1] == rest[|rest| - 1];
    }
  }

  /** The parts are what stands between the plus signs. */
  lemma {:induction false} JoinSplit(s: string)
    ensures Join(Split(s)) == s && forall i | 0 <= i < |Split(s)| :: NoPlus(Split(s)[i])
  {
    if s != "" {
      JoinSplit(s[1..]);
      var rest := Split(s[1..]);
      if s[0] == '+' {
        assert ([""] + rest)[1..] == rest;
        assert s == "+" + s[1..];
      } else {
        var parts := [[s[0]] + rest[0]] + rest[1..];
        assert s == [s[0]] + s[1..];
        if |rest| == 1 {
          assert parts == [[s[0]] + rest[0]];
        } else {
          assert parts[1..] == rest[1..];
          assert [s[0]] + (rest[0] + "+" + Join(rest[1..])) == [s[0]] + rest[0] + "+" + Join(rest[1..]);
        }
      }
    }
  }

  ghost predicate AllWhite(s: string) {
    forall i | 0 <= i < |s| :: IsWhite(s[i])
  }

  lemma {:induction false} TrimStartIs(s: string)
    ensures |TrimStart(s)| <= |s| && TrimStart(s) == s[|s| - |TrimStart(s)|..] && AllWhite(s[..|s| - |TrimStart(s)|])
    ensures TrimStart(s) != "" ==> !IsWhite(TrimStart(s)[0])
  {
    if s != "" && IsWhite(s[0]) {
      TrimStartIs(s[1..]);
    }
  }

  lemma {:induction false} TrimEndIs(s: string)
    ensures |TrimEnd(s)| <= |s| && TrimEnd(s) == s[..|TrimEnd(s)|]
    ensures forall i | |TrimEnd(s)| <= i < |s| :: IsWhite(s[i])
    ensures TrimEnd(s) != "" ==> !IsWhite(TrimEnd(s)[|TrimEnd(s)| - 1])
  {
    if s != "" && IsWhite(s[|s| - 1]) {
      TrimEndIs(s[..|s| - 1]);
    }
  }

  /** Trimming takes the white space off both ends and nothing else. */
  lemma TrimIs(s: string) returns (before: string, after: string)
    ensures s == before + Trim(s) + after && AllWhite(before) && AllWhite(after)
    ensures Trim(s) != "" ==> Tidy(Trim(s))
  {
    var start := TrimStart(s);
    TrimStartIs(s);
    TrimEndIs(start);
    before := s[..|s| - |start|];
    after := start[|Trim(s)|..];
    assert start == Trim(s) + after;
    if Trim(s) != "" {
      assert Trim(s)[0] == start[0];
    }
  }
}
