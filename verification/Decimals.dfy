/** Decimal numerals as `sprintf("%d")` writes them and `atoi` reads them. */
module Decimals {
  import opened Basics

  function Digit(d: nat): char
    requires d < 10
  {
    '0' + d as char
  }

  function Decimal(n: nat): (s: string)
    ensures s != "" && forall k | 0 <= k < |s| :: '0' <= s[k] <= '9'
  {
    if n < 10 then [Digit(n)] else Decimal(n / 10) + [Digit(n % 10)]
  }

  function ReadDigits(s: string, acc: int): int {
    if s != "" && IsDigit(s[0]) then ReadDigits(s[1..], acc * 10 + (s[0] as int - '0' as int)) else acc
  }

  /** `atoi`: blanks, a sign, and digits up to the first other byte. */
  function Atoi(s: string): int {
    if s == "" then 0
    else if IsSpace(s[0]) then Atoi(s[1..])
    else if s[0] == '-' then -ReadDigits(s[1..], 0)
    else if s[0] == '+' then ReadDigits(s[1..], 0)
    else ReadDigits(s, 0)
  }

  lemma {:induction false} ReadOneMore(s: string, c: char, acc: int)
    requires IsDigit(c) && forall k | 0 <= k < |s| :: IsDigit(s[k])
    ensures ReadDigits(s + [c], acc) == ReadDigits(s, acc) * 10 + (c as int - '0' as int)
  {
    if s == "" {
      assert s + [c] == [c] && [c][1..] == "";
    } else {
      assert (s + [c])[1..] == s[1..] + [c];
      ReadOneMore(s[1..], c, acc * 10 + (s[0] as int - '0' as int));
    }
  }

  /** A numeral reads back as its number. */
  lemma {:induction false} AtoiDecimal(n: nat)
    ensures Atoi(Decimal(n)) == n
  {
    ReadDecimal(n);
  }

  lemma {:induction false} ReadDecimal(n: nat)
    ensures ReadDigits(Decimal(n), 0) == n
  {
    if n < 10 {
      ReadOneMore("", Digit(n), 0);
      assert "" + [Digit(n)] == [Digit(n)];
    } else {
      ReadDecimal(n / 10);
      ReadOneMore(Decimal(n / 10), Digit(n % 10), 0);
    }
  }

  lemma {:induction false} ReadUpTo(s: string, rest: string, acc: int)
    requires (forall k | 0 <= k < |s| :: IsDigit(s[k])) && (rest == "" || !IsDigit(rest[0]))
    ensures ReadDigits(s + rest, acc) == ReadDigits(s, acc)
  {
    if s == "" {
      assert s + rest == rest;
    } else {
      assert (s + rest)[1..] == s[1..] + rest;
      ReadUpTo(s[1..], rest, acc * 10 + (s[0] as int - '0' as int));
    }
  }

  /** `atoi` passes over blanks, minds a sign, stops at the first byte that is no digit, and gives 0 without digits. */
  lemma {:induction false} AtoiReads(blanks: string, n: nat, rest: string)
    requires forall k | 0 <= k < |blanks| :: blanks[k] in " \t\n\r" || blanks[k] as int == 11 || blanks[k] as int == 12
    requires rest == "" || rest[0] < '0' || '9' < rest[0]
    ensures Atoi(blanks + (Decimal(n) + rest)) == n && Atoi(blanks + ("-" + (Decimal(n) + rest))) == 0 - n
    ensures Atoi(blanks + ("+" + (Decimal(n) + rest))) == n
    ensures rest == "" || (rest[0] > ' ' && rest[0] != '-' && rest[0] != '+') ==> Atoi(blanks + rest) == 0
  {
    var d := Decimal(n) + rest;
    if blanks == "" {
      AtoiSigned(n, rest);
      assert blanks + d == d && blanks + ("-" + d) == "-" + d && blanks + ("+" + d) == "+" + d && blanks + rest == rest;
    } else {
      AtoiReads(blanks[1..], n, rest);
      BlankFirst(blanks, d);
      BlankFirst(blanks, "-" + d);
      BlankFirst(blanks, "+" + d);
      BlankFirst(blanks, rest);
    }
  }

  lemma AtoiSigned(n: nat, rest: string)
    requires rest == "" || rest[0] < '0' || '9' < rest[0]
    ensures var d := Decimal(n) + rest; Atoi(d) == n && Atoi("-" + d) == 0 - n && Atoi("+" + d) == n
    ensures rest == "" || (rest[0] > ' ' && rest[0] != '-' && rest[0] != '+') ==> Atoi(rest) == 0
  {
    var d := Decimal(n) + rest;
    ReadUpTo(Decimal(n), rest, 0);
    ReadDecimal(n);
    assert d[0] == Decimal(n)[0];
    FirstByte(d);
    FirstByte("-" + d);
    FirstByte("+" + d);
    assert ("-" + d)[1..] == d && ("+" + d)[1..] == d;
  }

  /** What the first byte decides, if it is no blank. */
  lemma FirstByte(s: string)
    requires s != "" && !IsSpace(s[0])
    ensures Atoi(s) == if s[0] == '-' then -ReadDigits(s[1..], 0) else if s[0] == '+' then ReadDigits(s[1..], 0)
                       else ReadDigits(s, 0)
  {
  }

  lemma BlankFirst(blanks: string, t: string)
    requires blanks != "" && IsSpace(blanks[0])
    ensures Atoi(blanks + t) == Atoi(blanks[1..] + t)
  {
    assert (blanks + t)[1..] == blanks[1..] + t;
  }
}
