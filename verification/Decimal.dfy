/** Decimal text: printing as `%d` does and reading as strconv.Atoi does. */
module Decimal {
  import opened Machine

  predicate IsDigit(c: char) {
    '0' <= c <= '9'
  }

  function DigitOf(d: int): char
    requires 0 <= d < 10
  {
    '0' + d as char
  }

  function PrintNat(n: nat): string {
    if n < 10 then [DigitOf(n)] else PrintNat(n / 10) + [DigitOf(n % 10)]
  }

  function Print(n: int): string {
    if n < 0 then "-" + PrintNat(-n) else PrintNat(n)
  }

  /** The value of a non-empty string of digits. */
  function ReadNat(s: string): Option<nat> {
    if s == [] || !IsDigit(s[|s| - 1]) then None
    else
      var d := (s[|s| - 1] - '0') as nat;
      if |s| == 1 then Some(d)
      else
        match ReadNat(s[..|s| - 1])
        case None => None
        case Some(front) => Some(10 * front + d)
  }

  function Signed(magnitude: Option<int>, negative: bool): Option<int> {
    match magnitude
    case None => None
    case Some(n) => if negative then Some(-n) else Some(n)
  }

  /** An optionally signed decimal, of any size. */
  function ReadInt(s: string): Option<int> {
    if s != [] && (s[0] == '-' || s[0] == '+') then Signed(ReadNat(s[1..]), s[0] == '-') else Signed(ReadNat(s), false)
  }

  predicate InInt64(n: int) {
    -0x8000_0000_0000_0000 <= n < 0x8000_0000_0000_0000
  }

  /** strconv.Atoi on a 64-bit platform: a syntax or a range error is None. */
  function Atoi(s: string): Option<Int64> {
    match ReadInt(s)
    case None => None
    case Some(n) => if InInt64(n) then Some(n) else None
  }

  lemma {:induction false} ReadPrintedNat(n: nat)
    ensures ReadNat(PrintNat(n)) == Some(n)
    ensures PrintNat(n) != [] && forall i :: 0 <= i < |PrintNat(n)| ==> IsDigit(PrintNat(n)[i])
  {
    if n < 10 {
    } else {
      ReadPrintedNat(n / 10);
      var s := PrintNat(n);
      assert s[..|s| - 1] == PrintNat(n / 10);
    }
  }

  /** Reading inverts printing on every integer. */
  lemma ReadPrinted(n: int)
    ensures ReadInt(Print(n)) == Some(n)
  {
    if n < 0 {
      ReadPrintedNat(-n);
      assert Print(n)[1..] == PrintNat(-n);
    } else {
      ReadPrintedNat(n);
    }
  }

  lemma PrintedHasNoColon(n: int)
    ensures ':' !in Print(n)
  {
    ReadPrintedNat(if n < 0 then -n else n);
  }

  lemma {:induction false} PrintedNatIsCanonical(n: nat)
    ensures var s := PrintNat(n);
            && s != [] && (forall i :: 0 <= i < |s| ==> '0' <= s[i] <= '9')
            && (|s| > 1 ==> s[0] != '0')
            && (s[0] == '0' <==> n == 0)
  {
    if n < 10 {
    } else {
      PrintedNatIsCanonical(n / 10);
    }
  }

  /** The text of `%d`: a minus sign exactly for negative numbers, then digits without a superfluous zero. */
  lemma PrintIsCanonical(n: int)
    ensures var s := Print(n);
            var digits := if n < 0 then s[1..] else s;
            && (n < 0 <==> s[..1] == "-")
            && digits != [] && (forall i :: 0 <= i < |digits| ==> '0' <= digits[i] <= '9')
            && (digits[0] == '0' ==> digits == "0" && n == 0)
  {
    PrintedNatIsCanonical(if n < 0 then -n else n);
    if n < 0 {
      assert Print(n)[1..] == PrintNat(-n);
    } else if n == 0 {
      assert PrintNat(0) == "0";
    }
  }

  /** What is read: an optional sign and one or more digits, leading zeros included. */
  lemma {:induction false} DigitsAreRead(s: string)
    ensures ReadNat(s).Some? <==> s != [] && forall i :: 0 <= i < |s| ==> '0' <= s[i] <= '9'
    ensures ReadNat(s).Some? ==> ReadNat("0" + s) == ReadNat(s)
  {
    if s == [] {
    } else {
      var front := s[..|s| - 1];
      DigitsAreRead(front);
      assert forall i :: 0 <= i < |front| ==> front[i] == s[i];
      assert ("0" + s)[..|s|] == "0" + front;
      assert "0" + [] == "0";
    }
  }

  lemma SignsAreRead(s: string)
    requires ReadNat(s).Some?
    ensures ReadInt(s) == ReadInt("+" + s) == ReadNat(s)
    ensures var n: int := ReadNat(s).value; ReadInt("-" + s) == Some(-n)
    ensures ReadInt("") == ReadInt("+") == ReadInt("-") == None
  {
    DigitsAreRead(s);
    assert ("+" + s)[1..] == s && ("-" + s)[1..] == s;
  }

  /** No text that reads as an integer contains a colon. */
  lemma ReadHasNoColon(s: string)
    requires ReadInt(s).Some?
    ensures ':' !in s
  {
    DigitsAreRead(s);
    if s != [] && (s[0] == '-' || s[0] == '+') {
      DigitsAreRead(s[1..]);
      assert s == [s[0]] + s[1..];
    }
  }
}
