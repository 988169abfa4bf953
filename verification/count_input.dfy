/** The transaction-count prompt at the string level. The answer is checked
    through `Number(answer)` (a number, an integer, positive) but the count
    then used is `parseInt(answer, 10)`. Only integer literals that start
    with a digit and stay below 2^53 are modelled here: plain decimal digits
    and `0x`/`0X` hexadecimal, where `Number` is exact. On such strings the
    two readings agree for decimals and part ways for hexadecimal. */
module CountInput {
  import opened Wrappers
  import Search
  import Session

  const ExactLimit: nat := 0x20_0000_0000_0000  // 2^53

  predicate IsDigit(c: char) { '0' <= c <= '9' }

  predicate IsHexDigit(c: char) { IsDigit(c) || 'a' <= c <= 'f' || 'A' <= c <= 'F' }

  function HexDigitValue(c: char): (d: nat)
    requires IsHexDigit(c)
    ensures d < 16
    ensures IsDigit(c) ==> d == c as int - '0' as int
  {
    if IsDigit(c) then c as int - '0' as int
    else if 'a' <= c <= 'f' then c as int - 'a' as int + 10
    else c as int - 'A' as int + 10
  }

  predicate AllDigits(s: string) { forall i :: 0 <= i < |s| ==> IsDigit(s[i]) }

  predicate AllHexDigits(s: string) { forall i :: 0 <= i < |s| ==> IsHexDigit(s[i]) }

  /** The value of a digit string read in `base` (10 or 16). */
  function ValueIn(s: string, base: nat): nat
    requires base == 10 || base == 16
    requires AllHexDigits(s)
  {
    if |s| == 0 then 0 else ValueIn(s[..|s| - 1], base) * base + HexDigitValue(s[|s| - 1])
  }

  /** The hexadecimal literal form `0x...` / `0X...`. */
  predicate IsHexLiteral(s: string)
  {
    |s| >= 3 && s[0] == '0' && (s[1] == 'x' || s[1] == 'X') && AllHexDigits(s[2..])
  }

  /** `Number(s)` on the modelled literals; `None` for every other string,
      about which nothing is claimed. */
  function NumberOf(s: string): (v: Option<nat>)
    ensures v.Some? ==> v.value < ExactLimit
    ensures v.Some? ==> (|s| >= 1 && AllDigits(s)) || IsHexLiteral(s)
  {
    if |s| >= 1 && AllDigits(s) && ValueIn(s, 10) < ExactLimit then Some(ValueIn(s, 10))
    else if IsHexLiteral(s) && ValueIn(s[2..], 16) < ExactLimit then Some(ValueIn(s[2..], 16))
    else None
  }

  /** The digit character for `d`, lower-case above nine. */
  function DigitChar(d: nat): (c: char)
    requires d < 16
    ensures IsHexDigit(c) && HexDigitValue(c) == d
    ensures d < 10 ==> IsDigit(c)
  {
    if d < 10 then ('0' as int + d) as char else ('a' as int + d - 10) as char
  }

  /** The numeral of `n` in `base`, without leading zeros. */
  function Numeral(n: nat, base: nat): (s: string)
    requires base == 10 || base == 16
    ensures |s| >= 1 && AllHexDigits(s)
    ensures base == 10 ==> AllDigits(s)
    decreases n
  {
    if n < base then [DigitChar(n)] else Numeral(n / base, base) + [DigitChar(n % base)]
  }

  /** Reading a numeral back gives the number it was written from. */
  lemma {:induction false} NumeralReadsBack(n: nat, base: nat)
    requires base == 10 || base == 16
    ensures ValueIn(Numeral(n, base), base) == n
    decreases n
  {
    var s := Numeral(n, base);
    if n < base {
      assert s[..0] == [];
    } else {
      NumeralReadsBack(n / base, base);
      assert s[..|s| - 1] == Numeral(n / base, base);
    }
  }

  /** `Number` reads the decimal numeral of `n` and `0x` followed by its
      hexadecimal numeral as exactly `n`, for every `n` below 2^53. */
  lemma NumberOfNumerals(n: nat)
    requires n < ExactLimit
    ensures NumberOf(Numeral(n, 10)) == Some(n)
    ensures NumberOf("0x" + Numeral(n, 16)) == Some(n)
  {
    NumeralReadsBack(n, 10);
    NumeralReadsBack(n, 16);
    var h := "0x" + Numeral(n, 16);
    assert h[2..] == Numeral(n, 16);
    assert !IsDigit(h[1]);
  }

  /** The count gate on a modelled literal. Every modelled literal is an
      integer, so only positivity remains to check. */
  predicate CountGate(s: string)
  {
    NumberOf(s).Some? && NumberOf(s).value > 0
  }

  /** The length of the leading run of decimal digits. */
  function DigitPrefixLength(s: string): (k: nat)
    ensures k <= |s| && AllDigits(s[..k])
    ensures k < |s| ==> !IsDigit(s[k])
  {
    if |s| == 0 || !IsDigit(s[0]) then 0
    else
      var k := 1 + DigitPrefixLength(s[1..]);
      assert s[..k] == [s[0]] + s[1..][..k - 1];
      k
  }

  /** `parseInt(s, 10)` for a string that starts with a digit: the value of
      its leading decimal digits; reading stops at the first other character. */
  function ParseInt10(s: string): nat
    requires |s| >= 1 && IsDigit(s[0])
  {
    ValueIn(s[..DigitPrefixLength(s)], 10)
  }

  /** The count as the source computes it once the gate has passed. */
  function ParsedCount(s: string): nat
    requires CountGate(s)
  {
    ParseInt10(s)
  }

  /** On a plain decimal answer the count used is the value the gate checked. */
  lemma ParsedCountOfDecimal(s: string)
    requires CountGate(s) && AllDigits(s)
    ensures ParsedCount(s) == NumberOf(s).value
  {
    DecimalPrefixWhole(s);
    assert s[..|s|] == s;
  }

  /** On a hexadecimal answer the count used is zero, whatever the gate checked. */
  lemma ParsedCountOfHex(s: string)
    requires CountGate(s) && IsHexLiteral(s)
    ensures ParsedCount(s) == 0
  {
    HexPrefixIsZero(s);
  }

  /** A string of digits is read to its end. */
  lemma {:induction false} DecimalPrefixWhole(s: string)
    requires |s| >= 1 && AllDigits(s)
    ensures DigitPrefixLength(s) == |s|
    decreases |s|
  {
    if |s| > 1 {
      DecimalPrefixWhole(s[1..]);
    }
  }

  /** Reading `0x...` in base 10 stops at the `x`, after the digit `0`. */
  lemma HexPrefixIsZero(s: string)
    requires IsHexLiteral(s)
    ensures DigitPrefixLength(s) == 1 && ParseInt10(s) == 0
  {
    assert ValueIn(s[..1], 10) == ValueIn([], 10) * 10 + HexDigitValue('0');
  }

  /** The answer `0x10` passes the gate as sixteen, but the count used is zero:
      the batch loop runs no transfer. */
  lemma HexAnswerRunsNothing()
    ensures CountGate("0x10") && NumberOf("0x10") == Some(16)
    ensures ParsedCount("0x10") == 0
  {
    var s := "0x10";
    assert s[2..] == "10";
    assert ValueIn("10", 16) == ValueIn("1", 16) * 16 + 0;
    assert ValueIn("1", 16) == ValueIn("", 16) * 16 + 1;
    assert !IsDigit(s[1]);
    ParsedCountOfHex(s);
  }

  /** On a modelled literal the string-level gate is the gate the session
      applies to the parsed value. */
  lemma GateAgreesWithSession(s: string)
    requires NumberOf(s).Some?
    ensures CountGate(s) <==> Session.ValidCount(Some(NumberOf(s).value as real))
  {
  }

  /** The corrected reading: the session takes the value the gate checked as
      the count, so an answer `s` given at the count prompt yields a count of
      `Number(s)`, at least one, which `Session.RunTransfer` gives the batch.
      For `0x10` that is sixteen transfers where the code as written runs none. */
  lemma SessionCountIsGateValue(s: string, answers: Session.Answers, isAddress: string -> bool,
                                draw: nat -> Option<nat>)
    requires CountGate(s)
    requires answers.counts == [Some(NumberOf(s).value as real)]
    requires Session.ReadConfig(answers, isAddress, draw).Ready?
    ensures Session.ReadConfig(answers, isAddress, draw).count == NumberOf(s).value >= 1
    ensures s == "0x10" ==> Session.ReadConfig(answers, isAddress, draw).count == 16
  {
    var c := Session.ReadConfig(answers, isAddress, draw);
    var i: nat :| Search.IsFirst(answers.counts, Session.ValidCount, i) && c.count as real == answers.counts[i].value;
    assert i == 0;
    if s == "0x10" {
      HexAnswerRunsNothing();
    }
  }
}
