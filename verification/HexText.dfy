/** The hexadecimal text of a reply: byte strings and quantities, each accepted in one spelling up to case. */
module HexText {
  import opened Outcomes
  import opened EthLogs

  type Nibble = n: int | 0 <= n < 16

  predicate IsHex(c: char) {
    '0' <= c <= '9' || 'a' <= c <= 'f' || 'A' <= c <= 'F'
  }

  ghost predicate AllHex(text: string) {
    forall i :: 0 <= i < |text| ==> IsHex(text[i])
  }

  function Digit(c: char): Nibble
    requires IsHex(c)
  {
    if c <= '9' then c as int - '0' as int
    else if c <= 'F' then c as int - 'A' as int + 10
    else c as int - 'a' as int + 10
  }

  function HexDigit(n: Nibble): char {
    if n < 10 then ('0' as int + n) as char else ('a' as int + n - 10) as char
  }

  function Lower(text: string): string {
    seq(|text|, i requires 0 <= i < |text| => LowerChar(text[i]))
  }

  function LowerChar(c: char): char {
    if 'A' <= c <= 'Z' then (c as int + 32) as char else c
  }

  lemma DigitSpelling(c: char)
    requires IsHex(c)
    ensures HexDigit(Digit(c)) == LowerChar(c)
  {
  }

  lemma DigitRoundTrip(n: Nibble)
    ensures IsHex(HexDigit(n)) && Digit(HexDigit(n)) == n
  {
  }

  // ---------------------------------------------------------------- byte strings

  /** The digits after the prefix, if the text has the prefix and nothing but digits after it. */
  function Digits(text: string): Option<string> {
    if |text| >= 2 && text[0] == '0' && text[1] == 'x' && (forall i :: 2 <= i < |text| ==> IsHex(text[i]))
    then Some(text[2..]) else None
  }

  function HexBytes(text: string): Result<seq<Byte>, DecodeError> {
    var digits := Digits(text);
    if digits.None? || |digits.value| % 2 != 0 then Err(NotHexWords) else Ok(Pairs(digits.value))
  }

  function Pairs(digits: string): (bs: seq<Byte>)
    requires AllHex(digits) && |digits| % 2 == 0
  {
    if digits == [] then [] else [16 * Digit(digits[0]) + Digit(digits[1])] + Pairs(digits[2..])
  }

  function Spell(bs: seq<Byte>): string {
    if bs == [] then [] else [HexDigit(bs[0] / 16), HexDigit(bs[0] % 16)] + Spell(bs[1..])
  }

  /** The lower-case text of a byte string. */
  function HexOf(bs: seq<Byte>): string {
    "0x" + Spell(bs)
  }

  lemma {:induction false} SpellPairs(bs: seq<Byte>)
    ensures AllHex(Spell(bs)) && |Spell(bs)| == 2 * |bs| && Pairs(Spell(bs)) == bs
  {
    if bs != [] {
      SpellPairs(bs[1..]);
      DigitRoundTrip(bs[0] / 16);
      DigitRoundTrip(bs[0] % 16);
      assert Spell(bs)[2..] == Spell(bs[1..]);
    }
  }

  lemma {:induction false} PairsSpelled(digits: string)
    requires AllHex(digits) && |digits| % 2 == 0
    ensures Spell(Pairs(digits)) == Lower(digits)
  {
    if digits != [] {
      PairsSpelled(digits[2..]);
      DigitSpelling(digits[0]);
      DigitSpelling(digits[1]);
      var bs := Pairs(digits);
      assert bs[0] / 16 == Digit(digits[0]) && bs[0] % 16 == Digit(digits[1]) && bs[1..] == Pairs(digits[2..]);
      assert Lower(digits) == [LowerChar(digits[0]), LowerChar(digits[1])] + Lower(digits[2..]);
    }
  }

  /** Every byte string is read back from its text, and every text that is accepted is spelled that way up to case. */
  lemma HexRoundTrip(bs: seq<Byte>, text: string)
    ensures HexBytes(HexOf(bs)) == Ok(bs)
    ensures HexBytes(text) == Ok(bs) <==> Lower(text) == HexOf(bs) && Digits(text).Some?
  {
    SpellPairs(bs);
    assert HexOf(bs)[2..] == Spell(bs);
    if digits: string :| Digits(text) == Some(digits) {
      assert Lower(text) == "0x" + Lower(digits);
      assert Lower(text)[2..] == Lower(digits) && HexOf(bs)[2..] == Spell(bs);
      if |digits| % 2 == 0 {
        PairsSpelled(digits);
        if Lower(digits) == Spell(bs) {
          SpellPairs(Pairs(digits));
        }
      } else {
        assert |Lower(digits)| == |digits| && |Spell(bs)| == 2 * |bs|;
      }
    }
  }

  /** The ABI words of a data field as it arrives. */
  function TextWords(text: string): Result<seq<Word>, DecodeError> {
    var bs :- HexBytes(text);
    Words(bs)
  }

  /** Every accepted data text is the encoding of the words read from it, up to the case of its digits. */
  lemma DataTextRoundTrip(text: string)
    requires TextWords(text).Ok?
    ensures HexOf(JoinWords(TextWords(text).value)) == Lower(text)
  {
    var bs := HexBytes(text).value;
    DataRoundTrip(bs);
    HexRoundTrip(bs, text);
  }

  // ---------------------------------------------------------------- quantities

  /** A number without leading zeros. */
  function Quantity(text: string): Option<nat> {
    var digits := Digits(text);
    if digits.None? || digits.value == "" || (digits.value[0] == '0' && digits.value != "0") then None
    else Some(Number(digits.value))
  }

  function Number(digits: string): nat
    requires AllHex(digits)
  {
    if digits == [] then 0 else 16 * Number(digits[..|digits| - 1]) + Digit(digits[|digits| - 1])
  }

  function SpellNumber(n: nat): string {
    if n == 0 then "" else SpellNumber(n / 16) + [HexDigit(n % 16)]
  }

  function QuantityOf(n: nat): string {
    if n == 0 then "0x0" else "0x" + SpellNumber(n)
  }

  lemma {:induction false} SpelledNumber(n: nat)
    ensures AllHex(SpellNumber(n)) && Number(SpellNumber(n)) == n
    ensures n > 0 ==> SpellNumber(n) != "" && SpellNumber(n)[0] != '0'
  {
    if n > 0 {
      SpelledNumber(n / 16);
      DigitRoundTrip(n % 16);
      var s := SpellNumber(n);
      assert s[..|s| - 1] == SpellNumber(n / 16);
    }
  }

  lemma {:induction false} NumberSpelled(digits: string)
    requires AllHex(digits) && digits != "" && digits[0] != '0'
    ensures Number(digits) > 0 && SpellNumber(Number(digits)) == Lower(digits)
  {
    var front, last := digits[..|digits| - 1], digits[|digits| - 1];
    DigitSpelling(last);
    if front == "" {
      assert SpellNumber(0) == "";
    } else {
      NumberSpelled(front);
    }
    assert Number(digits) / 16 == Number(front) && Number(digits) % 16 == Digit(last);
    assert Lower(digits) == Lower(front) + [LowerChar(last)];
  }

  /** Every number is read back from its text, and every text that is accepted is spelled that way up to case. */
  lemma QuantityRoundTrip(n: nat, text: string)
    ensures Quantity(QuantityOf(n)) == Some(n)
    ensures Quantity(text) == Some(n) <==> Lower(text) == QuantityOf(n) && Digits(text).Some?
  {
    QuantityRead(n);
    hide QuantityOf;
    if Digits(text).Some? {
      QuantitySpelled(n, text);
    }
  }

  lemma QuantityRead(n: nat)
    ensures Quantity(QuantityOf(n)) == Some(n)
  {
    SpelledNumber(n);
    var text, digits := QuantityOf(n), if n == 0 then "0" else SpellNumber(n);
    assert text[2..] == digits;
    assert Digits(text) == Some(digits);
    if n == 0 {
      assert Number("0") == 16 * Number("0"[..0]) + Digit('0');
    }
  }

  lemma QuantitySpelled(n: nat, text: string)
    requires Digits(text).Some?
    ensures Quantity(text) == Some(n) <==> Lower(text) == QuantityOf(n)
  {
    var digits := Digits(text).value;
    assert Lower(text) == "0x" + Lower(digits);
    assert Lower(text)[2..] == Lower(digits);
    hide Lower, SpellNumber, Number;
    assert QuantityOf(n)[2..] == if n == 0 then "0" else SpellNumber(n);
    if digits == "" || digits[0] == '0' {
      LeadingZero(n, digits);
    } else {
      DigitsOf(n, digits);
    }
  }

  lemma DigitsOf(n: nat, digits: string)
    requires AllHex(digits) && digits != "" && digits[0] != '0'
    ensures Number(digits) == n <==> n > 0 && Lower(digits) == SpellNumber(n)
    ensures Lower(digits) != "0"
  {
    NumberSpelled(digits);
    SpelledNumber(Number(digits));
    assert Lower(digits)[0] != '0';
    if n > 0 && Lower(digits) == SpellNumber(n) {
      SpelledNumber(n);
    }
  }

  lemma LeadingZero(n: nat, digits: string)
    requires AllHex(digits) && (digits == "" || digits[0] == '0')
    ensures n > 0 ==> Lower(digits) != SpellNumber(n)
    ensures Lower(digits) == "0" <==> digits == "0"
    ensures digits == "0" ==> Number(digits) == 0
  {
    SpelledNumber(n);
    assert |Lower(digits)| == |digits| && (digits != "" ==> Lower(digits)[0] == '0');
    assert digits == "0" <==> |digits| == 1;
  }
}
