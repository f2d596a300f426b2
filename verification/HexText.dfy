/**
 The hexadecimal texts of nonces and gas limits (block-producer/src/main.rs): reading back what a formatter
 wrote, whatever prefixes, sign, zeros and letter case it chose.
 */
module HexText {
  import opened Basics
  import opened Packing

  function Digit(d: nat, upper: bool): (c: char)
    requires d < 16
    ensures IsHex(c) && HexDigit(c) == d
  {
    if upper then "0123456789ABCDEF"[d] else "0123456789abcdef"[d]
  }

  /** The digits of a number, each with a case of its own. */
  function Digits(n: nat, upper: nat -> bool): string {
    if n < 16 then [Digit(n, upper(n))] else Digits(n / 16, upper) + [Digit(n % 16, upper(n))]
  }

  function Zeros(z: nat): string { seq(z, _ => '0') }

  function Prefixed(times: nat, s: string): string {
    if times == 0 then s else "0x" + Prefixed(times - 1, s)
  }

  /** A text for `n`: any number of "0x", perhaps a sign, any number of zeros, the digits. */
  function Text(n: nat, times: nat, plus: bool, zeros: nat, upper: nat -> bool): string {
    Prefixed(times, (if plus then "+" else "") + (Zeros(zeros) + Digits(n, upper)))
  }

  lemma {:induction false} DigitsRead(n: nat, upper: nat -> bool)
    ensures Digits(n, upper) != [] && AllHex(Digits(n, upper)) && HexValue(Digits(n, upper)) == n
  {
    if n < 16 {
      assert Front([Digit(n, upper(n))]) == [];
    } else {
      DigitsRead(n / 16, upper);
      var s := Digits(n / 16, upper);
      assert Front(s + [Digit(n % 16, upper(n))]) == s;
    }
  }

  lemma {:induction false} ZerosRead(z: nat, s: string)
    requires AllHex(s)
    ensures AllHex(Zeros(z) + s) && HexValue(Zeros(z) + s) == HexValue(s)
  {
    var all := Zeros(z) + s;
    if s != [] {
      ZerosRead(z, Front(s));
      assert Front(all) == Zeros(z) + Front(s) && Last(all) == Last(s);
    } else if z > 0 {
      ZerosRead(z - 1, []);
      assert all == Zeros(z) && Front(all) == Zeros(z - 1) && Zeros(z - 1) + [] == Zeros(z - 1);
    } else {
      assert all == [];
    }
  }

  lemma {:induction false} PrefixesTrimmed(times: nat, s: string)
    requires !(|s| >= 2 && s[0] == '0' && s[1] == 'x')
    ensures TrimHex(Prefixed(times, s)) == s
  {
    if times > 0 {
      PrefixesTrimmed(times - 1, s);
      assert Prefixed(times, s)[2..] == Prefixed(times - 1, s);
    }
  }

  /** Nothing but digits after an optional sign, and at least one of them. */
  predicate IsNumber(s: string) {
    var digits := if s != [] && s[0] == '+' then s[1..] else s;
    digits != [] && AllHex(digits)
  }

  /** A number is read back from every text for it, unless it does not fit a u64; then nothing is read. */
  lemma TextRead(n: nat, times: nat, plus: bool, zeros: nat, upper: nat -> bool)
    ensures ParseHex(TrimHex(Text(n, times, plus, zeros, upper))) == if n < TWO_64 then Some(n) else None
  {
    DigitsRead(n, upper);
    ZerosRead(zeros, Digits(n, upper));
    var digits := Zeros(zeros) + Digits(n, upper);
    if plus {
      PrefixesTrimmed(times, "+" + digits);
    } else {
      assert "" + digits == digits;
      PrefixesTrimmed(times, digits);
    }
  }

  /** What packing and sorting use: the number in the text, or 21000 for gas and 0 for a nonce when there is none
      or it does not fit. */
  lemma NumbersUsed(tx: Tx, n: nat, times: nat, plus: bool, zeros: nat, upper: nat -> bool)
    ensures tx.gas == Text(n, times, plus, zeros, upper) ==> GasOf(tx) == if n < TWO_64 then n else 21000
    ensures tx.nonce == Text(n, times, plus, zeros, upper) ==> NonceOf(tx) == if n < TWO_64 then n else 0
    ensures !IsNumber(TrimHex(tx.gas)) ==> GasOf(tx) == 21000
    ensures !IsNumber(TrimHex(tx.nonce)) ==> NonceOf(tx) == 0
  {
    TextRead(n, times, plus, zeros, upper);
  }
}
