/**
 The WAL key of a segment: `t_<topic>_s_<segment>`
 (distributed-walrus/src/controller/types.rs).
 */
module WalKeys {
  import opened Basics

  const SEPARATOR: string := "_s_"

  function Digit(d: nat): char
    requires d < 10
  {
    ('0' as int + d) as char
  }

  predicate IsDigit(c: char) { '0' <= c <= '9' }

  predicate AllDigits(s: string) { forall i :: 0 <= i < |s| ==> IsDigit(s[i]) }

  /** Decimal text of a number, as `{}` formats an unsigned integer. */
  function Decimal(n: nat): string {
    if n < 10 then [Digit(n)] else Decimal(n / 10) + [Digit(n % 10)]
  }

  /** The number a string of digits denotes. */
  function Value(s: string): nat
    requires AllDigits(s)
  {
    if s == [] then 0
    else
      assert IsDigit(s[|s| - 1]);
      10 * Value(Front(s)) + (Last(s) as int - '0' as int)
  }

  function WalKey(topic: string, segment: nat): string {
    "t_" + topic + SEPARATOR + Decimal(segment)
  }

  predicate SeparatorAt(s: string, i: nat) {
    i + 3 <= |s| && s[i] == '_' && s[i + 1] == 's' && s[i + 2] == '_'
  }

  /** The rightmost separator starting at or before `i`: `rsplitn` searches from the right. */
  function LastSeparator(s: string, i: nat): (r: Option<nat>)
    ensures r.Some? ==> r.value <= i && SeparatorAt(s, r.value)
    ensures forall j: nat :: j <= i && SeparatorAt(s, j) ==> r.Some? && j <= r.value
  {
    if SeparatorAt(s, i) then Some(i)
    else if i == 0 then None
    else LastSeparator(s, i - 1)
  }

  /** The two halves of `rsplitn(2, "_s_")` with the `t_` prefix taken off the left one. */
  function SplitKey(key: string): Option<(string, string)> {
    match LastSeparator(key, |key|)
    case None => None
    case Some(i) =>
      if 2 <= i && key[0] == 't' && key[1] == '_' then Some((key[2..i], key[i + 3..])) else None
  }

  /** `str::parse::<u64>`: an optional plus sign, at least one digit, no overflow. */
  function ParseU64(s: string): Option<nat> {
    var digits := if s != [] && s[0] == '+' then s[1..] else s;
    if digits == [] || !AllDigits(digits) || Value(digits) >= TWO_64 then None else Some(Value(digits))
  }

  function ParseWalKey(key: string): Option<(string, nat)> {
    match SplitKey(key)
    case None => None
    case Some((topic, digits)) =>
      match ParseU64(digits)
      case None => None
      case Some(segment) => Some((topic, segment))
  }

  lemma {:induction false} DecimalReads(n: nat)
    ensures Decimal(n) != [] && AllDigits(Decimal(n)) && Value(Decimal(n)) == n
  {
    if n < 10 {
      assert Front([Digit(n)]) == [];
    } else {
      DecimalReads(n / 10);
      assert Front(Decimal(n)) == Decimal(n / 10);
    }
  }

  /** The text of one key. */
  lemma KeyText()
    ensures WalKey("logs", 107) == "t_logs_s_107"
  {
    assert Decimal(10) == "10" && Decimal(107) == "107";
  }

  /** A digit string without a superfluous leading zero. */
  predicate Canonical(s: string) {
    s != [] && AllDigits(s) && (s[0] != '0' || |s| == 1)
  }

  lemma {:induction false} DecimalIsCanonical(n: nat)
    ensures Canonical(Decimal(n)) && (n > 0 ==> Decimal(n)[0] != '0')
  {
    DecimalReads(n);
    if n >= 10 {
      DecimalIsCanonical(n / 10);
    }
  }

  lemma {:induction false} CanonicalIsDecimal(s: string)
    requires Canonical(s)
    ensures Decimal(Value(s)) == s
  {
    if |s| == 1 {
      assert Front(s) == [];
    } else {
      var f := Front(s);
      assert Canonical(f);
      CanonicalIsDecimal(f);
      DecimalIsCanonical(Value(f));
      assert f[0] != '0';
      assert Value(f) > 0;
      assert IsDigit(Last(s));
      assert s == f + [Last(s)];
    }
  }

  /** A separator followed by digits alone is the last one. */
  lemma SplitParts(topic: string, digits: string, key: string)
    requires AllDigits(digits) && key == "t_" + topic + SEPARATOR + digits
    ensures SplitKey(key) == Some((topic, digits))
  {
    var at := 2 + |topic|;
    assert key[at..at + 3] == SEPARATOR && key[at + 3..] == digits && key[2..at] == topic;
    assert SeparatorAt(key, at);
    forall j: nat | at < j ensures !SeparatorAt(key, j) {
      assert at + 3 <= j < |key| ==> IsDigit(digits[j - at - 3]);
    }
  }

  /** The separator the formatter wrote is the one the parser finds, whatever the topic contains. */
  lemma SplitWalKey(topic: string, segment: nat)
    ensures SplitKey(WalKey(topic, segment)) == Some((topic, Decimal(segment)))
  {
    DecimalReads(segment);
    SplitParts(topic, Decimal(segment), WalKey(topic, segment));
  }

  /** Splitting loses nothing. */
  lemma PartsOfKey(key: string)
    requires SplitKey(key).Some?
    ensures key == "t_" + SplitKey(key).value.0 + SEPARATOR + SplitKey(key).value.1
  {
    var at := LastSeparator(key, |key|).value;
    assert key[..2] == "t_" && key[at..at + 3] == SEPARATOR;
    assert key == key[..2] + key[2..at] + key[at..at + 3] + key[at + 3..];
  }

  lemma RoundTrip(topic: string, segment: nat)
    requires segment < TWO_64
    ensures ParseWalKey(WalKey(topic, segment)) == Some((topic, segment))
  {
    SplitWalKey(topic, segment);
    DecimalReads(segment);
    assert IsDigit(Decimal(segment)[0]);
  }

  /** Distinct (topic, segment) pairs never share a key, hence never share a lease or a WAL. */
  lemma WalKeyInjective(t1: string, s1: nat, t2: string, s2: nat)
    requires WalKey(t1, s1) == WalKey(t2, s2)
    ensures t1 == t2 && s1 == s2
  {
    SplitWalKey(t1, s1);
    SplitWalKey(t2, s2);
    DecimalReads(s1);
    DecimalReads(s2);
  }

  /** A foreign key that parses is the key the formatter writes exactly when its number is canonical. */
  lemma ReformatIff(key: string)
    requires ParseWalKey(key).Some?
    ensures var (topic, segment) := ParseWalKey(key).value;
            WalKey(topic, segment) == key <==> Canonical(SplitKey(key).value.1)
  {
    var (topic, digits) := SplitKey(key).value;
    var segment := ParseU64(digits).value;
    PartsOfKey(key);
    if Canonical(digits) {
      CanonicalIsDecimal(digits);
    }
    if WalKey(topic, segment) == key {
      SplitWalKey(topic, segment);
      DecimalIsCanonical(segment);
    }
  }
}
