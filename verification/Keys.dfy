/** The section keys of persistence.go: nodes under hexadecimal addresses, devices under decimal sub-identifiers. */
module Keys {
  import opened Wrappers

  const ADDRESS_LIMIT: nat := 0x1_0000_0000_0000_0000
  const INT_LIMIT: nat := 0x8000_0000_0000_0000

  type Ieee = a: nat | a < ADDRESS_LIMIT
  type Byte = n: nat | n < 256

  function DigitChar(d: nat): char
    requires d < 16
  {
    "0123456789abcdef"[d]
  }

  function DigitValue(c: char): Option<nat> {
    if '0' <= c <= '9' then Some((c as int - '0' as int) as nat)
    else if 'a' <= c <= 'f' then Some((c as int - 'a' as int + 10) as nat)
    else if 'A' <= c <= 'F' then Some((c as int - 'A' as int + 10) as nat)
    else None
  }

  /** The number written in `s`, or None when some character is not a digit of the base. */
  function Digits(s: string, base: nat): Option<nat> {
    if s == [] then Some(0) else
      var high, low := Digits(s[..|s| - 1], base), DigitValue(s[|s| - 1]);
      if high.Some? && low.Some? && low.value < base then Some(high.value * base + low.value) else None
  }

  /** `strconv.ParseUint(k, 16, 64)`. */
  function ParseHex(k: string): Option<Ieee> {
    if k == [] || Digits(k, 16).None? || Digits(k, 16).value >= ADDRESS_LIMIT then None
    else Some(Digits(k, 16).value)
  }

  predicate IsSign(c: char) {
    c == '+' || c == '-'
  }

  /** `strconv.Atoi`, with its optional sign. */
  function ParseInt(k: string): Option<int> {
    var negative, signed := k != [] && k[0] == '-', k != [] && IsSign(k[0]);
    var digits := if signed then k[1..] else k;
    if digits == [] || Digits(digits, 10).None? then None else
      var value: int := Digits(digits, 10).value;
      if negative then if value <= INT_LIMIT then Some(-value) else None
      else if value < INT_LIMIT then Some(value) else None
  }

  /** The sub-identifier read from a key: the integer truncated to eight bits. */
  function ParseSubId(k: string): Option<Byte> {
    if ParseInt(k).None? then None else Some(ParseInt(k).value % 256)
  }

  function Padded(n: nat, width: nat): string {
    if width == 0 then [] else Padded(n / 16, width - 1) + [DigitChar(n % 16)]
  }

  function Decimal(n: nat): string {
    (if n < 10 then [] else Decimal(n / 10)) + [DigitChar(n % 10)]
  }

  function Power16(e: nat): nat {
    if e == 0 then 1 else 16 * Power16(e - 1)
  }

  lemma DigitsSnoc(s: string, d: nat, base: nat)
    requires d < base <= 16 && Digits(s, base).Some?
    ensures Digits(s + [DigitChar(d)], base) == Some(Digits(s, base).value * base + d)
  {
    assert (s + [DigitChar(d)])[..|s|] == s;
    assert DigitValue(DigitChar(d)) == Some(d);
  }

  lemma {:induction false} PaddedParses(n: nat, width: nat)
    requires n < Power16(width)
    ensures |Padded(n, width)| == width && Digits(Padded(n, width), 16) == Some(n)
  {
    if width > 0 {
      Sixteenth(n, Power16(width - 1));
      PaddedParses(n / 16, width - 1);
      PaddedSnoc(n, width);
    }
  }

  lemma Sixteenth(n: nat, p: nat)
    requires n < 16 * p
    ensures n / 16 < p
  {
  }

  lemma PaddedSnoc(n: nat, width: nat)
    requires width > 0
    requires |Padded(n / 16, width - 1)| == width - 1 && Digits(Padded(n / 16, width - 1), 16) == Some(n / 16)
    ensures |Padded(n, width)| == width && Digits(Padded(n, width), 16) == Some(n)
  {
    var high := Padded(n / 16, width - 1);
    assert Padded(n, width) == high + [DigitChar(n % 16)];
    DigitsSnoc(high, n % 16, 16);
  }

  lemma {:induction false} DecimalParses(n: nat)
    ensures Decimal(n) != [] && Digits(Decimal(n), 10) == Some(n) && !IsSign(Decimal(n)[0])
  {
    if n < 10 {
      DigitsSnoc([], n, 10);
      assert Decimal(n) == [] + [DigitChar(n)];
    } else {
      DecimalParses(n / 10);
      DecimalSnoc(n);
    }
  }

  lemma DecimalSnoc(n: nat)
    requires n >= 10
    requires Decimal(n / 10) != [] && Digits(Decimal(n / 10), 10) == Some(n / 10) && !IsSign(Decimal(n / 10)[0])
    ensures Decimal(n) != [] && Digits(Decimal(n), 10) == Some(n) && !IsSign(Decimal(n)[0])
  {
    var high := Decimal(n / 10);
    assert Decimal(n) == high + [DigitChar(n % 10)];
    DigitsSnoc(high, n % 10, 10);
  }

  /** The key of a node's section: sixteen hexadecimal digits, which the loader's parse inverts. */
  function NodeKey(a: Ieee): (k: string)
    ensures ParseHex(k) == Some(a)
  {
    assert Power16(16) == ADDRESS_LIMIT by {
      assert Power16(4) == 0x1_0000 && Power16(8) == 0x1_0000_0000 && Power16(12) == 0x1_0000_0000_0000;
    }
    PaddedParses(a, 16);
    Padded(a, 16)
  }

  /** The key of a device's section: its sub-identifier in decimal, which the loader's parse inverts. */
  function DeviceKey(s: Byte): (k: string)
    ensures ParseInt(k) == Some(s) && ParseSubId(k) == Some(s)
  {
    DecimalKeyParses(s);
    Decimal(s)
  }

  lemma DecimalKeyParses(n: nat)
    requires n < INT_LIMIT
    ensures ParseInt(Decimal(n)) == Some(n)
  {
    DecimalParses(n);
  }

  lemma DivideTwice(n: nat, p: nat)
    requires p > 0
    ensures n / 16 / p == n / (16 * p)
  {
    var q, r := n / 16 / p, n / 16 % p;
    assert n / 16 == q * p + r;
    assert n == 16 * (q * p + r) + n % 16;
    Quotient(n, 16 * p, q, 16 * r + n % 16);
  }

  lemma Quotient(n: nat, d: nat, q: nat, r: nat)
    requires r < d && n == q * d + r
    ensures n / d == q
  {
    var k := n / d;
    assert n == k * d + n % d;
    TimesMonotone(k + 1, q, d);
    TimesMonotone(q + 1, k, d);
  }

  lemma TimesMonotone(a: nat, b: nat, d: nat)
    ensures a <= b ==> a * d <= b * d
  {
  }

  lemma {:induction false} PaddedAt(n: nat, width: nat, j: nat)
    requires j < width
    ensures Power16(width - 1 - j) > 0 && |Padded(n, width)| == width
    ensures Padded(n, width)[j] == DigitChar(n / Power16(width - 1 - j) % 16)
  {
    if j == width - 1 {
      PaddedLength(n, width);
    } else {
      PaddedAt(n / 16, width - 1, j);
      DivideTwice(n, Power16(width - 2 - j));
    }
  }

  lemma {:induction false} PaddedLength(n: nat, width: nat)
    ensures |Padded(n, width)| == width
  {
    if width > 0 { PaddedLength(n / 16, width - 1); }
  }

  /** A node's key is its address in sixteen lower-case hexadecimal digits, the most significant first. */
  lemma NodeKeyDigits(a: Ieee, j: nat)
    requires j < 16
    ensures |NodeKey(a)| == 16 && Power16(15 - j) > 0
    ensures NodeKey(a)[j] == "0123456789abcdef"[a / Power16(15 - j) % 16]
  {
    PaddedAt(a, 16, j);
  }

  lemma DecimalChar(d: nat)
    requires d < 10
    ensures DigitChar(d) == "0123456789"[d]
  {
  }

  lemma DecimalMore(n: nat)
    requires n >= 10
    ensures Decimal(n) == Decimal(n / 10) + ["0123456789"[n % 10]]
  {
    DecimalChar(n % 10);
  }

  lemma DecimalOne(n: nat)
    requires n < 10
    ensures Decimal(n) == ["0123456789"[n]]
  {
    DecimalChar(n);
    assert Decimal(n) == [] + [DigitChar(n)];
  }

  /** A device's key is its sub-identifier in decimal, without leading zeros. */
  lemma DeviceKeyDigits(s: Byte)
    ensures s < 10 ==> DeviceKey(s) == ["0123456789"[s]]
    ensures 10 <= s < 100 ==> DeviceKey(s) == ["0123456789"[s / 10], "0123456789"[s % 10]]
    ensures 100 <= s ==> DeviceKey(s) == ["0123456789"[s / 100], "0123456789"[s / 10 % 10], "0123456789"[s % 10]]
  {
    if s < 10 {
      DecimalOne(s);
    } else if s < 100 {
      DecimalMore(s);
      DecimalOne(s / 10);
    } else {
      DecimalMore(s);
      DecimalMore(s / 10);
      DecimalOne(s / 100);
      assert s / 10 / 10 == s / 100;
    }
  }

  /** Distinct addresses get distinct keys. */
  lemma NodeKeysApart()
    ensures forall a: Ieee, b: Ieee | NodeKey(a) == NodeKey(b) :: a == b
  {
    forall a: Ieee, b: Ieee | NodeKey(a) == NodeKey(b) ensures a == b {
      assert ParseHex(NodeKey(a)) == Some(a) && ParseHex(NodeKey(b)) == Some(b);
    }
  }

  /** Distinct sub-identifiers get distinct keys. */
  lemma DeviceKeysApart()
    ensures forall s: Byte, t: Byte | DeviceKey(s) == DeviceKey(t) :: s == t
  {
    forall s: Byte, t: Byte | DeviceKey(s) == DeviceKey(t) ensures s == t {
      assert ParseInt(DeviceKey(s)) == Some(s) && ParseInt(DeviceKey(t)) == Some(t);
    }
  }
}
