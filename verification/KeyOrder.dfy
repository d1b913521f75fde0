/** Snapshot keys as text: which texts are keys, and that they sort in the order of their seqs. */
module KeyOrder {
  import opened Wrappers
  import opened Replication
  import opened SnapshotKeys

  // ---------------------------------------------------------------- which texts are keys

  lemma HexExactly(c: char)
    ensures IsHex(c) <==> c in "0123456789abcdef"
    ensures IsDigit(c) <==> c in "0123456789"
  {
  }

  /** The form of a key; the pattern's `$` also matches before a newline at the very end. */
  ghost predicate HasForm(key: string, digits: string, hex: string, tail: string) {
    && digits != "" && AllDigits(digits) && hex != "" && AllHex(hex)
    && (tail == ".sqlite" || tail == ".sqlite\n")
    && key == "snapshots/" + (digits + ("-" + (hex + tail)))
  }

  lemma FormIsRead(key: string, digits: string, hex: string, tail: string)
    requires HasForm(key, digits, hex, tail)
    ensures ParseNum(key) == Some(Value(digits))
  {
    EndIsRead(hex, tail);
    BodyIsRead(digits, hex + tail);
    AfterPrefix(PREFIX, digits + ("-" + (hex + tail)));
    hide ParseBody, EndsKey, Value;
  }

  lemma BodyForm(body: string, n: nat) returns (digits: string, end: string)
    requires ParseBody(body) == Some(n)
    ensures digits != "" && AllDigits(digits) && EndsKey(end) && body == digits + ("-" + end) && Value(digits) == n
  {
    var d := DigitRun(body);
    digits, end := body[..d], body[d + 1..];
    hide DigitRun, Value, EndsKey;
    assert body == digits + ("-" + end);
  }

  lemma EndForm(end: string) returns (hex: string, tail: string)
    requires EndsKey(end)
    ensures hex != "" && AllHex(hex) && (tail == ".sqlite" || tail == ".sqlite\n") && end == hex + tail
  {
    var h := HexRun(end);
    hex, tail := end[..h], end[h..];
  }

  /** A text is read as the key of a seq exactly if it has the form of a key with those digits. */
  lemma ReadExactly(key: string, n: nat)
    ensures ParseNum(key) == Some(n) <==>
              exists digits, hex, tail :: HasForm(key, digits, hex, tail) && Value(digits) == n
  {
    if ParseNum(key) == Some(n) {
      var digits, end := BodyForm(key[|PREFIX|..], n);
      var hex, tail := EndForm(end);
      hide ParseNum, EndsKey, Value;
      assert HasForm(key, digits, hex, tail);
    }
    if digits, hex, tail :| HasForm(key, digits, hex, tail) && Value(digits) == n {
      FormIsRead(key, digits, hex, tail);
    }
  }

  // ---------------------------------------------------------------- sorting keys

  /** Python's `<` on strings. */
  predicate TextLess(a: string, b: string) {
    b != "" && (a == "" || a[0] < b[0] || (a[0] == b[0] && TextLess(a[1..], b[1..])))
  }

  function DigitOf(c: char): nat
    requires IsHex(c)
  {
    if IsDigit(c) then (c - '0') as nat else (c - 'a') as nat + 10
  }

  /** A run of hex digits read as a number in a base that has them all. */
  function Number(s: string, base: nat): nat
    requires AllHex(s)
  {
    if s == "" then 0 else Number(s[..|s| - 1], base) * base + DigitOf(s[|s| - 1])
  }

  lemma {:induction false} LessConcat(a: string, b: string, x: string, y: string)
    requires |a| == |b|
    ensures TextLess(a + x, b + y) <==> TextLess(a, b) || (a == b && TextLess(x, y))
    decreases |a|
  {
    if a == "" {
      assert a + x == x && b + y == y;
    } else {
      assert (a + x)[1..] == a[1..] + x && (b + y)[1..] == b[1..] + y;
      LessConcat(a[1..], b[1..], x, y);
      assert a == [a[0]] + a[1..] && b == [b[0]] + b[1..];
    }
  }

  /** Texts of one length compare as the numbers they are. */
  lemma {:induction false} NumberOrder(a: string, b: string, base: nat)
    requires |a| == |b| && AllHex(a) && AllHex(b)
    requires forall i :: 0 <= i < |a| ==> DigitOf(a[i]) < base && DigitOf(b[i]) < base
    ensures TextLess(a, b) <==> Number(a, base) < Number(b, base)
    ensures a == b <==> Number(a, base) == Number(b, base)
    decreases |a|
  {
    if a != "" {
      var n := |a| - 1;
      var (fa, fb, la, lb) := (a[..n], b[..n], [a[n]], [b[n]]);
      NumberOrder(fa, fb, base);
      assert a == fa + la && b == fb + lb;
      assert Number(a, base) == Number(fa, base) * base + DigitOf(a[n]);
      assert Number(b, base) == Number(fb, base) * base + DigitOf(b[n]);
      OneChar(a[n], b[n]);
      LastDigit(Number(fa, base), DigitOf(a[n]), Number(fb, base), DigitOf(b[n]), base);
      hide TextLess, Number, DigitOf;
      LessConcat(fa, fb, la, lb);
    }
  }

  lemma OneChar(c: char, d: char)
    requires IsHex(c) && IsHex(d)
    ensures TextLess([c], [d]) <==> DigitOf(c) < DigitOf(d)
    ensures c == d <==> DigitOf(c) == DigitOf(d)
  {
    assert [c][1..] == "" && [d][1..] == "";
  }

  lemma LastDigit(x: nat, i: nat, y: nat, j: nat, base: nat)
    requires i < base && j < base
    ensures x * base + i < y * base + j <==> x < y || (x == y && i < j)
    ensures x * base + i == y * base + j <==> x == y && i == j
  {
    if x < y { HigherDigits(x, y, base); }
    if y < x { HigherDigits(y, x, base); }
  }

  lemma {:induction false} HigherDigits(x: nat, y: nat, base: nat)
    requires x < y
    ensures x * base + base <= y * base
    decreases y
  {
    assert y * base == (y - 1) * base + base;
    if x < y - 1 { HigherDigits(x, y - 1, base); }
  }

  lemma {:induction false} ValueIsNumber(s: string)
    requires AllDigits(s)
    ensures AllHex(s) && Value(s) == Number(s, 10)
  {
    if s != "" { ValueIsNumber(s[..|s| - 1]); }
  }

  lemma {:induction false} DecimalFits(n: nat, k: nat)
    requires k > 0 && n < Power(10, k)
    ensures |Decimal(n)| <= k
    decreases k
  {
    if n >= 10 {
      assert k > 1 by { assert Power(10, 1) == 10 * Power(10, 0); }
      DecimalFits(n / 10, k - 1);
    }
  }

  function Power(b: nat, k: nat): nat { if k == 0 then 1 else b * Power(b, k - 1) }

  /** Seqs below a billion all have nine digits. */
  lemma NineDigits(n: nat)
    requires n < 1_000_000_000
    ensures |Padded(n)| == 9
  {
    assert Power(10, 3) == 1000 && Power(10, 6) == 1000 * Power(10, 3) && Power(10, 9) == 1000 * Power(10, 6);
    DecimalFits(n, 9);
  }

  /** Keys of equally many digits sort as text exactly as the publisher lists them: by seq, then by tag. */
  lemma TextOrderIsKeyOrder(n: nat, hex: string, n': nat, hex': string)
    requires |Padded(n)| == |Padded(n')|
    requires |hex| == |hex'| && AllHex(hex) && AllHex(hex')
    ensures TextLess(KeyText(n', hex'), KeyText(n, hex)) <==>
              Above(SnapKey(n, Number(hex, 16)), SnapKey(n', Number(hex', 16)))
  {
    var (d, d') := (Padded(n), Padded(n'));
    PaddedValue(n);
    PaddedValue(n');
    ValueIsNumber(d);
    ValueIsNumber(d');
    hide Padded, Value, Decimal;
    NumberOrder(d', d, 10);
    NumberOrder(hex', hex, 16);
    KeyShape(n, hex);
    KeyShape(n', hex');
    hide KeyText, TextLess;
    PartsLess(PREFIX, d', d, "-", hex', hex, SUFFIX);
  }

  lemma KeyShape(n: nat, hex: string)
    ensures KeyText(n, hex) == PREFIX + (Padded(n) + ("-" + (hex + SUFFIX)))
  {
    JoinRight(PREFIX, Padded(n), "-", hex, SUFFIX);
  }

  /** Only the parts that differ count. */
  lemma PartsLess(p: string, d: string, d': string, m: string, h: string, h': string, z: string)
    requires |d| == |d'| && |h| == |h'|
    ensures TextLess(p + (d + (m + (h + z))), p + (d' + (m + (h' + z)))) <==>
              TextLess(d, d') || (d == d' && TextLess(h, h'))
  {
    Irreflexive(p);
    Irreflexive(m);
    Irreflexive(z);
    LessConcat(h, h', z, z);
    LessConcat(m, m, h + z, h' + z);
    LessConcat(d, d', m + (h + z), m + (h' + z));
    LessConcat(p, p, d + (m + (h + z)), d' + (m + (h' + z)));
  }

  lemma {:induction false} Irreflexive(s: string)
    ensures !TextLess(s, s)
  {
    if s != "" { Irreflexive(s[1..]); }
  }

  lemma {:induction false} LeadingDigits(k: nat)
    ensures Power(10, k) > 0
    ensures |Decimal(Power(10, k))| == k + 1 && Decimal(Power(10, k))[0] == '1'
    ensures k > 0 ==> |Decimal(Power(10, k) - 1)| == k && Decimal(Power(10, k) - 1)[0] == '9'
  {
    if k > 0 {
      LeadingDigits(k - 1);
      assert Power(10, k) / 10 == Power(10, k - 1) && Power(10, k) >= 10;
      if k > 1 { assert (Power(10, k) - 1) / 10 == Power(10, k - 1) - 1 && Power(10, k - 1) >= 10; }
    }
  }

  /** The billionth key sorts below the one before it. */
  lemma BillionSortsLow(hex: string)
    ensures TextLess(KeyText(1_000_000_000, hex), KeyText(999_999_999, hex))
  {
    assert Power(10, 3) == 1000 && Power(10, 6) == 1000 * Power(10, 3) && Power(10, 9) == 1000 * Power(10, 6);
    LeadingDigits(9);
    var (d, d') := (Padded(1_000_000_000), Padded(999_999_999));
    assert d[0] == '1' && d'[0] == '9';
    hide Padded, Decimal, Power;
    KeyShape(1_000_000_000, hex);
    KeyShape(999_999_999, hex);
    var rest := "-" + (hex + SUFFIX);
    assert TextLess(d + rest, d' + rest);
    hide KeyText, TextLess;
    Irreflexive(PREFIX);
    LessConcat(PREFIX, PREFIX, d + rest, d' + rest);
  }
}
