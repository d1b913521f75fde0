/** The text form of snapshot keys: formatting a seq and reading it back. */
module SnapshotKeys {
  import opened Wrappers

  const PREFIX := "snapshots/"
  const SUFFIX := ".sqlite"

  predicate IsDigit(c: char) { '0' <= c <= '9' }

  predicate IsHex(c: char) { IsDigit(c) || 'a' <= c <= 'f' }

  predicate AllHex(s: string) { forall i :: 0 <= i < |s| ==> IsHex(s[i]) }

  predicate AllDigits(s: string) { forall i :: 0 <= i < |s| ==> IsDigit(s[i]) }

  function Decimal(n: nat): (s: string)
    ensures s != [] && AllDigits(s)
  {
    if n < 10 then [n as char + '0'] else Decimal(n / 10) + [(n % 10) as char + '0']
  }

  /** `{n:09d}` */
  function Padded(n: nat): (s: string)
    ensures s != [] && AllDigits(s)
  {
    var d := Decimal(n);
    if |d| < 9 then seq(9 - |d|, _ => '0') + d else d
  }

  /** `snapshot_key_for`, given the first eight hex digits of the digest. */
  function KeyText(n: nat, hex: string): string {
    PREFIX + Padded(n) + "-" + hex + SUFFIX
  }

  /** `int(...)` of a run of digits. */
  function Value(s: string): nat
    requires AllDigits(s)
  {
    if s == [] then 0 else Value(s[..|s| - 1]) * 10 + (s[|s| - 1] - '0') as nat
  }

  function DigitRun(s: string): (n: nat)
    ensures n <= |s| && AllDigits(s[..n]) && (n < |s| ==> !IsDigit(s[n]))
  {
    if s == [] || !IsDigit(s[0]) then 0 else
    var m := DigitRun(s[1..]);
    assert s[..m + 1] == [s[0]] + s[1..][..m];
    m + 1
  }

  function HexRun(s: string): (n: nat)
    ensures n <= |s| && AllHex(s[..n]) && (n < |s| ==> !IsHex(s[n]))
  {
    if s == [] || !IsHex(s[0]) then 0 else
    var m := HexRun(s[1..]);
    assert s[..m + 1] == [s[0]] + s[1..][..m];
    m + 1
  }

  /** `_snapshot_seq`: the regular expression, as a scan. */
  function ParseNum(key: string): Option<nat> {
    if PREFIX <= key then ParseBody(key[|PREFIX|..]) else None
  }

  function ParseBody(body: string): Option<nat> {
    var d := DigitRun(body);
    if d == 0 || d == |body| || body[d] != '-' || !EndsKey(body[d + 1..]) then None else Some(Value(body[..d]))
  }

  /** A trailing newline also matches the pattern's `$`. */
  predicate EndsKey(tail: string) {
    var h := HexRun(tail);
    h > 0 && (tail[h..] == SUFFIX || tail[h..] == SUFFIX + "\n")
  }

  lemma {:induction false} ValueOfDecimal(n: nat)
    ensures Value(Decimal(n)) == n
  {
    if n >= 10 {
      ValueOfDecimal(n / 10);
      var s := Decimal(n);
      assert s[..|s| - 1] == Decimal(n / 10);
    } else {
      assert Decimal(n)[..0] == [];
    }
  }

  lemma {:induction false} LeadingZeros(k: nat, s: string)
    requires AllDigits(s)
    ensures AllDigits(seq(k, _ => '0') + s) && Value(seq(k, _ => '0') + s) == Value(s)
    decreases |s|
  {
    var z := seq(k, _ => '0');
    if s == [] {
      assert z + s == z;
      Zeros(k);
    } else {
      var front := s[..|s| - 1];
      LeadingZeros(k, front);
      assert (z + s)[..|z + s| - 1] == z + front;
    }
  }

  lemma {:induction false} Zeros(k: nat)
    ensures AllDigits(seq(k, _ => '0')) && Value(seq(k, _ => '0')) == 0
  {
    if k > 0 {
      Zeros(k - 1);
      assert seq(k, _ => '0')[..k - 1] == seq(k - 1, _ => '0');
    }
  }

  lemma {:induction false} RunsStop(a: string, b: string)
    ensures AllDigits(a) && (b == [] || !IsDigit(b[0])) ==> DigitRun(a + b) == |a|
    ensures AllHex(a) && (b == [] || !IsHex(b[0])) ==> HexRun(a + b) == |a|
  {
    if a == [] {
      assert a + b == b;
    } else {
      assert (a + b)[1..] == a[1..] + b;
      RunsStop(a[1..], b);
    }
  }

  lemma PaddedValue(n: nat)
    ensures Value(Padded(n)) == n
  {
    ValueOfDecimal(n);
    if |Decimal(n)| < 9 { LeadingZeros(9 - |Decimal(n)|, Decimal(n)); }
  }

  lemma EndIsRead(hex: string, tail: string)
    requires hex != "" && AllHex(hex) && (tail == SUFFIX || tail == SUFFIX + "\n")
    ensures EndsKey(hex + tail)
  {
    RunsStop(hex, tail);
    assert (hex + tail)[|hex|..] == tail;
  }

  lemma BodyIsRead(digits: string, end: string)
    requires digits != "" && AllDigits(digits) && EndsKey(end)
    ensures ParseBody(digits + ("-" + end)) == Some(Value(digits))
  {
    var body := digits + ("-" + end);
    RunsStop(digits, "-" + end);
    assert body[..|digits|] == digits && body[|digits| + 1..] == end;
  }

  lemma JoinRight(p: string, d: string, m: string, h: string, z: string)
    ensures p + d + m + h + z == p + (d + (m + (h + z)))
  {
  }

  lemma AfterPrefix(p: string, x: string)
    ensures p <= p + x && (p + x)[|p|..] == x
  {
  }

  lemma ParseFormatted(digits: string, hex: string)
    requires digits != [] && AllDigits(digits) && hex != [] && AllHex(hex)
    ensures ParseNum(PREFIX + digits + "-" + hex + SUFFIX) == Some(Value(digits))
  {
    EndIsRead(hex, SUFFIX);
    BodyIsRead(digits, hex + SUFFIX);
    JoinRight(PREFIX, digits, "-", hex, SUFFIX);
    AfterPrefix(PREFIX, digits + ("-" + (hex + SUFFIX)));
    hide ParseBody, EndsKey, Value;
  }

  /** The seq read back from a key is the seq it was made for, also past nine digits. */
  lemma KeyTextRoundTrip(n: nat, hex: string)
    requires hex != [] && AllHex(hex)
    ensures ParseNum(KeyText(n, hex)) == Some(n)
  {
    PaddedValue(n);
    ParseFormatted(Padded(n), hex);
  }

  /** Keys of different publishes never collide, whatever the digests. */
  lemma KeyTextInjective(n: nat, hex: string, n': nat, hex': string)
    requires hex != [] && AllHex(hex) && hex' != [] && AllHex(hex')
    requires KeyText(n, hex) == KeyText(n', hex')
    ensures n == n' && hex == hex'
  {
    hide ParseNum, Padded, Decimal;
    KeyTextRoundTrip(n, hex);
    KeyTextRoundTrip(n', hex');
    var rest := KeyText(n, hex)[|PREFIX| + |Padded(n)| + 1..];
    assert rest == hex + SUFFIX && rest == hex' + SUFFIX;
    assert hex == rest[..|rest| - |SUFFIX|] && hex' == rest[..|rest| - |SUFFIX|];
  }
}
