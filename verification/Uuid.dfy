/** `uuid.UUID(text)` and `str(uuid)`: reading and printing 128-bit object IDs. */
module Uuid {
  import opened Wrappers
  import opened Text

  function HexValue(c: char): Option<nat> {
    if '0' <= c <= '9' then Some((c - '0') as nat)
    else if 'a' <= c <= 'f' then Some(10 + (c - 'a') as nat)
    else if 'A' <= c <= 'F' then Some(10 + (c - 'A') as nat)
    else None
  }

  /** A digit that `%032x` prints. */
  predicate IsHexDigit(c: char) {
    '0' <= c <= '9' || 'a' <= c <= 'f'
  }

  function HexDigit(d: nat): (c: char)
    requires d < 16
    ensures IsHexDigit(c) && HexValue(c) == Some(d)
  {
    if d < 10 then '0' + d as char else 'a' + (d - 10) as char
  }

  function Pow16(k: nat): nat {
    if k == 0 then 1 else 16 * Pow16(k - 1)
  }

  /** Hexadecimal digits with single underscores between them, as `int(s, 16)` reads them. */
  function ReadHex(s: string, acc: nat, afterDigit: bool): Option<nat> {
    if s == "" then (if afterDigit then Some(acc) else None)
    else if s[0] == '_' then (if afterDigit then ReadHex(s[1..], acc, false) else None)
    else if HexValue(s[0]).None? then None
    else ReadHex(s[1..], 16 * acc + HexValue(s[0]).value, true)
  }

  /** The blanks `int` skips: unlike `str.strip`, not the separators U+001C to U+001F. */
  predicate IsBlank(c: char) {
    IsSpace(c) && !('\U{001C}' <= c <= '\U{001F}')
  }

  function SkipBlanks(s: string): (r: string)
    ensures |r| <= |s|
  {
    if s != "" && IsBlank(s[0]) then SkipBlanks(s[1..])
    else if s != "" && IsBlank(s[|s| - 1]) then SkipBlanks(s[..|s| - 1])
    else s
  }

  function AfterSign(s: string): (r: string)
    ensures |r| <= |s|
  {
    if s != "" && s[0] == '+' then s[1..] else s
  }

  function AfterPrefix(s: string): (r: string)
    ensures |r| <= |s|
  {
    if |s| >= 2 && s[0] == '0' && (s[1] == 'x' || s[1] == 'X') then
      if |s| > 2 && s[2] == '_' then s[3..] else s[2..]
    else s
  }

  /** `int(s, 16)` on text without a minus sign: blanks around, a plus sign and a 0x prefix are allowed. */
  function ReadBase16(s: string): Option<nat> {
    ReadHex(AfterPrefix(AfterSign(SkipBlanks(s))), 0, false)
  }

  function StripBraces(s: string): string {
    if s != "" && (s[0] == '{' || s[0] == '}') then StripBraces(s[1..])
    else if s != "" && (s[|s| - 1] == '{' || s[|s| - 1] == '}') then StripBraces(s[..|s| - 1])
    else s
  }

  function Bare(text: string): string {
    Without(StripBraces(DropWord(DropWord(text, "urn:"), "uuid:")), '-')
  }

  /** `uuid.UUID(text).int`, or None for ValueError. */
  function Parse(text: string): (r: Option<nat>)
    ensures r.Some? ==> r.value < Pow16(32)
  {
    var hex := Bare(text);
    if |hex| != 32 then None else Base16Bound(hex); ReadBase16(hex)
  }

  function Hex(n: nat, k: nat): (s: string)
    ensures |s| == k
    ensures forall i :: 0 <= i < |s| ==> IsHexDigit(s[i])
  {
    if k == 0 then "" else Hex(n / 16, k - 1) + [HexDigit(n % 16)]
  }

  /** `str(uuid.UUID(int=n))`: 32 lower-case digits grouped 8-4-4-4-12. */
  function Print(n: nat): string {
    Grouped(Hex(n, 32))
  }

  /** `str(uuid.UUID(text))` */
  function Canonical(text: string): Option<string> {
    var n := Parse(text);
    if n.None? then None else Some(Print(n.value))
  }

  predicate IsCanonical(text: string) {
    Canonical(text) == Some(text)
  }

  lemma {:induction false} PowGrows(j: nat, k: nat)
    requires j <= k
    ensures 1 <= Pow16(j) <= Pow16(k)
  {
    if j < k {
      PowGrows(j, k - 1);
    } else if k > 0 {
      PowGrows(k - 1, k - 1);
    }
  }

  lemma Shift(acc: nat, d: nat, p: nat)
    requires d < 16
    ensures (16 * acc + d + 1) * p <= (acc + 1) * (16 * p)
    ensures acc * p <= acc * (16 * p)
    ensures (acc + 1) * p <= (acc + 1) * (16 * p)
  {
    assert (acc + 1) * (16 * p) - (16 * acc + d + 1) * p == (15 - d) * p;
  }

  lemma {:induction false} HexBound(s: string, acc: nat, afterDigit: bool)
    ensures ReadHex(s, acc, afterDigit).Some? ==> ReadHex(s, acc, afterDigit).value < (acc + 1) * Pow16(|s|)
  {
    if s == "" {
      assert (acc + 1) * Pow16(0) == acc + 1;
    } else if ReadHex(s, acc, afterDigit).Some? {
      var p := Pow16(|s| - 1);
      assert Pow16(|s|) == 16 * p;
      if s[0] == '_' {
        HexBound(s[1..], acc, false);
        Shift(acc, 0, p);
      } else {
        var d := HexValue(s[0]).value;
        HexBound(s[1..], 16 * acc + d, true);
        Shift(acc, d, p);
      }
    }
  }

  lemma DigitsBound(digits: string, k: nat)
    requires |digits| <= k
    ensures ReadHex(digits, 0, false).Some? ==> ReadHex(digits, 0, false).value < Pow16(k)
  {
    var p := Pow16(|digits|);
    HexBound(digits, 0, false);
    assert (0 + 1) * p == p;
    PowGrows(|digits|, k);
  }

  lemma Base16Bound(s: string)
    ensures ReadBase16(s).Some? ==> ReadBase16(s).value < Pow16(|s|)
  {
    DigitsBound(AfterPrefix(AfterSign(SkipBlanks(s))), |s|);
  }

  /** The value `int` has accumulated after k more printed digits of n. */
  function Accumulated(acc: nat, n: nat, k: nat): nat {
    if k == 0 then acc else 16 * Accumulated(acc, n / 16, k - 1) + n % 16
  }

  lemma {:induction false} AccumulatedFromZero(n: nat, k: nat)
    requires n < Pow16(k)
    ensures Accumulated(0, n, k) == n
    decreases k
  {
    if k > 0 {
      AccumulatedFromZero(n / 16, k - 1);
    }
  }

  lemma {:induction false} ReadHexPrinted(n: nat, k: nat, acc: nat, rest: string, afterDigit: bool)
    ensures ReadHex(Hex(n, k) + rest, acc, afterDigit) ==
            ReadHex(rest, Accumulated(acc, n, k), afterDigit || k > 0)
    decreases k
  {
    if k == 0 {
      assert Hex(n, k) + rest == rest;
    } else {
      var c := HexDigit(n % 16);
      assert Hex(n, k) + rest == Hex(n / 16, k - 1) + ([c] + rest);
      ReadHexPrinted(n / 16, k - 1, acc, [c] + rest, afterDigit);
      assert ([c] + rest)[1..] == rest;
    }
  }

  /** The printed form of any 32 hexadecimal digits. */
  function Grouped(h: string): string
    requires |h| == 32
  {
    h[..8] + "-" + h[8..12] + "-" + h[12..16] + "-" + h[16..20] + "-" + h[20..]
  }

  lemma WithoutHyphen(part: string, rest: string)
    requires forall c :: c in part ==> IsHexDigit(c)
    ensures Without(part + "-" + rest, '-') == part + Without(rest, '-')
    ensures Without(part, '-') == part
  {
    assert '-' in part ==> IsHexDigit('-');
    WithoutAbsent(part, '-');
    assert part + "-" + rest == part + ("-" + rest);
    WithoutConcat(part, "-" + rest, '-');
  }

  lemma WithoutTwo(c: string, d: string, e: string)
    requires forall x :: x in c + d + e ==> IsHexDigit(x)
    ensures Without(c + "-" + (d + "-" + e), '-') == c + (d + e)
  {
    assert forall x :: x in c || x in d || x in e ==> x in c + d + e;
    WithoutHyphen(c, d + "-" + e);
    WithoutHyphen(d, e);
    WithoutHyphen(e, "");
  }

  lemma WithoutGrouped(h: string)
    requires |h| == 32 && forall c :: c in h ==> IsHexDigit(c)
    ensures Without(Grouped(h), '-') == h
  {
    var a, b, c, d, e := h[..8], h[8..12], h[12..16], h[16..20], h[20..];
    var r2 := c + "-" + (d + "-" + e);
    assert Grouped(h) == a + "-" + (b + "-" + r2);
    WithoutHyphen(a, b + "-" + r2);
    WithoutHyphen(b, r2);
    WithoutTwo(c, d, e);
    assert h == a + (b + (c + (d + e)));
  }

  lemma BareGrouped(h: string)
    requires |h| == 32 && forall c :: c in h ==> IsHexDigit(c)
    ensures Bare(Grouped(h)) == h
  {
    var t := Grouped(h);
    assert forall c :: c in t ==> c in h || c == '-';
    assert forall c :: c in t ==> c != 'u' && c != '{' && c != '}';
    DropWordAbsent(t, "urn:");
    DropWordAbsent(t, "uuid:");
    assert t[0] in t && t[|t| - 1] in t;
    WithoutGrouped(h);
  }

  lemma ReadBase16Printed(h: string)
    requires forall c :: c in h ==> IsHexDigit(c)
    ensures ReadBase16(h) == ReadHex(h, 0, false)
  {
    assert forall i :: 0 <= i < |h| ==> h[i] in h;
    assert forall i :: 0 <= i < |h| ==> !IsSpace(h[i]) && h[i] != '+' && h[i] != 'x' && h[i] != 'X';
  }

  /** Printing and reading are inverse on every 128-bit value. */
  lemma RoundTrip(n: nat)
    requires n < Pow16(32)
    ensures Parse(Print(n)) == Some(n)
  {
    var k: nat := 32;
    var h := Hex(n, k);
    BareGrouped(h);
    ReadBase16Printed(h);
    ReadHexPrinted(n, k, 0, "", false);
    AccumulatedFromZero(n, k);
    assert h + "" == h;
  }

  /** Canonical text is a fixed point, and two texts have the same one exactly when they denote one ID. */
  lemma CanonicalText(a: string, b: string)
    requires Parse(a).Some? && Parse(b).Some?
    ensures IsCanonical(Canonical(a).value)
    ensures Parse(Canonical(a).value) == Parse(a)
    ensures Canonical(a) == Canonical(b) <==> Parse(a) == Parse(b)
  {
    RoundTrip(Parse(a).value);
    RoundTrip(Parse(b).value);
  }

  // The printed form and the accepted spellings, digit by digit.

  const DIGITS := "0123456789abcdef"

  lemma HexDigitIsListed(d: nat)
    requires d < 16
    ensures HexDigit(d) == DIGITS[d]
  {
  }

  /** Digits of either case read as their value. */
  lemma DigitsOfEitherCase(d: nat)
    requires d < 16
    ensures HexValue(DIGITS[d]) == Some(d) && HexValue("0123456789ABCDEF"[d]) == Some(d)
  {
  }

  /** n without its last i hexadecimal digits. */
  function Shifted(n: nat, i: nat): nat {
    if i == 0 then n else Shifted(n / 16, i - 1)
  }

  lemma {:induction false} HexDigitAt(n: nat, k: nat, i: nat)
    requires i < k
    ensures Hex(n, k)[k - 1 - i] == DIGITS[Shifted(n, i) % 16]
  {
    if i == 0 {
      HexDigitIsListed(n % 16);
    } else {
      HexDigitAt(n / 16, k - 1, i - 1);
      assert Hex(n, k)[k - 1 - i] == Hex(n / 16, k - 1)[k - 1 - i];
    }
  }

  /** 36 characters: 32 lower-case digits in groups of 8, 4, 4, 4 and 12, with hyphens between them. */
  lemma PrintLayout(n: nat)
    ensures
      var h := Hex(n, 32);
      && (forall i: nat :: i < 32 ==> h[31 - i] == DIGITS[Shifted(n, i) % 16])
      && Print(n) == h[..8] + "-" + h[8..12] + "-" + h[12..16] + "-" + h[16..20] + "-" + h[20..]
    ensures |Print(n)| == 36
    ensures forall i :: 0 <= i < 36 ==> (Print(n)[i] == '-' <==> i in {8, 13, 18, 23})
  {
    var h := Hex(n, 32);
    var p := h[..8] + "-" + h[8..12] + "-" + h[12..16] + "-" + h[16..20] + "-" + h[20..];
    assert Print(n) == p;
    forall i: nat | i < 32
      ensures h[31 - i] == DIGITS[Shifted(n, i) % 16]
    {
      HexDigitAt(n, 32, i);
    }
    forall i | 0 <= i < 36
      ensures p[i] == '-' <==> i in {8, 13, 18, 23}
    {
      if i < 8 { assert p[i] == h[i]; }
      else if 8 < i < 13 { assert p[i] == h[i - 1]; }
      else if 13 < i < 18 { assert p[i] == h[i - 2]; }
      else if 18 < i < 23 { assert p[i] == h[i - 3]; }
      else if 23 < i { assert p[i] == h[i - 4]; }
    }
  }

  /** The number that hexadecimal digits of either case denote. */
  function Value(h: string): nat
    requires forall c :: c in h ==> HexValue(c).Some?
  {
    if h == "" then 0 else 16 * Value(h[..|h| - 1]) + HexValue(h[|h| - 1]).value
  }

  lemma {:induction false} ReadHexAppend(s: string, c: char, acc: nat, afterDigit: bool)
    requires (forall x :: x in s ==> HexValue(x).Some?) && HexValue(c).Some?
    ensures ReadHex(s + [c], acc, afterDigit) == Some(16 * Reading(s, acc) + HexValue(c).value)
  {
    if s == "" {
      assert (s + [c])[1..] == "";
    } else {
      assert (s + [c])[1..] == s[1..] + [c];
      ReadHexAppend(s[1..], c, 16 * acc + HexValue(s[0]).value, true);
    }
  }

  function Reading(s: string, acc: nat): nat
    requires forall x :: x in s ==> HexValue(x).Some?
  {
    if s == "" then acc else Reading(s[1..], 16 * acc + HexValue(s[0]).value)
  }

  lemma {:induction false} ReadingAppend(s: string, c: char, acc: nat)
    requires (forall x :: x in s ==> HexValue(x).Some?) && HexValue(c).Some?
    ensures Reading(s + [c], acc) == 16 * Reading(s, acc) + HexValue(c).value
  {
    if s == "" {
      assert (s + [c])[1..] == "";
    } else {
      assert (s + [c])[1..] == s[1..] + [c];
      ReadingAppend(s[1..], c, 16 * acc + HexValue(s[0]).value);
    }
  }

  lemma {:induction false} ReadingIsValue(s: string)
    requires forall x :: x in s ==> HexValue(x).Some?
    ensures Reading(s, 0) == Value(s)
  {
    if s != "" {
      var n := |s| - 1;
      assert s == s[..n] + [s[n]];
      ReadingIsValue(s[..n]);
      ReadingAppend(s[..n], s[n], 0);
    }
  }

  /** 32 digits of either case, with hyphens anywhere between them, in braces or not, denote their value. */
  lemma ParseDigits(text: string)
    requires |Without(text, '-')| == 32 && forall c :: c in Without(text, '-') ==> HexValue(c).Some?
    requires text[0] != '-' && forall c :: c in text ==> c == '-' || HexValue(c).Some?
    ensures Parse(text) == Some(Value(Without(text, '-')))
    ensures Parse("{" + text + "}") == Parse(text)
  {
    var h := Without(text, '-');
    assert forall c :: c in text ==> c != 'u' && c != '{' && c != '}';
    DropWordAbsent(text, "urn:");
    DropWordAbsent(text, "uuid:");
    var braced := "{" + text + "}";
    assert 'u' !in braced;
    DropWordAbsent(braced, "urn:");
    DropWordAbsent(braced, "uuid:");
    StripBracesOnce(text);
    DigitsRead(h);
  }

  lemma StripBracesOnce(text: string)
    requires text != "" && forall c :: c in text ==> c != '{' && c != '}'
    ensures StripBraces(text) == text && StripBraces("{" + text + "}") == text
  {
    assert text[0] in text && text[|text| - 1] in text;
    var tail := text + "}";
    var braced := "{" + text + "}";
    assert braced[1..] == tail && tail[..|text|] == text && tail[0] == text[0];
  }

  lemma PlainDigits(h: string)
    requires h != "" && forall c :: c in h ==> HexValue(c).Some?
    ensures ReadBase16(h) == ReadHex(h, 0, false)
  {
    assert h[0] in h && h[|h| - 1] in h;
    assert forall c :: HexValue(c).Some? ==> !IsBlank(c) && c != '+' && c != 'x' && c != 'X';
    assert SkipBlanks(h) == h && AfterSign(h) == h;
    assert |h| >= 2 ==> h[1] in h;
  }

  lemma DigitsAre(h: string)
    requires h != "" && forall c :: c in h ==> HexValue(c).Some?
    ensures ReadHex(h, 0, false) == Some(Value(h))
  {
    var front, last := h[..|h| - 1], h[|h| - 1];
    assert h == front + [last];
    ReadHexAppend(front, last, 0, false);
    ReadingIsValue(front);
  }

  lemma DigitsRead(h: string)
    requires h != "" && forall c :: c in h ==> HexValue(c).Some?
    ensures ReadBase16(h) == Some(Value(h))
  {
    PlainDigits(h);
    DigitsAre(h);
  }

  lemma UrnDropped(text: string)
    requires 'u' !in text
    ensures DropWord(DropWord("urn:uuid:" + text, "urn:"), "uuid:") == text
  {
    var urn := "urn:uuid:" + text;
    assert "urn:" <= urn && urn[4..] == "uuid:" + text;
    var uuid := "uuid:" + text;
    DropWordAbsent(text, "urn:");
    KeepsUuid(text);
    assert DropWord(urn, "urn:") == uuid;
    assert "uuid:" <= uuid && uuid[5..] == text;
    DropWordAbsent(text, "uuid:");
  }

  lemma KeepsUuid(text: string)
    requires 'u' !in text
    ensures DropWord("uuid:" + text, "urn:") == "uuid:" + text
  {
    var s := "uuid:" + text;
    var tail := "id:" + text;
    assert s[1..] == "u" + tail && ("u" + tail)[1..] == tail;
    assert s[1] == 'u' && ("u" + tail)[1] == 'i';
    DropWordAbsent(tail, "urn:");
    assert DropWord("u" + tail, "urn:") == "u" + tail;
  }

  /** The URN form spells the same ID. */
  lemma UrnParses(text: string)
    requires 'u' !in text
    ensures Parse("urn:uuid:" + text) == Parse(text)
  {
    UrnDropped(text);
    DropWordAbsent(text, "urn:");
    DropWordAbsent(text, "uuid:");
  }

  /** A text without decorations that has more or fewer than 32 characters beside its hyphens is no ID. */
  lemma OtherLengthsRejected(text: string)
    requires text != "" && 'u' !in text && '{' !in text && '}' !in text && |Without(text, '-')| != 32
    ensures Parse(text) == None
  {
    DropWordAbsent(text, "urn:");
    DropWordAbsent(text, "uuid:");
    StripBracesOnce(text);
  }
}
