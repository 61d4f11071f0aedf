/** The Python string operations the backend relies on. */
module Text {
  import opened Wrappers

  /** The characters `str.strip()` removes. */
  predicate IsSpace(c: char) {
    || '\U{0009}' <= c <= '\U{000D}' || '\U{001C}' <= c <= '\U{0020}'
    || c == '\U{0085}' || c == '\U{00A0}' || c == '\U{1680}'
    || '\U{2000}' <= c <= '\U{200A}' || c == '\U{2028}' || c == '\U{2029}'
    || c == '\U{202F}' || c == '\U{205F}' || c == '\U{3000}'
  }

  function TrimLeft(s: string): string {
    if s != "" && IsSpace(s[0]) then TrimLeft(s[1..]) else s
  }

  function TrimRight(s: string): string {
    if s != "" && IsSpace(s[|s| - 1]) then TrimRight(s[..|s| - 1]) else s
  }

  function Strip(s: string): string {
    TrimRight(TrimLeft(s))
  }

  /** What `strip` leaves and what it takes away. */
  lemma StripExactly(s: string) returns (before: string, after: string)
    ensures s == before + Strip(s) + after
    ensures forall c :: c in before || c in after ==> IsSpace(c)
    ensures Strip(s) != "" ==> !IsSpace(Strip(s)[0]) && !IsSpace(Strip(s)[|Strip(s)| - 1])
  {
    before := LeftBlanks(s);
    after := RightBlanks(TrimLeft(s));
    var t := TrimLeft(s);
    assert s == before + t && t == Strip(s) + after;
    if Strip(s) != "" {
      assert Strip(s)[0] == t[0];
    }
  }

  lemma {:induction false} LeftBlanks(s: string) returns (before: string)
    ensures s == before + TrimLeft(s) && forall c :: c in before ==> IsSpace(c)
    ensures TrimLeft(s) != "" ==> !IsSpace(TrimLeft(s)[0])
  {
    if s != "" && IsSpace(s[0]) {
      var rest := LeftBlanks(s[1..]);
      before := [s[0]] + rest;
      assert s == [s[0]] + s[1..];
    } else {
      before := "";
    }
  }

  lemma {:induction false} RightBlanks(s: string) returns (after: string)
    ensures s == TrimRight(s) + after && forall c :: c in after ==> IsSpace(c)
    ensures TrimRight(s) != "" ==> !IsSpace(TrimRight(s)[|TrimRight(s)| - 1])
  {
    if s != "" && IsSpace(s[|s| - 1]) {
      var rest := RightBlanks(s[..|s| - 1]);
      after := rest + [s[|s| - 1]];
      assert s == s[..|s| - 1] + [s[|s| - 1]];
    } else {
      after := "";
    }
  }

  /** `s.replace(c, "")` */
  function Without(s: string, c: char): string {
    if s == "" then "" else if s[0] == c then Without(s[1..], c) else [s[0]] + Without(s[1..], c)
  }

  /** `s.replace(word, "")` for a non-empty word: occurrences from left to right, without overlap. */
  function DropWord(s: string, word: string): string
    requires word != ""
  {
    if s == "" then ""
    else if word <= s then DropWord(s[|word|..], word)
    else [s[0]] + DropWord(s[1..], word)
  }

  lemma {:induction false} DropWordAbsent(s: string, word: string)
    requires word != "" && word[0] !in s
    ensures DropWord(s, word) == s
  {
    if s != "" {
      assert s[0] in s;
      DropWordAbsent(s[1..], word);
      assert s == [s[0]] + s[1..];
    }
  }

  lemma {:induction false} WithoutConcat(a: string, b: string, c: char)
    ensures Without(a + b, c) == Without(a, c) + Without(b, c)
  {
    if a == "" {
      assert a + b == b;
    } else {
      assert (a + b)[1..] == a[1..] + b;
      WithoutConcat(a[1..], b, c);
    }
  }

  lemma {:induction false} WithoutAbsent(s: string, c: char)
    requires c !in s
    ensures Without(s, c) == s
  {
    if s != "" {
      assert s[0] in s;
      WithoutAbsent(s[1..], c);
      assert s == [s[0]] + s[1..];
    }
  }

  // Comma-separated lists: `",".join(parts)` and its reader.

  function JoinComma(parts: seq<string>): string
    requires parts != []
  {
    if |parts| == 1 then parts[0] else parts[0] + "," + JoinComma(parts[1..])
  }

  function SplitComma(s: string): (parts: seq<string>)
    ensures parts != []
  {
    if s == "" then [""]
    else if s[0] == ',' then [""] + SplitComma(s[1..])
    else
      var tail := SplitComma(s[1..]);
      [[s[0]] + tail[0]] + tail[1..]
  }

  /** Joining two lists puts one comma between them. */
  lemma {:induction false} JoinConcat(a: seq<string>, b: seq<string>)
    requires a != [] && b != []
    ensures JoinComma(a + b) == JoinComma(a) + "," + JoinComma(b)
  {
    if |a| == 1 {
      assert (a + b)[1..] == b;
    } else {
      assert (a + b)[1..] == a[1..] + b;
      JoinConcat(a[1..], b);
    }
  }

  lemma {:induction false} SplitWord(word: string, rest: string)
    requires ',' !in word
    ensures SplitComma(word) == [word]
    ensures SplitComma(word + "," + rest) == [word] + SplitComma(rest)
  {
    if word == "" {
      assert word + "," + rest == "," + rest;
      assert ("," + rest)[1..] == rest;
    } else {
      assert word[0] in word;
      assert forall c :: c in word[1..] ==> c in word;
      SplitWord(word[1..], rest);
      assert word == [word[0]] + word[1..];
      assert (word + "," + rest)[0] == word[0];
      assert (word + "," + rest)[1..] == word[1..] + "," + rest;
    }
  }

  lemma {:induction false} SplitJoin(parts: seq<string>)
    requires parts != [] && forall p :: p in parts ==> ',' !in p
    ensures SplitComma(JoinComma(parts)) == parts
  {
    assert parts[0] in parts;
    if |parts| == 1 {
      SplitWord(parts[0], "");
    } else {
      assert forall p :: p in parts[1..] ==> p in parts;
      SplitJoin(parts[1..]);
      SplitWord(parts[0], JoinComma(parts[1..]));
      assert parts == [parts[0]] + parts[1..];
    }
  }

  // Decimal numerals: `str(n)` and its reader.

  const DIGITS := "0123456789"

  function NatText(n: nat): string {
    if n < 10 then [DIGITS[n]] else NatText(n / 10) + [DIGITS[n % 10]]
  }

  function IntText(n: int): string {
    if n < 0 then "-" + NatText(-n) else NatText(n)
  }

  function DigitValue(c: char): Option<nat> {
    if '0' <= c <= '9' then Some((c - '0') as nat) else None
  }

  function ReadNat(s: string): Option<nat> {
    if s == "" then None
    else
      var last := DigitValue(s[|s| - 1]);
      if last.None? then None
      else if |s| == 1 then last
      else
        var high := ReadNat(s[..|s| - 1]);
        if high.None? then None else Some(10 * high.value + last.value)
  }

  lemma DigitReads(d: nat)
    requires d < 10
    ensures DigitValue(DIGITS[d]) == Some(d)
  {
  }

  lemma {:induction false} ReadNatText(n: nat)
    ensures NatText(n) != "" && ReadNat(NatText(n)) == Some(n)
  {
    var d := n % 10;
    DigitReads(d);
    if n >= 10 {
      ReadNatText(n / 10);
      assert NatText(n)[..|NatText(n)| - 1] == NatText(n / 10);
    }
  }
}
