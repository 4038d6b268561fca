/** 128-bit identifiers and their canonical text: str(UUID) and the UUID(text) constructor. */
module UuidText {
  import opened Wrappers

  const UUIDS: nat := 0x1_0000_0000_0000_0000_0000_0000_0000_0000

  type Uuid = n: nat | n < UUIDS

  const HEX := "0123456789abcdef"

  predicate IsHexDigit(c: char) {
    '0' <= c <= '9' || 'a' <= c <= 'f'
  }

  /** The last `width` hexadecimal digits of n, most significant first. */
  function Hex(n: nat, width: nat): (s: string)
    ensures |s| == width
    ensures forall c <- s :: IsHexDigit(c)
  {
    assert forall d :: 0 <= d < 16 ==> IsHexDigit(HEX[d]);
    if width == 0 then "" else Hex(n / 16, width - 1) + [HEX[n % 16]]
  }

  function DigitValue(c: char): Option<nat> {
    if '0' <= c <= '9' then Some((c - '0') as nat)
    else if 'a' <= c <= 'f' then Some((c - 'a') as nat + 10)
    else if 'A' <= c <= 'F' then Some((c - 'A') as nat + 10)
    else None
  }

  /** int(s, 16) on digit strings. */
  function HexValue(s: string): Option<nat> {
    if s == "" then Some(0)
    else
      match (HexValue(s[..|s| - 1]), DigitValue(s[|s| - 1]))
      case (Some(high), Some(low)) => Some(16 * high + low)
      case _ => None
  }

  function Power16(width: nat): (p: nat)
    ensures p > 0
  {
    if width == 0 then 1 else 16 * Power16(width - 1)
  }

  lemma DigitRoundTrip(d: nat)
    requires d < 16
    ensures DigitValue(HEX[d]) == Some(d)
  {
    if d < 10 {
      assert HEX[d] == '0' + d as char;
    } else {
      assert HEX[d] == 'a' + (d - 10) as char;
    }
  }

  lemma {:induction false} HexRoundTrip(n: nat, width: nat)
    requires n < Power16(width)
    ensures HexValue(Hex(n, width)) == Some(n)
  {
    if width > 0 {
      var (high, low) := (n / 16, n % 16);
      assert n == 16 * high + low;
      assert Power16(width) == 16 * Power16(width - 1);
      assert high < Power16(width - 1);
      HexRoundTrip(high, width - 1);
      DigitRoundTrip(low);
      var s := Hex(n, width);
      assert s == Hex(high, width - 1) + [HEX[low]];
      assert s[..|s| - 1] == Hex(high, width - 1);
    }
  }

  lemma UuidsFit()
    ensures Power16(32) == UUIDS
    ensures Power16(4) == 0x1_0000
  {
    assert Power16(4) == 0x1_0000;
    assert Power16(8) == 0x1_0000_0000;
    assert Power16(12) == 0x1_0000_0000_0000;
    assert Power16(16) == 0x1_0000_0000_0000_0000;
    assert Power16(20) == 0x1_0000_0000_0000_0000_0000;
    assert Power16(24) == 0x1_0000_0000_0000_0000_0000_0000;
    assert Power16(28) == 0x1_0000_0000_0000_0000_0000_0000_0000;
  }

  /** 32 digits in groups of 8, 4, 4, 4 and 12. */
  function Grouped(h: string): (t: string)
    requires |h| == 32
    ensures |t| == 36
  {
    h[..8] + "-" + h[8..12] + "-" + h[12..16] + "-" + h[16..20] + "-" + h[20..]
  }

  /** str(UUID). */
  function Print(id: Uuid): (t: string)
    ensures |t| == 36
  {
    Grouped(Hex(id, 32))
  }

  /** str.replace(pattern, ""). */
  function Remove(s: string, pattern: string): string
    requires pattern != ""
  {
    if |s| < |pattern| then s
    else if s[..|pattern|] == pattern then Remove(s[|pattern|..], pattern)
    else [s[0]] + Remove(s[1..], pattern)
  }

  function StripLeft(s: string, chars: set<char>): string {
    if s != "" && s[0] in chars then StripLeft(s[1..], chars) else s
  }

  function StripRight(s: string, chars: set<char>): string {
    if s != "" && s[|s| - 1] in chars then StripRight(s[..|s| - 1], chars) else s
  }

  function Strip(s: string, chars: set<char>): string {
    StripRight(StripLeft(s, chars), chars)
  }

  /** UUID(text): the lenient constructor, which also takes URN forms, braces, capitals and other dashes. */
  function Parse(text: string): Option<Uuid> {
    var h := Remove(Strip(Remove(Remove(text, "urn:"), "uuid:"), {'{', '}'}), "-");
    if |h| != 32 then None
    else
      match HexValue(h)
      case None => None
      case Some(n) => if n < UUIDS then Some(n) else None
  }

  /** Accepts a text if and only if the constructor takes it and prints it back unchanged. */
  function ParseCanonical(text: string): Option<Uuid> {
    match Parse(text)
    case None => None
    case Some(id) => if Print(id) == text then Some(id) else None
  }

  lemma {:induction false} RemoveNothing(s: string, pattern: string)
    requires pattern != "" && pattern[0] !in s
    ensures Remove(s, pattern) == s
  {
    if |s| >= |pattern| {
      assert s[0] in s && s[..|pattern|][0] == s[0];
      assert forall c :: c in s[1..] ==> c in s;
      RemoveNothing(s[1..], pattern);
    }
  }

  lemma {:induction false} RemoveHere(s: string)
    ensures Remove("-" + s, "-") == Remove(s, "-")
  {
    assert ("-" + s)[..1] == "-" && ("-" + s)[1..] == s;
  }

  lemma {:induction false} RemovePast(prefix: string, s: string)
    requires '-' !in prefix
    ensures Remove(prefix + s, "-") == prefix + Remove(s, "-")
  {
    if prefix == "" {
      assert prefix + s == s;
    } else {
      var all := prefix + s;
      assert all[..1] == [prefix[0]] && prefix[0] in prefix;
      assert all[1..] == prefix[1..] + s;
      assert forall c :: c in prefix[1..] ==> c in prefix;
      RemovePast(prefix[1..], s);
    }
  }

  lemma Ungrouped(h: string)
    requires |h| == 32 && '-' !in h
    ensures Remove(Grouped(h), "-") == h
  {
    var (a, b, c, d, e) := (h[..8], h[8..12], h[12..16], h[16..20], h[20..]);
    assert h == a + (b + (c + (d + e)));
    assert Grouped(h) == a + ("-" + (b + ("-" + (c + ("-" + (d + ("-" + e)))))));
    RemovePast(a, "-" + (b + ("-" + (c + ("-" + (d + ("-" + e)))))));
    RemoveHere(b + ("-" + (c + ("-" + (d + ("-" + e))))));
    RemovePast(b, "-" + (c + ("-" + (d + ("-" + e)))));
    RemoveHere(c + ("-" + (d + ("-" + e))));
    RemovePast(c, "-" + (d + ("-" + e)));
    RemoveHere(d + ("-" + e));
    RemovePast(d, "-" + e);
    RemoveHere(e);
    RemoveNothing(e, "-");
  }

  lemma PrintedChars(id: Uuid)
    ensures 'u' !in Print(id) && '{' !in Print(id) && '}' !in Print(id)
    ensures forall c <- Print(id) :: IsHexDigit(c) || c == '-'
  {
    assert forall c <- Print(id) :: IsHexDigit(c) || c == '-';
  }

  lemma PrintedTextIsKept(t: string)
    requires t != "" && 'u' !in t && '{' !in t && '}' !in t
    ensures Strip(Remove(Remove(t, "urn:"), "uuid:"), {'{', '}'}) == t
  {
    RemoveNothing(t, "urn:");
    RemoveNothing(t, "uuid:");
    assert t[0] in t && t[|t| - 1] in t;
    assert StripLeft(t, {'{', '}'}) == t;
    assert StripRight(t, {'{', '}'}) == t;
  }

  /** Printing and parsing are inverse on every identifier. */
  lemma PrintParse(id: Uuid)
    ensures Parse(Print(id)) == Some(id) && ParseCanonical(Print(id)) == Some(id)
  {
    PrintedChars(id);
    PrintedTextIsKept(Print(id));
    var h := Hex(id, 32);
    Ungrouped(h);
    UuidsFit();
    HexRoundTrip(id, 32);
    assert HexValue(h) == Some(id);
  }

  /** The canonical texts are exactly the printed ones, one per identifier. */
  lemma CanonicalExactly(text: string, id: Uuid)
    ensures ParseCanonical(text) == Some(id) <==> text == Print(id)
  {
    PrintParse(id);
  }

  lemma PrintInjective(a: Uuid, b: Uuid)
    requires Print(a) == Print(b)
    ensures a == b
  {
    PrintParse(a);
    PrintParse(b);
  }
}
