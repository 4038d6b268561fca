/** json.dumps as the intent hash uses it: ASCII-only strings, decimal integers, null, and objects of strings
    with sorted keys. Every encoding can be read back from the front of a longer text. */
module CanonicalJson {
  import opened Wrappers
  import opened UuidText

  // ---------------------------------------------------------------- strings (RFC 8259, section 7)

  function Unicode(code: nat): (s: string)
    requires code < 0x1_0000
    ensures |s| == 6
  {
    "\\u" + Hex(code, 4)
  }

  /** One character under ensure_ascii: short escapes, \uXXXX, and surrogate pairs above U+FFFF. */
  function EscapeChar(c: char): (s: string)
    ensures s != ""
  {
    if c == '\"' then "\\\""
    else if c == '\\' then "\\\\"
    else if c == '\n' then "\\n"
    else if c == '\r' then "\\r"
    else if c == '\t' then "\\t"
    else if c == '\U{0C}' then "\\f"
    else if c == '\U{08}' then "\\b"
    else if ' ' <= c <= '~' then [c]
    else if c as int < 0x1_0000 then Unicode(c as int)
    else
      var offset := c as int - 0x1_0000;
      Unicode(0xD800 + offset / 0x400) + Unicode(0xDC00 + offset % 0x400)
  }

  /** The encoders write in front of the text that follows: the escaped characters, the closing quote,
      and all that comes after. */
  function PutEscaped(s: string, rest: string): string {
    if s == "" then "\"" + rest else EscapeChar(s[0]) + PutEscaped(s[1..], rest)
  }

  function PutString(s: string, rest: string): string {
    "\"" + PutEscaped(s, rest)
  }

  /** Reads back what EscapeChar wrote. */
  function UnescapeChar(text: string): Option<(char, string)> {
    if text == "" || text[0] == '\"' then None
    else if text[0] != '\\' then Some((text[0], text[1..]))
    else if |text| < 2 then None
    else
      match text[1]
      case '\"' => Some(('\"', text[2..]))
      case '\\' => Some(('\\', text[2..]))
      case 'n' => Some(('\n', text[2..]))
      case 'r' => Some(('\r', text[2..]))
      case 't' => Some(('\t', text[2..]))
      case 'f' => Some(('\U{0C}', text[2..]))
      case 'b' => Some(('\U{08}', text[2..]))
      case _ =>
        if |text| < 6 then None
        else
          match HexValue(text[2..6]) {
            case None => None
            case Some(code) =>
              if code < 0xD800 || 0xE000 <= code < 0x1_0000 then Some((code as char, text[6..]))
              else if code < 0xDC00 && |text| >= 12 then
                match HexValue(text[8..12]) {
                  case Some(low) =>
                    if 0xDC00 <= low < 0xE000 then
                      Some(((0x1_0000 + 0x400 * (code - 0xD800) + (low - 0xDC00)) as char, text[12..]))
                    else None
                  case None => None
                }
              else None
          }
  }

  lemma UnicodeReadsBack(code: nat, rest: string)
    requires code < 0x1_0000
    ensures var text := Unicode(code) + rest;
      text[0] == '\\' && text[1] == 'u' && HexValue(text[2..6]) == Some(code) && text[6..] == rest
  {
    var text := Unicode(code) + rest;
    assert text[2..6] == Hex(code, 4);
    UuidsFit();
    HexRoundTrip(code, 4);
  }

  lemma SurrogatesReadBack(c: char, rest: string)
    requires c as int >= 0x1_0000
    ensures UnescapeChar(EscapeChar(c) + rest) == Some((c, rest))
  {
    var offset := c as int - 0x1_0000;
    var (high, low) := (0xD800 + offset / 0x400, 0xDC00 + offset % 0x400);
    var text := EscapeChar(c) + rest;
    assert text == Unicode(high) + (Unicode(low) + rest);
    UnicodeReadsBack(high, Unicode(low) + rest);
    UnicodeReadsBack(low, rest);
    assert text[8..12] == (Unicode(low) + rest)[2..6];
    assert text[12..] == rest;
  }

  lemma EscapeReadsBack(c: char, rest: string)
    ensures UnescapeChar(EscapeChar(c) + rest) == Some((c, rest))
    ensures (EscapeChar(c) + rest)[0] != '\"'
  {
    var text := EscapeChar(c) + rest;
    if c as int >= 0x1_0000 {
      SurrogatesReadBack(c, rest);
    } else if !(' ' <= c <= '~') && c !in {'\n', '\r', '\t', '\U{0C}', '\U{08}'} {
      UnicodeReadsBack(c as int, rest);
    }
  }

  lemma EscapedHead(s: string, rest: string)
    ensures s == "" ==> UnescapeChar(PutEscaped(s, rest)).None? && PutEscaped(s, rest)[1..] == rest
    ensures s != "" ==> UnescapeChar(PutEscaped(s, rest)) == Some((s[0], PutEscaped(s[1..], rest)))
  {
    if s != "" {
      EscapeReadsBack(s[0], PutEscaped(s[1..], rest));
    }
  }

  /** Escaped strings are self-delimiting: the closing quote ends them. */
  lemma {:induction false} EscapedCut(a: string, ra: string, b: string, rb: string)
    requires PutEscaped(a, ra) == PutEscaped(b, rb)
    ensures a == b && ra == rb
  {
    EscapedHead(a, ra);
    EscapedHead(b, rb);
    if a != "" && b != "" {
      EscapedCut(a[1..], ra, b[1..], rb);
      assert a == [a[0]] + a[1..] && b == [b[0]] + b[1..];
    }
  }

  lemma StringCut(a: string, ra: string, b: string, rb: string)
    requires PutString(a, ra) == PutString(b, rb)
    ensures a == b && ra == rb
  {
    assert PutString(a, ra)[1..] == PutEscaped(a, ra);
    assert PutString(b, rb)[1..] == PutEscaped(b, rb);
    EscapedCut(a, ra, b, rb);
  }

  lemma LiteralCut(literal: string, ra: string, rb: string)
    requires literal + ra == literal + rb
    ensures ra == rb
  {
    assert (literal + ra)[|literal|..] == ra && (literal + rb)[|literal|..] == rb;
  }

  // ---------------------------------------------------------------- integers and null

  predicate IsDigit(c: char) {
    '0' <= c <= '9'
  }

  function Digit(d: nat): (c: char)
    requires d < 10
    ensures IsDigit(c) && c as nat - '0' as nat == d
  {
    '0' + d as char
  }

  function Decimal(n: nat): (s: string)
    ensures s != "" && forall c <- s :: IsDigit(c)
  {
    (if n < 10 then "" else Decimal(n / 10)) + [Digit(n % 10)]
  }

  function DecimalValue(s: string): nat
    requires forall c <- s :: IsDigit(c)
  {
    if s == "" then 0
    else
      var n := |s| - 1;
      assert s[n] in s && IsDigit(s[n]) && forall c <- s[..n] :: c in s;
      10 * DecimalValue(s[..n]) + (s[n] as nat - '0' as nat)
  }

  lemma {:induction false} DecimalRoundTrip(n: nat)
    ensures DecimalValue(Decimal(n)) == n
  {
    var s := Decimal(n);
    var last := |s| - 1;
    assert s[last] == Digit(n % 10);
    if n < 10 {
      assert s[..last] == "";
    } else {
      DecimalRoundTrip(n / 10);
      assert s[..last] == Decimal(n / 10);
    }
  }

  function LeadingDigits(s: string): nat {
    if s != "" && IsDigit(s[0]) then 1 + LeadingDigits(s[1..]) else 0
  }

  lemma {:induction false} LeadingDigitsCount(digits: string, rest: string)
    requires forall c <- digits :: IsDigit(c)
    ensures LeadingDigits(digits + ("," + rest)) == |digits|
  {
    var text := digits + ("," + rest);
    if digits == "" {
      assert text[0] == ',';
    } else {
      assert text[0] == digits[0] && digits[0] in digits;
      assert text[1..] == digits[1..] + ("," + rest);
      assert forall c <- digits[1..] :: c in digits;
      LeadingDigitsCount(digits[1..], rest);
    }
  }

  lemma DigitsCut(a: string, ra: string, b: string, rb: string)
    requires (forall c <- a :: IsDigit(c)) && (forall c <- b :: IsDigit(c))
    requires a + ("," + ra) == b + ("," + rb)
    ensures a == b && ra == rb
  {
    LeadingDigitsCount(a, ra);
    LeadingDigitsCount(b, rb);
    var text := a + ("," + ra);
    assert text[..|a|] == a && text[..|b|] == b;
    assert text[|a| + 1..] == ra && text[|b| + 1..] == rb;
  }

  /** A number is cut off by the comma that follows it. */
  lemma NumberCut(a: nat, ra: string, b: nat, rb: string)
    requires Decimal(a) + ("," + ra) == Decimal(b) + ("," + rb)
    ensures a == b && ra == rb
  {
    DigitsCut(Decimal(a), ra, Decimal(b), rb);
    DecimalRoundTrip(a);
    DecimalRoundTrip(b);
  }

  function PutOption(s: Option<string>, rest: string): string {
    if s.None? then "null" + rest else PutString(s.value, rest)
  }

  lemma OptionCut(a: Option<string>, ra: string, b: Option<string>, rb: string)
    requires PutOption(a, ra) == PutOption(b, rb)
    ensures a == b && ra == rb
  {
    assert PutOption(a, ra)[0] == if a.None? then 'n' else '\"';
    assert PutOption(b, rb)[0] == if b.None? then 'n' else '\"';
    if a.None? {
      LiteralCut("null", ra, rb);
    } else {
      StringCut(a.value, ra, b.value, rb);
    }
  }

  // ---------------------------------------------------------------- objects of strings, keys sorted

  datatype Item = Item(key: string, value: string)

  /** Python's order on str: by code points, a proper prefix first. */
  predicate Before(a: string, b: string) {
    if b == "" then false
    else if a == "" then true
    else a[0] < b[0] || (a[0] == b[0] && Before(a[1..], b[1..]))
  }

  predicate Sorted(items: seq<Item>) {
    forall i, j :: 0 <= i < j < |items| ==> Before(items[i].key, items[j].key)
  }

  function Insert(item: Item, items: seq<Item>): seq<Item> {
    if items == [] || Before(item.key, items[0].key) then [item] + items
    else [items[0]] + Insert(item, items[1..])
  }

  function Sort(items: seq<Item>): seq<Item> {
    if items == [] then [] else Insert(items[0], Sort(items[1..]))
  }

  function PutItem(item: Item, rest: string): string {
    PutString(item.key, ":" + PutString(item.value, rest))
  }

  /** The members after the first, and the closing brace. */
  function PutTail(items: seq<Item>, rest: string): string {
    if items == [] then "}" + rest else "," + PutItem(items[0], PutTail(items[1..], rest))
  }

  function PutItems(items: seq<Item>, rest: string): string {
    if items == [] then "}" + rest else PutItem(items[0], PutTail(items[1..], rest))
  }

  /** A dict in insertion order, dumped with sort_keys. */
  function PutDict(items: seq<Item>, rest: string): string {
    "{" + PutItems(Sort(items), rest)
  }

  lemma {:induction false} BeforeTrans(a: string, b: string, c: string)
    requires Before(a, b) && Before(b, c)
    ensures Before(a, c)
  {
    if a != "" && a[0] == b[0] == c[0] {
      BeforeTrans(a[1..], b[1..], c[1..]);
    }
  }

  lemma {:induction false} BeforeTotal(a: string, b: string)
    ensures Before(a, b) || Before(b, a) || a == b
    ensures !(Before(a, b) && Before(b, a)) && !Before(a, a)
  {
    if a != "" && b != "" {
      BeforeTotal(a[1..], b[1..]);
      if a[0] == b[0] && a[1..] == b[1..] {
        assert a == [a[0]] + a[1..] && b == [b[0]] + b[1..];
      }
    }
    if a != "" {
      BeforeTotal(a[1..], a[1..]);
    }
  }

  predicate DistinctKeys(items: seq<Item>) {
    forall i, j :: 0 <= i < j < |items| ==> items[i].key != items[j].key
  }

  lemma {:induction false} InsertContents(item: Item, items: seq<Item>)
    ensures multiset(Insert(item, items)) == multiset([item]) + multiset(items)
  {
    if items != [] && !Before(item.key, items[0].key) {
      InsertContents(item, items[1..]);
      assert items == [items[0]] + items[1..];
    }
  }

  lemma InsertedAmong(item: Item, items: seq<Item>, other: Item)
    requires other in Insert(item, items)
    ensures other == item || other in items
  {
    InsertContents(item, items);
    assert other in multiset(Insert(item, items));
  }

  lemma {:induction false} InsertSorts(item: Item, items: seq<Item>)
    requires Sorted(items) && forall other <- items :: other.key != item.key
    ensures Sorted(Insert(item, items))
  {
    if items == [] {
    } else if Before(item.key, items[0].key) {
      forall j | 0 <= j < |items| ensures Before(item.key, items[j].key) {
        if j > 0 {
          BeforeTrans(item.key, items[0].key, items[j].key);
        }
      }
    } else {
      var rest := items[1..];
      assert forall other <- rest :: other in items;
      InsertSorts(item, rest);
      BeforeTotal(item.key, items[0].key);
      var longer := Insert(item, rest);
      forall j | 0 <= j < |longer| ensures Before(items[0].key, longer[j].key) {
        InsertedAmong(item, rest, longer[j]);
      }
    }
  }

  lemma {:induction false} SortSorts(items: seq<Item>)
    requires DistinctKeys(items)
    ensures Sorted(Sort(items)) && multiset(Sort(items)) == multiset(items)
  {
    if items != [] {
      SortSorts(items[1..]);
      forall other <- Sort(items[1..]) ensures other.key != items[0].key {
        assert other in multiset(Sort(items[1..]));
        assert other in items[1..];
      }
      InsertSorts(items[0], Sort(items[1..]));
      InsertContents(items[0], Sort(items[1..]));
      assert items == [items[0]] + items[1..];
    }
  }

  lemma SortedHead(a: seq<Item>, b: seq<Item>)
    requires Sorted(a) && Sorted(b) && a != [] && b != [] && a[0] in b && b[0] in a
    ensures a[0] == b[0]
  {
    var i :| 0 <= i < |b| && b[i] == a[0];
    var j :| 0 <= j < |a| && a[j] == b[0];
    BeforeTotal(a[0].key, b[0].key);
  }

  lemma TailContents(a: seq<Item>)
    requires a != []
    ensures multiset(a[1..]) == multiset(a) - multiset{a[0]}
  {
    assert a == [a[0]] + a[1..];
  }

  lemma {:induction false} SortedUnique(a: seq<Item>, b: seq<Item>)
    requires Sorted(a) && Sorted(b) && multiset(a) == multiset(b)
    ensures a == b
  {
    assert |multiset(a)| == |a| && |multiset(b)| == |b|;
    if a != [] {
      assert a[0] in multiset(b) && b[0] in multiset(a);
      SortedHead(a, b);
      TailContents(a);
      TailContents(b);
      SortedUnique(a[1..], b[1..]);
      assert a == [a[0]] + a[1..] && b == [b[0]] + b[1..];
    }
  }

  /** The dump depends on the contents of a dict and not on the order its keys were inserted in. */
  lemma InsertionOrderIrrelevant(a: seq<Item>, b: seq<Item>, rest: string)
    requires DistinctKeys(a) && DistinctKeys(b) && multiset(a) == multiset(b)
    ensures PutDict(a, rest) == PutDict(b, rest)
  {
    SortSorts(a);
    SortSorts(b);
    SortedUnique(Sort(a), Sort(b));
  }

  lemma ItemCut(a: Item, ra: string, b: Item, rb: string)
    requires PutItem(a, ra) == PutItem(b, rb)
    ensures a == b && ra == rb
  {
    StringCut(a.key, ":" + PutString(a.value, ra), b.key, ":" + PutString(b.value, rb));
    LiteralCut(":", PutString(a.value, ra), PutString(b.value, rb));
    StringCut(a.value, ra, b.value, rb);
  }

  lemma {:induction false} TailCut(a: seq<Item>, ra: string, b: seq<Item>, rb: string)
    requires PutTail(a, ra) == PutTail(b, rb)
    ensures a == b && ra == rb
  {
    assert PutTail(a, ra)[0] == if a == [] then '}' else ',';
    assert PutTail(b, rb)[0] == if b == [] then '}' else ',';
    if a == [] {
      LiteralCut("}", ra, rb);
    } else {
      var (ta, tb) := (PutTail(a[1..], ra), PutTail(b[1..], rb));
      LiteralCut(",", PutItem(a[0], ta), PutItem(b[0], tb));
      ItemCut(a[0], ta, b[0], tb);
      TailCut(a[1..], ra, b[1..], rb);
      assert a == [a[0]] + a[1..] && b == [b[0]] + b[1..];
    }
  }

  lemma ItemsCut(a: seq<Item>, ra: string, b: seq<Item>, rb: string)
    requires PutItems(a, ra) == PutItems(b, rb)
    ensures a == b && ra == rb
  {
    assert PutItems(a, ra)[0] == if a == [] then '}' else '\"';
    assert PutItems(b, rb)[0] == if b == [] then '}' else '\"';
    if a == [] {
      LiteralCut("}", ra, rb);
    } else {
      ItemCut(a[0], PutTail(a[1..], ra), b[0], PutTail(b[1..], rb));
      TailCut(a[1..], ra, b[1..], rb);
      assert a == [a[0]] + a[1..] && b == [b[0]] + b[1..];
    }
  }

  /** Two dumps that agree hold the same dict, and agree on what follows. */
  lemma DictCut(a: seq<Item>, ra: string, b: seq<Item>, rb: string)
    requires PutDict(a, ra) == PutDict(b, rb)
    requires DistinctKeys(a) && DistinctKeys(b)
    ensures multiset(a) == multiset(b) && ra == rb
  {
    LiteralCut("{", PutItems(Sort(a), ra), PutItems(Sort(b), rb));
    ItemsCut(Sort(a), ra, Sort(b), rb);
    SortSorts(a);
    SortSorts(b);
  }
}
