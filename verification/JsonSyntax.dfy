/**
 JSON trees and their compact text: no blanks, object keys sorted, characters outside ASCII as they
 are, numbers that are not finite refused. A float is the sign, digits and exponent it is written
 with. Parsing undoes printing on every finite tree.
 */
module JsonSyntax {
  import opened Arithmetic
  import opened Decimals

  datatype Number = Flag(b: bool) | Whole(i: int) | Real(negative: bool, digits: nat, exponent: int) | NotFinite

  datatype Json =
    | JNull
    | JText(text: string)
    | JNum(number: Number)
    | JList(items: seq<Json>)
    | JObject(fields: map<string, Json>)

  predicate FiniteTree(j: Json)
    decreases j
  {
    match j
    case JNum(n) => !n.NotFinite?
    case JList(items) => forall i | 0 <= i < |items| :: FiniteTree(items[i])
    case JObject(fields) => forall k | k in fields :: FiniteTree(fields[k])
    case _ => true
  }

  // ----- numbers -----

  function PrintInt(i: int): string {
    if i < 0 then "-" + PrintNat(-i) else PrintNat(i)
  }

  function PrintNumber(n: Number): string
    requires !n.NotFinite?
  {
    match n
    case Flag(b) => if b then "true" else "false"
    case Whole(i) => PrintInt(i)
    case Real(negative, digits, exponent) =>
      (if negative then "-" else "") + PrintNat(digits) + "e" + PrintInt(exponent)
  }

  // ----- text -----

  function HexDigit(d: nat): char
    requires d < 16
  {
    if d < 10 then (d + 48) as char else (d + 87) as char
  }

  /** The escapes of a quote, a backslash and the control characters. */
  function Escape(c: char): (s: string)
    ensures s != []
  {
    if c == '\"' then "\\\""
    else if c == '\\' then "\\\\"
    else if c == '\n' then "\\n"
    else if c == '\r' then "\\r"
    else if c == '\t' then "\\t"
    else if c as int == 8 then "\\b"
    else if c as int == 12 then "\\f"
    else if c as int < 32 then "\\u00" + [HexDigit(c as int / 16), HexDigit(c as int % 16)]
    else [c]
  }

  function Escaped(text: string): string {
    if text == [] then [] else Escape(text[0]) + Escaped(text[1..])
  }

  function Quoted(text: string): string {
    "\"" + Escaped(text) + "\""
  }

  // ----- sorted keys -----

  /** The order of strings by their characters' code points. */
  predicate NotAfter(a: string, b: string) {
    a == [] || (b != [] && (a[0] < b[0] || (a[0] == b[0] && NotAfter(a[1..], b[1..]))))
  }

  lemma {:induction false} NotAfterTotal(a: string, b: string)
    ensures NotAfter(a, b) || NotAfter(b, a)
    ensures NotAfter(a, b) && NotAfter(b, a) ==> a == b
  {
    if a != [] && b != [] && a[0] == b[0] {
      NotAfterTotal(a[1..], b[1..]);
      assert a == [a[0]] + a[1..] && b == [b[0]] + b[1..];
    }
  }

  lemma {:induction false} NotAfterTransitive(a: string, b: string, c: string)
    requires NotAfter(a, b) && NotAfter(b, c)
    ensures NotAfter(a, c)
  {
    if a != [] && a[0] == b[0] == c[0] {
      NotAfterTransitive(a[1..], b[1..], c[1..]);
    }
  }

  ghost function SomeKey(keys: set<string>): (k: string)
    requires keys != {}
    ensures k in keys
  {
    var k :| k in keys; k
  }

  lemma {:induction false} FirstKeyExists(keys: set<string>)
    requires keys != {}
    ensures exists k :: k in keys && forall x | x in keys :: NotAfter(k, x)
  {
    var k := SomeKey(keys);
    var rest := keys - {k};
    NotAfterTotal(k, k);
    if rest == {} {
      assert forall x | x in keys :: x == k || x in rest;
    } else {
      FirstKeyExists(rest);
      var m :| m in rest && forall x | x in rest :: NotAfter(m, x);
      NotAfterTotal(k, m);
      var first := if NotAfter(k, m) then k else m;
      forall x | x in keys ensures NotAfter(first, x) {
        if x != k {
          assert x in rest;
          if NotAfter(k, m) { NotAfterTransitive(k, m, x); }
        }
      }
    }
  }

  ghost function FirstKey(keys: set<string>): (k: string)
    requires keys != {}
    ensures k in keys && forall x | x in keys :: NotAfter(k, x)
  {
    FirstKeyExists(keys);
    var k :| k in keys && forall x | x in keys :: NotAfter(k, x);
    k
  }

  ghost function SortedKeys(keys: set<string>): (sorted: seq<string>)
    ensures forall k :: k in sorted <==> k in keys
    ensures AllDistinct(sorted)
    ensures forall i, j | 0 <= i < j < |sorted| :: NotAfter(sorted[i], sorted[j])
  {
    if keys == {} then []
    else
      var k := FirstKey(keys);
      var rest := SortedKeys(keys - {k});
      assert forall i | 0 <= i < |rest| :: rest[i] in keys - {k};
      [k] + rest
  }

  // ----- trees -----

  function Commas(parts: seq<string>): string {
    if parts == [] then []
    else if |parts| == 1 then parts[0]
    else parts[0] + "," + Commas(parts[1..])
  }

  ghost function PrintAll(items: seq<Json>): (parts: seq<string>)
    requires forall i | 0 <= i < |items| :: FiniteTree(items[i])
    ensures |parts| == |items| && forall i | 0 <= i < |items| :: parts[i] == Print(items[i])
    decreases items
  {
    seq(|items|, i requires 0 <= i < |items| => Print(items[i]))
  }

  ghost function Print(j: Json): string
    requires FiniteTree(j)
    decreases j
  {
    match j
    case JNull => "null"
    case JText(text) => Quoted(text)
    case JNum(n) => PrintNumber(n)
    case JList(items) => "[" + Commas(PrintAll(items)) + "]"
    case JObject(fields) =>
      var texts := map k | k in fields :: Print(fields[k]);
      "{" + Commas(Members(texts, SortedKeys(texts.Keys))) + "}"
  }

  function Members(texts: map<string, string>, keys: seq<string>): seq<string>
    requires forall k | k in keys :: k in texts
  {
    seq(|keys|, i requires 0 <= i < |keys| => Quoted(keys[i]) + ":" + texts[keys[i]])
  }

  // ----- parsing -----

  datatype Parsed<T> = Parsed(value: T, rest: string) | Stuck

  function TakeDigits(s: string): (n: nat)
    ensures n <= |s| && AllDigits(s[..n]) && (n < |s| ==> !IsDigit(s[n]))
  {
    if s == [] || !IsDigit(s[0]) then 0 else 1 + TakeDigits(s[1..])
  }

  function ParseNat(s: string): (r: Parsed<nat>)
    ensures r.Parsed? ==> |r.rest| < |s|
  {
    var n := TakeDigits(s);
    if n == 0 then Stuck else Parsed(NatOf(s[..n]), s[n..])
  }

  predicate Starts(s: string, c: char) { s != [] && s[0] == c }

  function ParseInt(s: string): (r: Parsed<int>)
    ensures r.Parsed? ==> |r.rest| < |s|
  {
    if Starts(s, '-') then
      match ParseNat(s[1..])
      case Stuck => Stuck
      case Parsed(n, rest) => Parsed(Signed(true, n), rest)
    else
      match ParseNat(s)
      case Stuck => Stuck
      case Parsed(n, rest) => Parsed(Signed(false, n), rest)
  }

  function Signed(negative: bool, n: int): int { if negative then -n else n }

  function ParseNumber(s: string): (r: Parsed<Json>)
    ensures r.Parsed? ==> |r.rest| < |s|
  {
    var negative := Starts(s, '-');
    match ParseNat(if negative then s[1..] else s)
    case Stuck => Stuck
    case Parsed(n, rest) =>
      if !Starts(rest, 'e') then Parsed(JNum(Whole(Signed(negative, n))), rest)
      else
        match ParseInt(rest[1..])
        case Stuck => Stuck
        case Parsed(exponent, after) => Parsed(JNum(Real(negative, n, exponent)), after)
  }

  function HexValue(c: char): int {
    if '0' <= c <= '9' then c as int - 48
    else if 'a' <= c <= 'f' then c as int - 87
    else if 'A' <= c <= 'F' then c as int - 55
    else -1
  }

  /** A character and how much of the text stood for it. */
  datatype Escaping = Escaping(c: char, size: nat) | NoEscape

  /** Four hexadecimal digits; pairs of surrogates are not combined. */
  function Unicode(s: string): (e: Escaping)
    ensures e.Escaping? ==> 0 < e.size <= |s|
  {
    if |s| < 4 || HexValue(s[0]) < 0 || HexValue(s[1]) < 0 || HexValue(s[2]) < 0 || HexValue(s[3]) < 0 then NoEscape
    else
      var n := ((HexValue(s[0]) * 16 + HexValue(s[1])) * 16 + HexValue(s[2])) * 16 + HexValue(s[3]);
      if n < 0xD800 || 0xE000 <= n < 0x1_0000 then Escaping(n as char, 4) else NoEscape
  }

  /** What follows a backslash. */
  function Unescape(s: string): (e: Escaping)
    ensures e.Escaping? ==> 0 < e.size <= |s|
  {
    if s == [] then NoEscape
    else if s[0] == '\"' || s[0] == '\\' || s[0] == '/' then Escaping(s[0], 1)
    else if s[0] == 'n' then Escaping('\n', 1)
    else if s[0] == 'r' then Escaping('\r', 1)
    else if s[0] == 't' then Escaping('\t', 1)
    else if s[0] == 'b' then Escaping(8 as char, 1)
    else if s[0] == 'f' then Escaping(12 as char, 1)
    else if s[0] == 'u' then
      match Unicode(s[1..])
      case NoEscape => NoEscape
      case Escaping(c, size) => Escaping(c, 1 + size)
    else NoEscape
  }

  function FirstPlain(s: string): (e: Escaping)
    requires s != []
    ensures e.Escaping? ==> 0 < e.size <= |s|
  {
    if s[0] == '\\' then
      match Unescape(s[1..])
      case NoEscape => NoEscape
      case Escaping(c, size) => Escaping(c, 1 + size)
    else if s[0] as int < 32 then NoEscape
    else Escaping(s[0], 1)
  }

  /** The characters up to the closing quote. */
  function ParseText(s: string): (r: Parsed<string>)
    ensures r.Parsed? ==> |r.rest| < |s|
    decreases |s|
  {
    if s == [] then Stuck
    else if s[0] == '\"' then Parsed([], s[1..])
    else
      match FirstPlain(s)
      case NoEscape => Stuck
      case Escaping(c, size) =>
        match ParseText(s[size..])
        case Stuck => Stuck
        case Parsed(text, rest) => Parsed([c] + text, rest)
  }

  function ParseWord(s: string, word: string, j: Json): (r: Parsed<Json>)
    requires word != []
    ensures r.Parsed? ==> |r.rest| < |s|
  {
    if word <= s then Parsed(j, s[|word|..]) else Stuck
  }

  function ParseValue(s: string): (r: Parsed<Json>)
    ensures r.Parsed? ==> |r.rest| < |s|
    decreases |s|, 0
  {
    if s == [] then Stuck
    else if s[0] == 'n' then ParseWord(s, "null", JNull)
    else if s[0] == 't' then ParseWord(s, "true", JNum(Flag(true)))
    else if s[0] == 'f' then ParseWord(s, "false", JNum(Flag(false)))
    else if s[0] == '\"' then
      match ParseText(s[1..])
      case Stuck => Stuck
      case Parsed(text, rest) => Parsed(JText(text), rest)
    else if s[0] == '[' then
      if Starts(s[1..], ']') then Parsed(JList([]), s[2..])
      else
        match ParseElements(s[1..])
        case Stuck => Stuck
        case Parsed(items, rest) => Parsed(JList(items), rest)
    else if s[0] == '{' then
      if Starts(s[1..], '}') then Parsed(JObject(map[]), s[2..])
      else
        match ParseMembers(s[1..])
        case Stuck => Stuck
        case Parsed(fields, rest) => Parsed(JObject(fields), rest)
    else ParseNumber(s)
  }

  /** One or more values and the closing bracket. */
  function ParseElements(s: string): (r: Parsed<seq<Json>>)
    ensures r.Parsed? ==> |r.rest| < |s|
    decreases |s|, 1
  {
    match ParseValue(s)
    case Stuck => Stuck
    case Parsed(item, rest) =>
      if Starts(rest, ']') then Parsed([item], rest[1..])
      else if Starts(rest, ',') then
        match ParseElements(rest[1..])
        case Stuck => Stuck
        case Parsed(items, after) => Parsed([item] + items, after)
      else Stuck
  }

  /** One or more members and the closing brace; the last of equal keys wins. */
  function ParseMembers(s: string): (r: Parsed<map<string, Json>>)
    ensures r.Parsed? ==> |r.rest| < |s|
    decreases |s|, 1
  {
    if !Starts(s, '\"') then Stuck
    else
      match ParseText(s[1..])
      case Stuck => Stuck
      case Parsed(key, colon) =>
        if !Starts(colon, ':') then Stuck
        else
          match ParseValue(colon[1..])
          case Stuck => Stuck
          case Parsed(item, rest) =>
            if Starts(rest, '}') then Parsed(map[key := item], rest[1..])
            else if Starts(rest, ',') then
              match ParseMembers(rest[1..])
              case Stuck => Stuck
              case Parsed(fields, after) => Parsed(map[key := item] + fields, after)
            else Stuck
  }

  /** A whole text is one value. */
  function Parse(s: string): Parsed<Json> {
    match ParseValue(s)
    case Stuck => Stuck
    case Parsed(j, rest) => if rest == [] then Parsed(j, []) else Stuck
  }

  // ----- parsing undoes printing -----

  /** What may follow a value. */
  predicate Stops(s: string) { s == [] || s[0] == ',' || s[0] == ']' || s[0] == '}' }

  lemma {:induction false} DigitsEnd(digits: string, rest: string)
    requires AllDigits(digits) && (rest == [] || !IsDigit(rest[0]))
    ensures TakeDigits(digits + rest) == |digits|
  {
    if digits == [] {
      assert digits + rest == rest;
    } else {
      DigitsEnd(digits[1..], rest);
      assert (digits + rest)[1..] == digits[1..] + rest;
    }
  }

  lemma NatParses(n: nat, rest: string)
    requires rest == [] || !IsDigit(rest[0])
    ensures ParseNat(PrintNat(n) + rest) == Parsed(n, rest)
    ensures IsDigit(PrintNat(n)[0])
  {
    var digits := PrintNat(n);
    DigitsEnd(digits, rest);
    hide PrintNat, NatOf, TakeDigits;
    assert (digits + rest)[..|digits|] == digits && (digits + rest)[|digits|..] == rest;
  }

  lemma MinusParses(digits: string, n: nat, rest: string)
    requires ParseNat(digits + rest) == Parsed(n, rest)
    ensures ParseInt("-" + digits + rest) == Parsed(Signed(true, n), rest)
  {
    hide ParseNat;
    assert ("-" + digits + rest)[1..] == digits + rest;
  }

  lemma PlainParses(digits: string, n: nat, rest: string)
    requires ParseNat(digits + rest) == Parsed(n, rest) && digits != [] && IsDigit(digits[0])
    ensures ParseInt(digits + rest) == Parsed(n, rest)
  {
    hide ParseNat;
    assert (digits + rest)[0] == digits[0];
  }

  lemma IntParses(i: int, rest: string)
    requires rest == [] || !IsDigit(rest[0])
    ensures ParseInt(PrintInt(i) + rest) == Parsed(i, rest)
  {
    hide PrintNat, ParseNat, ParseInt;
    if i < 0 {
      NatParses(-i, rest);
      MinusParses(PrintNat(-i), -i, rest);
    } else {
      NatParses(i, rest);
      PlainParses(PrintNat(i), i, rest);
    }
  }

  lemma NumberParses(n: Number, rest: string)
    requires !n.NotFinite? && !n.Flag? && Stops(rest)
    ensures ParseNumber(PrintNumber(n) + rest) == Parsed(JNum(n), rest)
    ensures PrintNumber(n)[0] == '-' || IsDigit(PrintNumber(n)[0])
  {
    match n
    case Whole(i) => WholeParses(i, rest);
    case Real(negative, digits, exponent) => RealParses(negative, digits, exponent, rest);
  }

  lemma WholeParses(i: int, rest: string)
    requires Stops(rest)
    ensures ParseNumber(PrintInt(i) + rest) == Parsed(JNum(Whole(i)), rest)
    ensures PrintInt(i)[0] == '-' || IsDigit(PrintInt(i)[0])
  {
    hide PrintNat, ParseNat;
    NatParses(if i < 0 then -i else i, rest);
    if i < 0 {
      assert (PrintInt(i) + rest)[1..] == PrintNat(-i) + rest;
    }
  }

  lemma Regroup(a: string, b: string, c: string, d: string, e: string)
    ensures a + b + c + d + e == a + (b + (c + (d + e)))
  {
  }

  lemma FirstOf(a: string, b: string, c: string, d: string)
    requires b != []
    ensures (a + b + c + d)[0] == if a == [] then b[0] else a[0]
  {
  }

  lemma RealParses(negative: bool, digits: nat, exponent: int, rest: string)
    requires Stops(rest)
    ensures var s := PrintNumber(Real(negative, digits, exponent));
            && ParseNumber(s + rest) == Parsed(JNum(Real(negative, digits, exponent)), rest)
            && (s[0] == '-' || IsDigit(s[0]))
  {
    var sign, number, power := if negative then "-" else "", PrintNat(digits), PrintInt(exponent);
    assert PrintNumber(Real(negative, digits, exponent)) == sign + number + "e" + power;
    var after := "e" + (power + rest);
    hide *;
    NatParses(digits, after);
    IntParses(exponent, rest);
    Regroup(sign, number, "e", power, rest);
    RealFrom(sign + (number + after), number + after, negative, digits, after, exponent, rest);
    FirstOf(sign, number, "e", power);
  }

  lemma RealFrom(s: string, body: string, negative: bool, n: nat, after: string, exponent: int, rest: string)
    requires s == (if negative then "-" else "") + body && body != [] && body[0] != '-'
    requires ParseNat(body) == Parsed(n, after) && Starts(after, 'e') && ParseInt(after[1..]) == Parsed(exponent, rest)
    ensures ParseNumber(s) == Parsed(JNum(Real(negative, n, exponent)), rest)
  {
    hide ParseNat, ParseInt;
    assert negative ==> s[1..] == body;
    assert !negative ==> s == body;
  }

  lemma EscapeUndone(c: char, rest: string)
    ensures Escape(c)[0] != '\"'
    ensures FirstPlain(Escape(c) + rest) == Escaping(c, |Escape(c)|)
  {
    hide HexDigit, HexValue, Unicode;
    var s := Escape(c) + rest;
    if Escape(c)[0] == '\\' {
      assert s[1..] == Escape(c)[1..] + rest;
      if Escape(c)[1] == 'u' {
        ControlUndone(c, rest);
        assert s[1..][1..] == "00" + [HexDigit(c as int / 16), HexDigit(c as int % 16)] + rest;
      }
    }
  }

  lemma ControlUndone(c: char, rest: string)
    requires c as int < 32
    ensures Unicode("00" + [HexDigit(c as int / 16), HexDigit(c as int % 16)] + rest) == Escaping(c, 4)
  {
    var n := c as int;
    HexUndone(n / 16);
    HexUndone(n % 16);
    DivMod(n, 16);
  }

  lemma HexUndone(d: nat)
    requires d < 16
    ensures HexValue(HexDigit(d)) == d
  {
  }

  lemma OneMoreChar(first: string, later: string, c: char)
    requires first != [] && first[0] != '\"' && FirstPlain(first + later) == Escaping(c, |first|)
    requires ParseText(later).Parsed?
    ensures ParseText(first + later) == Parsed([c] + ParseText(later).value, ParseText(later).rest)
  {
    hide FirstPlain;
    assert (first + later)[|first|..] == later;
  }

  lemma EscapedCons(text: string, rest: string)
    requires text != []
    ensures Escaped(text) + "\"" + rest == Escape(text[0]) + (Escaped(text[1..]) + "\"" + rest)
    ensures [text[0]] + text[1..] == text
  {
    hide Escape;
  }

  lemma EmptyText(rest: string)
    ensures ParseText(Escaped([]) + "\"" + rest) == Parsed([], rest)
  {
    assert (Escaped([]) + "\"" + rest)[1..] == rest;
    hide FirstPlain;
  }

  lemma {:induction false} TextParses(text: string, rest: string)
    ensures ParseText(Escaped(text) + "\"" + rest) == Parsed(text, rest)
  {
    hide *;
    if text == [] {
      EmptyText(rest);
    } else {
      var later := Escaped(text[1..]) + "\"" + rest;
      EscapedCons(text, rest);
      EscapeUndone(text[0], later);
      TextParses(text[1..], rest);
      OneMoreChar(Escape(text[0]), later, text[0]);
    }
  }

  lemma WordParses(word: string, j: Json, rest: string)
    requires word != []
    ensures ParseWord(word + rest, word, j) == Parsed(j, rest)
  {
    assert (word + rest)[..|word|] == word && (word + rest)[|word|..] == rest;
  }

  lemma PrintStarts(j: Json)
    requires FiniteTree(j)
    ensures Print(j) != [] && Print(j)[0] != ']'
  {
    if j.JNum? && !j.number.Flag? {
      NumberParses(j.number, "");
      hide PrintNumber;
    }
  }

  lemma LeafParses(j: Json, rest: string)
    requires FiniteTree(j) && Stops(rest) && !j.JList? && !j.JObject?
    ensures ParseValue(Print(j) + rest) == Parsed(j, rest)
  {
    match j
    case JNull => WordParses("null", JNull, rest);
    case JText(text) => QuotedParses(text, rest);
    case JNum(n) =>
      match n {
        case Flag(b) => WordParses(if b then "true" else "false", JNum(Flag(b)), rest);
        case _ => NumberIsValue(n, rest);
      }
  }

  lemma NumberIsValue(n: Number, rest: string)
    requires !n.NotFinite? && !n.Flag? && Stops(rest)
    ensures ParseValue(PrintNumber(n) + rest) == Parsed(JNum(n), rest)
  {
    var s := PrintNumber(n) + rest;
    NumberParses(n, rest);
    hide *;
    assert s[0] == PrintNumber(n)[0];
    ValueIsNumber(s);
  }

  lemma ValueIsNumber(s: string)
    requires s != [] && (s[0] == '-' || IsDigit(s[0]))
    ensures ParseValue(s) == ParseNumber(s)
  {
    hide ParseNumber, ParseText, ParseElements, ParseMembers, ParseWord;
  }

  lemma QuotedParses(text: string, rest: string)
    ensures ParseValue(Quoted(text) + rest) == Parsed(JText(text), rest)
    ensures ParseText((Quoted(text) + rest)[1..]) == Parsed(text, rest) && (Quoted(text) + rest)[0] == '\"'
  {
    TextParses(text, rest);
    hide Escaped, ParseText;
    assert (Quoted(text) + rest)[1..] == Escaped(text) + "\"" + rest;
  }

  lemma OneElement(first: string, j: Json, rest: string)
    requires ParseValue(first + ("]" + rest)) == Parsed(j, "]" + rest)
    ensures ParseElements(first + "]" + rest) == Parsed([j], rest)
  {
    hide ParseValue;
    assert first + "]" + rest == first + ("]" + rest);
    assert ("]" + rest)[1..] == rest;
  }

  lemma MoreElements(first: string, j: Json, later: string, items: seq<Json>, rest: string)
    requires ParseValue(first + ("," + (later + "]" + rest))) == Parsed(j, "," + (later + "]" + rest))
    requires ParseElements(later + "]" + rest) == Parsed(items, rest)
    ensures ParseElements(first + "," + later + "]" + rest) == Parsed([j] + items, rest)
  {
    hide ParseValue;
    var after := later + "]" + rest;
    assert first + "," + later + "]" + rest == first + ("," + after);
    assert ("," + after)[1..] == after;
  }

  lemma {:induction false} ElementsParse(items: seq<Json>, rest: string)
    requires items != [] && forall i | 0 <= i < |items| :: FiniteTree(items[i])
    ensures ParseElements(Commas(PrintAll(items)) + "]" + rest) == Parsed(items, rest)
    decreases items
  {
    var first, others := Print(items[0]), items[1..];
    PrintCons(items);
    if |items| == 1 {
      hide *;
      ParsePrint(items[0], "]" + rest);
      OneElement(first, items[0], rest);
    } else {
      hide *;
      var later := Commas(PrintAll(others));
      ElementsParse(others, rest);
      ParsePrint(items[0], "," + (later + "]" + rest));
      MoreElements(first, items[0], later, others, rest);
    }
  }

  lemma RestFinite(items: seq<Json>)
    requires items != [] && forall i | 0 <= i < |items| :: FiniteTree(items[i])
    ensures forall i | 0 <= i < |items[1..]| :: FiniteTree(items[1..][i])
    ensures if |items| == 1 then [items[0]] == items else items[1..] != [] && [items[0]] + items[1..] == items
  {
    hide FiniteTree;
    assert forall i | 0 <= i < |items[1..]| :: items[1..][i] == items[i + 1];
  }

  lemma RestPrinted(items: seq<Json>, others: seq<Json>)
    requires items != [] && others == items[1..]
    requires forall i | 0 <= i < |items| :: FiniteTree(items[i])
    requires forall i | 0 <= i < |others| :: FiniteTree(others[i])
    ensures PrintAll(items)[0] == Print(items[0]) && PrintAll(items)[1..] == PrintAll(others)
  {
    hide Print, FiniteTree, PrintAll;
    assert forall i | 0 <= i < |others| :: others[i] == items[i + 1];
  }

  lemma PrintCons(items: seq<Json>)
    requires items != [] && forall i | 0 <= i < |items| :: FiniteTree(items[i])
    ensures forall i | 0 <= i < |items[1..]| :: FiniteTree(items[1..][i])
    ensures if |items| == 1 then [items[0]] == items else items[1..] != [] && [items[0]] + items[1..] == items
    ensures Commas(PrintAll(items)) ==
      if |items| == 1 then Print(items[0]) else Print(items[0]) + "," + Commas(PrintAll(items[1..]))
  {
    RestFinite(items);
    RestPrinted(items, items[1..]);
    hide Print, FiniteTree, PrintAll;
  }

  lemma ListIsValue(body: string, items: seq<Json>, rest: string)
    requires body != [] && body[0] != ']' && ParseElements(body + "]" + rest) == Parsed(items, rest)
    ensures ParseValue("[" + body + "]" + rest) == Parsed(JList(items), rest)
  {
    hide ParseElements;
    assert ("[" + body + "]" + rest)[1..] == body + "]" + rest;
  }

  lemma ListParses(items: seq<Json>, rest: string)
    requires forall i | 0 <= i < |items| :: FiniteTree(items[i])
    requires items != [] ==> ParseElements(Commas(PrintAll(items)) + "]" + rest) == Parsed(items, rest)
    ensures ParseValue(Print(JList(items)) + rest) == Parsed(JList(items), rest)
  {
    var body := Commas(PrintAll(items));
    assert Print(JList(items)) == "[" + body + "]";
    if items == [] {
      assert "[" + body + "]" + rest == "[]" + rest;
    } else {
      PrintStarts(items[0]);
      hide Print, ParseValue, ParseElements;
      CommasStart(PrintAll(items));
      ListIsValue(body, items, rest);
    }
  }

  lemma CommasStart(parts: seq<string>)
    requires parts != [] && parts[0] != []
    ensures Commas(parts) != [] && Commas(parts)[0] == parts[0][0]
  {
  }

  lemma KeyParses(key: string, value: string, after: string)
    ensures var s := Quoted(key) + ":" + value + after;
            Starts(s, '\"') && ParseText(s[1..]) == Parsed(key, ":" + (value + after))
  {
    QuotedParses(key, ":" + (value + after));
    hide Quoted, ParseText;
    assert Quoted(key) + ":" + value + after == Quoted(key) + (":" + (value + after));
  }

  lemma OneMember(key: string, value: string, j: Json, rest: string)
    requires ParseValue(value + ("}" + rest)) == Parsed(j, "}" + rest)
    ensures ParseMembers(Quoted(key) + ":" + value + "}" + rest) == Parsed(map[key := j], rest)
  {
    var after := "}" + rest;
    KeyParses(key, value, after);
    hide ParseValue, ParseText, Quoted;
    assert Quoted(key) + ":" + value + "}" + rest == Quoted(key) + ":" + value + after;
    assert after[1..] == rest && (":" + (value + after))[1..] == value + after;
  }

  lemma MoreMembers(key: string, value: string, j: Json, later: string, fields: map<string, Json>, rest: string)
    requires ParseValue(value + ("," + (later + "}" + rest))) == Parsed(j, "," + (later + "}" + rest))
    requires ParseMembers(later + "}" + rest) == Parsed(fields, rest)
    ensures ParseMembers(Quoted(key) + ":" + value + "," + later + "}" + rest) == Parsed(map[key := j] + fields, rest)
  {
    var body := later + "}" + rest;
    var after := "," + body;
    KeyParses(key, value, after);
    hide ParseValue, ParseText, Quoted;
    assert Quoted(key) + ":" + value + "," + later + "}" + rest == Quoted(key) + ":" + value + after;
    assert after[1..] == body && (":" + (value + after))[1..] == value + after;
  }

  function Restricted(fields: map<string, Json>, keys: seq<string>): map<string, Json>
    requires forall k | k in keys :: k in fields
  {
    map k | k in keys :: fields[k]
  }

  ghost function Texts(fields: map<string, Json>): (texts: map<string, string>)
    requires forall k | k in fields :: FiniteTree(fields[k])
    ensures texts.Keys == fields.Keys && forall k | k in fields :: texts[k] == Print(fields[k])
  {
    map k | k in fields :: Print(fields[k])
  }

  lemma {:induction false} MembersParse(j: Json, keys: seq<string>, rest: string)
    requires j.JObject? && FiniteTree(j)
    requires keys != [] && AllDistinct(keys) && forall k | k in keys :: k in j.fields
    ensures ParseMembers(Commas(Members(Texts(j.fields), keys)) + "}" + rest) == Parsed(Restricted(j.fields, keys), rest)
    decreases j, 0, |keys|
  {
    var texts, k := Texts(j.fields), keys[0];
    var item, value := j.fields[k], texts[k];
    assert k in keys && FiniteTree(item) && value == Print(item);
    MembersCons(texts, keys);
    RestrictedCons(j.fields, keys);
    var others := keys[1..];
    var fields := Restricted(j.fields, others);
    hide *;
    if others == [] {
      ParsePrint(item, "}" + rest);
      OneMember(k, value, item, rest);
    } else {
      var later := Commas(Members(texts, others));
      MembersParse(j, others, rest);
      ParsePrint(item, "," + (later + "}" + rest));
      MoreMembers(k, value, item, later, fields, rest);
    }
  }

  lemma MembersCons(texts: map<string, string>, keys: seq<string>)
    requires keys != [] && forall k | k in keys :: k in texts
    ensures forall k | k in keys[1..] :: k in texts
    ensures Commas(Members(texts, keys)) ==
      if |keys| == 1 then Quoted(keys[0]) + ":" + texts[keys[0]]
      else Quoted(keys[0]) + ":" + texts[keys[0]] + "," + Commas(Members(texts, keys[1..]))
  {
    hide Quoted;
    assert |keys| > 1 ==> Members(texts, keys)[1..] == Members(texts, keys[1..]);
  }

  lemma RestrictedCons(fields: map<string, Json>, keys: seq<string>)
    requires keys != [] && AllDistinct(keys) && forall k | k in keys :: k in fields
    ensures AllDistinct(keys[1..]) && forall k | k in keys[1..] :: k in fields
    ensures Restricted(fields, keys) == map[keys[0] := fields[keys[0]]] + Restricted(fields, keys[1..])
    ensures |keys| == 1 ==> Restricted(fields, keys) == map[keys[0] := fields[keys[0]]]
  {
    assert forall k :: k in keys <==> k == keys[0] || k in keys[1..];
  }

  lemma ObjectIsValue(body: string, fields: map<string, Json>, rest: string)
    requires body != [] && body[0] == '\"' && ParseMembers(body + "}" + rest) == Parsed(fields, rest)
    ensures ParseValue("{" + body + "}" + rest) == Parsed(JObject(fields), rest)
  {
    hide ParseMembers;
    assert ("{" + body + "}" + rest)[1..] == body + "}" + rest;
  }

  lemma ObjectParses(fields: map<string, Json>, keys: seq<string>, rest: string)
    requires FiniteTree(JObject(fields)) && keys == SortedKeys(fields.Keys)
    requires keys != [] ==>
      ParseMembers(Commas(Members(Texts(fields), keys)) + "}" + rest) == Parsed(Restricted(fields, keys), rest)
    ensures ParseValue(Print(JObject(fields)) + rest) == Parsed(JObject(fields), rest)
  {
    var body := Commas(Members(Texts(fields), keys));
    assert Print(JObject(fields)) == "{" + body + "}";
    AllKeys(fields, keys);
    hide *;
    if keys == [] {
      NoFields(fields, body, rest);
    } else {
      MembersStart(Texts(fields), keys);
      ObjectIsValue(body, fields, rest);
    }
  }

  lemma AllKeys(fields: map<string, Json>, keys: seq<string>)
    requires forall k :: k in keys <==> k in fields
    ensures Restricted(fields, keys) == fields
    ensures keys == [] ==> fields == map[] && forall texts :: Commas(Members(texts, keys)) == []
  {
    if keys == [] {
      assert forall k :: k !in fields;
    }
  }

  lemma NoFields(fields: map<string, Json>, body: string, rest: string)
    requires fields == map[] && body == []
    ensures ParseValue("{" + body + "}" + rest) == Parsed(JObject(fields), rest)
  {
    hide ParseMembers;
    var s := "{" + body + "}" + rest;
    assert s[0] == '{' && s[1] == '}' && s[2..] == rest;
  }

  lemma MembersStart(texts: map<string, string>, keys: seq<string>)
    requires keys != [] && forall k | k in keys :: k in texts
    ensures Commas(Members(texts, keys)) != [] && Commas(Members(texts, keys))[0] == '\"'
  {
    assert Members(texts, keys)[0] == Quoted(keys[0]) + ":" + texts[keys[0]];
    hide Members;
    CommasStart(Members(texts, keys));
  }

  /** A printed tree parses to itself, whatever follows it in a list or object. */
  lemma {:induction false} ParsePrint(j: Json, rest: string)
    requires FiniteTree(j) && Stops(rest)
    ensures ParseValue(Print(j) + rest) == Parsed(j, rest)
    decreases j, 1
  {
    match j
    case JList(items) =>
      if items != [] { ElementsParse(items, rest); }
      ListParses(items, rest);
    case JObject(fields) =>
      var keys := SortedKeys(fields.Keys);
      if keys != [] { MembersParse(j, keys, rest); }
      ObjectParses(fields, keys, rest);
    case _ => LeafParses(j, rest);
  }

  /** Every finite tree is read back from its text. */
  lemma TextRoundTrip(j: Json)
    requires FiniteTree(j)
    ensures Parse(Print(j)) == Parsed(j, [])
  {
    ParsePrint(j, []);
    hide ParseValue, Print;
    assert Print(j) + [] == Print(j);
  }

  // ----- texts written out -----

  lemma ListExample()
    ensures Print(JList([JNull, JNum(Flag(true))])) == "[null,true]"
  {
    var items := [JNull, JNum(Flag(true))];
    var parts := PrintAll(items);
    assert parts[0] == "null" && parts[1] == "true";
    assert parts[1..] == ["true"];
    assert Commas(parts) == "null" + "," + "true";
  }

  lemma TextExample()
    ensures Quoted("\"a") == "\"\\\"a\""
  {
    assert "\"a"[1..] == "a" && "a"[1..] == "";
    assert Escape('\"') == "\\\"" && Escape('a') == "a";
    assert Escaped("a") == "a";
  }

  lemma ObjectExample()
    ensures Print(JObject(map["a" := JNull])) == "{\"a\":null}"
    ensures NotAfter("a", "b") && !NotAfter("b", "a")
  {
    var texts := map k | k in map["a" := JNull] :: Print(map["a" := JNull][k]);
    OneKey(texts.Keys, "a");
    MemberExample(texts);
    hide Members, SortedKeys, Escaped;
    assert Commas(["\"a\":null"]) == "\"a\":null";
  }

  lemma MemberExample(texts: map<string, string>)
    requires texts == map["a" := "null"]
    ensures Members(texts, ["a"]) == ["\"a\":null"]
  {
    assert Escaped("a") == "a" by { assert "a"[1..] == ""; }
    assert Quoted("a") == "\"" + "a" + "\"";
    var member := Members(texts, ["a"])[0];
    assert member == Quoted("a") + ":" + "null";
    assert member == "\"a\":null";
  }

  lemma OneKey(keys: set<string>, a: string)
    requires keys == {a}
    ensures SortedKeys(keys) == [a]
  {
    hide NotAfter;
    assert FirstKey(keys) == a && keys - {a} == {};
    assert SortedKeys({}) == [];
  }
}
