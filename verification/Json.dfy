/** JSON texts (RFC 8259) as json.dumps writes and json.loads reads them: integers, no other numbers; object members
    as a list, in order. */
module Json {
  import opened Wrappers

  datatype Value =
    | Null
    | Bool(b: bool)
    | Num(n: int)
    | Str(s: string)
    | Arr(items: Items)
    | Obj(members: Members)

  datatype Items = NoItems | Item(head: Value, tail: Items)

  datatype Members = NoMembers | Member(key: string, value: Value, tail: Members)

  // ---------------------------------------------------------------------
  // Strings
  // ---------------------------------------------------------------------

  type digit16 = n: int | 0 <= n < 16

  function HexDigit(n: digit16): char {
    "0123456789abcdef"[n]
  }

  function HexValue(c: char): Option<digit16> {
    if '0' <= c <= '9' then Some(c as int - '0' as int)
    else if 'a' <= c <= 'f' then Some(c as int - 'a' as int + 10)
    else if 'A' <= c <= 'F' then Some(c as int - 'A' as int + 10)
    else None
  }

  type codeUnit = n: int | 0 <= n < 0x1_0000

  function Hex4(n: codeUnit): (s: string)
    ensures |s| == 4
  {
    [HexDigit(n / 0x1000), HexDigit(n / 0x100 % 0x10), HexDigit(n / 0x10 % 0x10), HexDigit(n % 0x10)]
  }

  function FromHex4(s: string): Option<codeUnit>
    requires |s| == 4
  {
    match (HexValue(s[0]), HexValue(s[1]), HexValue(s[2]), HexValue(s[3]))
    case (Some(a), Some(b), Some(c), Some(d)) => Some(Assembled(a, b, c, d))
    case _ => None
  }

  function Assembled(a: int, b: int, c: int, d: int): codeUnit
    requires 0 <= a < 16 && 0 <= b < 16 && 0 <= c < 16 && 0 <= d < 16
  {
    0x1000 * a + 0x100 * b + 0x10 * c + d
  }

  lemma HexDigitRead(n: digit16)
    ensures HexValue(HexDigit(n)) == Some(n)
  {
  }

  lemma Nibbles(n: codeUnit)
    ensures 0x1000 * (n / 0x1000) + 0x100 * (n / 0x100 % 0x10) + 0x10 * (n / 0x10 % 0x10) + n % 0x10 == n
  {
    DivTwice(n, 0x10);
    DivTwice(n, 0x100);
    var a, b, c := n / 0x10, n / 0x100, n / 0x1000;
    assert n == 0x10 * a + n % 0x10;
    assert a == 0x10 * b + a % 0x10;
    assert b == 0x10 * c + b % 0x10;
  }

  lemma DivTwice(n: codeUnit, d: nat)
    requires d == 0x10 || d == 0x100
    ensures n / d / 0x10 == n / (0x10 * d)
  {
  }

  lemma Hex4Read(n: codeUnit)
    ensures FromHex4(Hex4(n)) == Some(n)
  {
    hide HexDigit, HexValue;
    HexDigitRead(n / 0x1000);
    HexDigitRead(n / 0x100 % 0x10);
    HexDigitRead(n / 0x10 % 0x10);
    HexDigitRead(n % 0x10);
    Nibbles(n);
  }

  predicate IsHigh(n: int) {
    0xD800 <= n < 0xDC00
  }

  predicate IsLow(n: int) {
    0xDC00 <= n < 0xE000
  }

  /** Printable ASCII but for the quote and the backslash stands for itself; DEL and all of non-ASCII is escaped. */
  function Escape(c: char): (s: string) {
    if c == '"' then "\\\""
    else if c == '\\' then "\\\\"
    else if c == '\n' then "\\n"
    else if c == '\r' then "\\r"
    else if c == '\t' then "\\t"
    else if c as int == 0x0C then "\\f"
    else if c as int == 0x08 then "\\b"
    else if ' ' <= c <= '~' then [c]
    else if c as int < 0x1_0000 then "\\u" + Hex4(c as int)
    else
      var v := c as int - 0x1_0000;
      "\\u" + Hex4(0xD800 + v / 0x400) + "\\u" + Hex4(0xDC00 + v % 0x400)
  }

  function Escaped(s: string): string {
    if s == "" then "" else Escape(s[0]) + Escaped(s[1..])
  }

  function Quoted(s: string): string {
    "\"" + Escaped(s) + "\""
  }

  type Parsed<T> = Option<(T, string)>

  function Prepend(c: char, r: Parsed<string>): Parsed<string> {
    match r
    case Some((s, rest)) => Some(([c] + s, rest))
    case None => None
  }

  /** One escape behind its backslash: the character and what follows. A surrogate without its partner is refused. */
  function ParseEscape(s: string): (r: Parsed<char>)
    ensures r.Some? ==> |r.value.1| < |s|
  {
    if s == "" then None
    else
      var rest := s[1..];
      match s[0]
      case '"' => Some(('"', rest))
      case '\\' => Some(('\\', rest))
      case '/' => Some(('/', rest))
      case 'n' => Some(('\n', rest))
      case 'r' => Some(('\r', rest))
      case 't' => Some(('\t', rest))
      case 'f' => Some((0x0C as char, rest))
      case 'b' => Some((0x08 as char, rest))
      case 'u' => ParseUnicode(rest)
      case _ => None
  }

  function ParseUnicode(s: string): (r: Parsed<char>)
    ensures r.Some? ==> |r.value.1| < |s|
  {
    if |s| < 4 then None
    else
      match FromHex4(s[..4])
      case None => None
      case Some(n) =>
        if IsHigh(n) then
          if |s| < 10 || s[4..6] != "\\u" then None
          else
            match FromHex4(s[6..10])
            case None => None
            case Some(m) => if IsLow(m) then Some((Combined(n, m), s[10..])) else None
        else if IsLow(n) then None
        else Some((n as char, s[4..]))
  }

  function Combined(high: int, low: int): char
    requires IsHigh(high) && IsLow(low)
  {
    (0x1_0000 + 0x400 * (high - 0xD800) + (low - 0xDC00)) as char
  }

  /** A string behind its opening quote. */
  function ParseString(s: string): (r: Parsed<string>)
    ensures r.Some? ==> |r.value.1| < |s|
    decreases |s|
  {
    if s == "" || s[0] < ' ' then None
    else if s[0] == '"' then Some(("", s[1..]))
    else if s[0] == '\\' then
      match ParseEscape(s[1..])
      case None => None
      case Some((c, rest)) => Prepend(c, ParseString(rest))
    else Prepend(s[0], ParseString(s[1..]))
  }

  lemma UnicodeRead(n: codeUnit, rest: string)
    requires !IsHigh(n) && !IsLow(n)
    ensures ParseUnicode(Hex4(n) + rest) == Some((n as char, rest))
  {
    hide Hex4, FromHex4;
    var s := Hex4(n) + rest;
    Hex4Read(n);
    assert s[..4] == Hex4(n) && s[4..] == rest;
  }

  lemma SurrogatesRead(high: codeUnit, low: codeUnit, rest: string)
    requires IsHigh(high) && IsLow(low)
    ensures ParseUnicode(Hex4(high) + "\\u" + Hex4(low) + rest) == Some((Combined(high, low), rest))
  {
    hide Hex4, FromHex4;
    var s := Hex4(high) + "\\u" + Hex4(low) + rest;
    Hex4Read(high);
    Hex4Read(low);
    assert s[..4] == Hex4(high) && s[4..6] == "\\u" && s[6..10] == Hex4(low) && s[10..] == rest;
  }

  lemma SurrogatesOf(c: char)
    requires c as int >= 0x1_0000
    ensures var v := c as int - 0x1_0000;
            && IsHigh(0xD800 + v / 0x400) && IsLow(0xDC00 + v % 0x400)
            && Combined(0xD800 + v / 0x400, 0xDC00 + v % 0x400) == c
  {
    var v := c as int - 0x1_0000;
    assert 0x400 * (v / 0x400) + v % 0x400 == v;
  }

  predicate IsPlain(c: char) {
    ' ' <= c <= '~' && c != '"' && c != '\\'
  }

  predicate HasShortEscape(c: char) {
    c == '"' || c == '\\' || c == '\n' || c == '\r' || c == '\t' || c as int == 0x0C || c as int == 0x08
  }

  lemma ShortEscapeRead(c: char, rest: string)
    requires HasShortEscape(c)
    ensures |Escape(c)| == 2 && Escape(c)[0] == '\\' && ParseEscape([Escape(c)[1]] + rest) == Some((c, rest))
  {
    hide Hex4, ParseUnicode;
    assert ([Escape(c)[1]] + rest)[1..] == rest;
  }

  lemma LongEscapeRead(c: char, rest: string)
    requires !HasShortEscape(c) && !IsPlain(c)
    ensures Escape(c) != "" && Escape(c)[0] == '\\' && ParseEscape(Escape(c)[1..] + rest) == Some((c, rest))
  {
    hide Hex4, ParseUnicode;
    var s := Escape(c)[1..] + rest;
    if c as int < 0x1_0000 {
      assert s == "u" + (Hex4(c as int) + rest) && s[1..] == Hex4(c as int) + rest;
      UnicodeRead(c as int, rest);
    } else {
      var v := c as int - 0x1_0000;
      var high, low := 0xD800 + v / 0x400, 0xDC00 + v % 0x400;
      assert s == "u" + (Hex4(high) + "\\u" + Hex4(low) + rest) && s[1..] == Hex4(high) + "\\u" + Hex4(low) + rest;
      SurrogatesOf(c);
      SurrogatesRead(high, low, rest);
    }
  }

  lemma EscapeRead(c: char, rest: string)
    ensures ParseString(Escape(c) + rest) == Prepend(c, ParseString(rest))
  {
    hide Hex4, ParseUnicode, Prepend, ParseEscape;
    var s := Escape(c) + rest;
    if IsPlain(c) {
      assert s[0] == c && s[1..] == rest;
    } else {
      hide Escape;
      if HasShortEscape(c) {
        ShortEscapeRead(c, rest);
        assert s[1..] == [Escape(c)[1]] + rest;
      } else {
        LongEscapeRead(c, rest);
        assert s[1..] == Escape(c)[1..] + rest;
      }
    }
  }

  /** Reading a printed string yields the string, whatever its characters. */
  lemma {:induction false} StringRead(s: string, rest: string)
    ensures ParseString(Escaped(s) + "\"" + rest) == Some((s, rest))
  {
    hide Escape;
    if s == "" {
      assert Escaped(s) + "\"" + rest == "\"" + rest;
      assert ("\"" + rest)[1..] == rest;
    } else {
      var more := Escaped(s[1..]) + "\"" + rest;
      assert Escaped(s) + "\"" + rest == Escape(s[0]) + more;
      EscapeRead(s[0], more);
      StringRead(s[1..], rest);
      assert [s[0]] + s[1..] == s;
    }
  }

  // ---------------------------------------------------------------------
  // Integers
  // ---------------------------------------------------------------------

  predicate IsDigit(c: char) {
    '0' <= c <= '9'
  }

  function Digits(n: nat): (s: string)
    ensures s != ""
  {
    if n < 10 then ["0123456789"[n]] else Digits(n / 10) + ["0123456789"[n % 10]]
  }

  function IntText(n: int): string {
    if n < 0 then "-" + Digits(-n) else Digits(n)
  }

  function DigitValue(c: char): nat
    requires IsDigit(c)
  {
    c as int - '0' as int
  }

  /** Takes all digits that follow. */
  function ParseDigits(acc: nat, s: string): (r: (nat, string))
    ensures |r.1| <= |s|
    decreases |s|
  {
    if s != "" && IsDigit(s[0]) then ParseDigits(10 * acc + DigitValue(s[0]), s[1..]) else (acc, s)
  }

  lemma LastDigit(n: nat, rest: string)
    ensures var c := "0123456789"[n % 10];
            && IsDigit(c) && (n % 10 != 0 ==> c != '0')
            && ParseDigits(n / 10, [c] + rest) == ParseDigits(n, rest)
  {
    var c := "0123456789"[n % 10];
    assert DigitValue(c) == n % 10;
    assert ([c] + rest)[1..] == rest;
  }

  lemma {:induction false} DigitsRead(n: nat, rest: string)
    ensures ParseDigits(0, Digits(n) + rest) == ParseDigits(n, rest)
    ensures forall k :: 0 <= k < |Digits(n)| ==> IsDigit(Digits(n)[k])
    ensures n > 0 ==> Digits(n)[0] != '0'
  {
    hide ParseDigits;
    LastDigit(n, rest);
    if n >= 10 {
      var last := ["0123456789"[n % 10]];
      DigitsRead(n / 10, last + rest);
      assert Digits(n) + rest == Digits(n / 10) + (last + rest);
    }
  }

  // ---------------------------------------------------------------------
  // Values
  // ---------------------------------------------------------------------

  function Print(v: Value): string {
    match v
    case Null => "null"
    case Bool(b) => if b then "true" else "false"
    case Num(n) => IntText(n)
    case Str(s) => Quoted(s)
    case Arr(items) => "[" + PrintItems(items) + "]"
    case Obj(members) => "{" + PrintMembers(members) + "}"
  }

  function PrintItems(items: Items): string {
    match items
    case NoItems => ""
    case Item(head, tail) => Print(head) + (if tail == NoItems then "" else ", " + PrintItems(tail))
  }

  function PrintMembers(members: Members): string {
    match members
    case NoMembers => ""
    case Member(key, value, tail) =>
      Quoted(key) + ": " + Print(value) + (if tail == NoMembers then "" else ", " + PrintMembers(tail))
  }

  predicate IsJsonSpace(c: char) {
    c == ' ' || c == '\t' || c == '\n' || c == '\r'
  }

  function Skip(s: string): (r: string)
    ensures |r| <= |s|
  {
    if s != "" && IsJsonSpace(s[0]) then Skip(s[1..]) else s
  }

  /** Behind an integer these would make another number of it. */
  predicate ContinuesNumber(s: string) {
    s != "" && (IsDigit(s[0]) || s[0] == '.' || s[0] == 'e' || s[0] == 'E')
  }

  /** An unsigned integer; a leading zero stands alone. */
  function ParseNat(s: string): (r: Parsed<int>)
    ensures r.Some? ==> |r.value.1| < |s|
  {
    if s == "" || !IsDigit(s[0]) then None
    else
      var (n, rest) := if s[0] == '0' then (0, s[1..]) else ParseDigits(DigitValue(s[0]), s[1..]);
      if rest != "" && (rest[0] == '.' || rest[0] == 'e' || rest[0] == 'E') then None else Some((n, rest))
  }

  function ParseInt(s: string): (r: Parsed<int>)
    ensures r.Some? ==> |r.value.1| < |s|
  {
    if s != "" && s[0] == '-' then
      match ParseNat(s[1..])
      case Some((n, rest)) => Some((-n, rest))
      case None => None
    else
      match ParseNat(s)
      case Some((n, rest)) => Some((n, rest))
      case None => None
  }

  function ParseWord(s: string, word: string, v: Value): (r: Parsed<Value>)
    requires word != ""
    ensures r.Some? ==> |r.value.1| < |s|
  {
    if word <= s then Some((v, s[|word|..])) else None
  }

  function ParseValue(s: string): (r: Parsed<Value>)
    ensures r.Some? ==> |r.value.1| < |s|
    decreases |s|, 1
  {
    if s == "" then None
    else if s[0] == '"' then
      match ParseString(s[1..])
      case Some((text, rest)) => Some((Str(text), rest))
      case None => None
    else if s[0] == '{' then
      var t := Skip(s[1..]);
      if t != "" && t[0] == '}' then Some((Obj(NoMembers), t[1..]))
      else
        match ParseMembers(t)
        case Some((members, rest)) => Some((Obj(members), rest))
        case None => None
    else if s[0] == '[' then
      var t := Skip(s[1..]);
      if t != "" && t[0] == ']' then Some((Arr(NoItems), t[1..]))
      else
        match ParseItems(t)
        case Some((items, rest)) => Some((Arr(items), rest))
        case None => None
    else if s[0] == 'n' then ParseWord(s, "null", Null)
    else if s[0] == 't' then ParseWord(s, "true", Bool(true))
    else if s[0] == 'f' then ParseWord(s, "false", Bool(false))
    else
      match ParseInt(s)
      case Some((n, rest)) => Some((Num(n), rest))
      case None => None
  }

  function ParseItems(s: string): (r: Parsed<Items>)
    ensures r.Some? ==> |r.value.1| < |s|
    decreases |s|, 2
  {
    match ParseValue(s)
    case None => None
    case Some((head, rest)) =>
      var t := Skip(rest);
      if t == "" then None
      else if t[0] == ']' then Some((Item(head, NoItems), t[1..]))
      else if t[0] != ',' then None
      else
        match ParseItems(Skip(t[1..]))
        case Some((tail, end)) => Some((Item(head, tail), end))
        case None => None
  }

  /** A key, a colon and a value. */
  function ParseMember(s: string): (r: Parsed<(string, Value)>)
    ensures r.Some? ==> |r.value.1| < |s|
    decreases |s|, 2
  {
    if s == "" || s[0] != '"' then None
    else
      match ParseString(s[1..])
      case None => None
      case Some((key, afterKey)) =>
        var colon := Skip(afterKey);
        if colon == "" || colon[0] != ':' then None
        else
          match ParseValue(Skip(colon[1..]))
          case None => None
          case Some((value, rest)) => Some(((key, value), rest))
  }

  function ParseMembers(s: string): (r: Parsed<Members>)
    ensures r.Some? ==> |r.value.1| < |s|
    decreases |s|, 3
  {
    match ParseMember(s)
    case None => None
    case Some(((key, value), rest)) =>
      var t := Skip(rest);
      if t == "" then None
      else if t[0] == '}' then Some((Member(key, value, NoMembers), t[1..]))
      else if t[0] != ',' then None
      else
        match ParseMembers(Skip(t[1..]))
        case Some((tail, end)) => Some((Member(key, value, tail), end))
        case None => None
  }

  function Loads(s: string): Option<Value> {
    match ParseValue(Skip(s))
    case Some((v, rest)) => if Skip(rest) == "" then Some(v) else None
    case None => None
  }

  // ---------------------------------------------------------------------
  // Reading what was printed
  // ---------------------------------------------------------------------

  lemma NatRead(n: nat, rest: string)
    requires !ContinuesNumber(rest)
    ensures ParseNat(Digits(n) + rest) == Some((n, rest))
  {
    var s := Digits(n) + rest;
    DigitsRead(n, rest);
    if n == 0 {
      assert s[1..] == rest;
    } else {
      assert s[0] == Digits(n)[0];
      assert ParseDigits(0, s) == ParseDigits(DigitValue(s[0]), s[1..]);
    }
  }

  lemma IntRead(n: int, rest: string)
    requires !ContinuesNumber(rest)
    ensures ParseInt(IntText(n) + rest) == Some((n, rest))
  {
    hide Digits, ParseNat;
    var s := IntText(n) + rest;
    if n < 0 {
      NatRead(-n, rest);
      assert s[1..] == Digits(-n) + rest;
    } else {
      DigitsRead(n, rest);
      assert s[0] == Digits(n)[0];
      NatRead(n, rest);
    }
  }

  predicate StartsValue(c: char) {
    IsDigit(c) || c == '-' || c == '"' || c == '[' || c == '{' || c == 'n' || c == 't' || c == 'f'
  }

  lemma PrintStarts(v: Value)
    ensures Print(v) != "" && StartsValue(Print(v)[0])
    ensures v.Num? ==> IsDigit(Print(v)[0]) || Print(v)[0] == '-'
    ensures v.Str? ==> Print(v)[0] == '"'
  {
    if v.Num? {
      DigitsRead(if v.n < 0 then -v.n else v.n, "");
    }
  }

  lemma SkipNone(s: string)
    requires s == "" || !IsJsonSpace(s[0])
    ensures Skip(s) == s
  {
  }

  lemma SkipSpace(s: string)
    requires s == "" || !IsJsonSpace(s[0])
    ensures Skip(" " + s) == s
  {
    assert (" " + s)[1..] == s;
  }

  lemma ItemsStep(text: string, v: Value, end: string)
    requires ParseValue(text + end) == Some((v, end)) && end != "" && end[0] == ']'
    ensures ParseItems(text + end) == Some((Item(v, NoItems), end[1..]))
  {
    hide ParseValue, Skip;
    SkipNone(end);
  }

  lemma ItemsMoreStep(text: string, v: Value, end: string, tail: Items, rest: string)
    requires ParseValue(text + end) == Some((v, end)) && end != "" && end[0] == ','
    requires ParseItems(Skip(end[1..])) == Some((tail, rest))
    ensures ParseItems(text + end) == Some((Item(v, tail), rest))
  {
    hide ParseValue, Skip;
    SkipNone(end);
  }

  lemma MembersStep(text: string, key: string, v: Value, end: string)
    requires ParseMember(text + end) == Some(((key, v), end)) && end != "" && end[0] == '}'
    ensures ParseMembers(text + end) == Some((Member(key, v, NoMembers), end[1..]))
  {
    hide ParseMember, Skip;
    SkipNone(end);
  }

  lemma MembersMoreStep(text: string, key: string, v: Value, end: string, tail: Members, rest: string)
    requires ParseMember(text + end) == Some(((key, v), end)) && end != "" && end[0] == ','
    requires ParseMembers(Skip(end[1..])) == Some((tail, rest))
    ensures ParseMembers(text + end) == Some((Member(key, v, tail), rest))
  {
    hide ParseMember, Skip;
    SkipNone(end);
  }

  lemma MemberStep(key: string, text: string, v: Value, end: string)
    requires text != "" && !IsJsonSpace(text[0])
    requires ParseValue(text + end) == Some((v, end))
    ensures ParseMember(Quoted(key) + ": " + text + end) == Some(((key, v), end))
  {
    hide ParseValue, Skip, ParseString, Escaped;
    var value := text + end;
    var behind := ": " + value;
    var s := Quoted(key) + ": " + text + end;
    assert s == Quoted(key) + behind;
    assert s[1..] == Escaped(key) + "\"" + behind;
    StringRead(key, behind);
    SkipNone(behind);
    assert behind[1..] == " " + value;
    SkipSpace(value);
  }

  lemma ArrStep(text: string, rest: string, items: Items)
    requires text != "" && !IsJsonSpace(text[0]) && text[0] != ']'
    requires ParseItems(text + "]" + rest) == Some((items, rest))
    ensures ParseValue("[" + text + "]" + rest) == Some((Arr(items), rest))
  {
    hide ParseItems, Skip;
    var s := "[" + text + "]" + rest;
    assert s[1..] == text + "]" + rest;
    SkipNone(s[1..]);
  }

  lemma ObjStep(text: string, rest: string, members: Members)
    requires text != "" && text[0] == '"'
    requires ParseMembers(text + "}" + rest) == Some((members, rest))
    ensures ParseValue("{" + text + "}" + rest) == Some((Obj(members), rest))
  {
    hide ParseMembers, Skip;
    var s := "{" + text + "}" + rest;
    assert s[1..] == text + "}" + rest;
    SkipNone(s[1..]);
  }

  lemma PlainRead(v: Value, rest: string)
    requires v.Null? || v.Bool? || v == Arr(NoItems) || v == Obj(NoMembers)
    ensures ParseValue(Print(v) + rest) == Some((v, rest))
  {
    var s := Print(v) + rest;
    assert s[|Print(v)|..] == rest && Print(v) <= s;
    if v.Arr? || v.Obj? {
      SkipNone(s[1..]);
      assert s[1..][1..] == rest;
    }
  }

  lemma StringValueRead(text: string, rest: string)
    ensures ParseValue(Quoted(text) + rest) == Some((Str(text), rest))
  {
    hide Escaped, ParseString;
    assert (Quoted(text) + rest)[1..] == Escaped(text) + "\"" + rest;
    StringRead(text, rest);
  }

  lemma NumberValueRead(n: int, rest: string)
    requires !ContinuesNumber(rest)
    ensures ParseValue(IntText(n) + rest) == Some((Num(n), rest))
  {
    hide IntText, ParseInt;
    PrintStarts(Num(n));
    assert (IntText(n) + rest)[0] == Print(Num(n))[0];
    IntRead(n, rest);
  }

  lemma {:induction false} ValueRead(v: Value, rest: string)
    requires !ContinuesNumber(rest)
    ensures ParseValue(Print(v) + rest) == Some((v, rest))
    decreases v
  {
    hide ParseValue, ParseItems, ParseMembers, IntText, Quoted, PrintItems, PrintMembers;
    match v {
      case Num(n) => NumberValueRead(n, rest);
      case Str(s) => StringValueRead(s, rest);
      case Arr(items) =>
        if items == NoItems {
          PlainRead(v, rest);
        } else {
          ItemsRead(items, rest);
          ItemsStart(items);
          ArrStep(PrintItems(items), rest, items);
          assert Print(v) + rest == "[" + PrintItems(items) + "]" + rest;
        }
      case Obj(members) =>
        if members == NoMembers {
          PlainRead(v, rest);
        } else {
          MembersRead(members, rest);
          MembersStart(members);
          ObjStep(PrintMembers(members), rest, members);
          assert Print(v) + rest == "{" + PrintMembers(members) + "}" + rest;
        }
      case _ => PlainRead(v, rest);
    }
  }

  lemma ItemsStart(items: Items)
    requires items != NoItems
    ensures PrintItems(items) != "" && StartsValue(PrintItems(items)[0])
  {
    hide Print;
    PrintStarts(items.head);
  }

  lemma MembersStart(members: Members)
    requires members != NoMembers
    ensures PrintMembers(members) != "" && PrintMembers(members)[0] == '"'
  {
    hide Print, Escaped;
  }

  lemma {:induction false} ItemsRead(items: Items, rest: string)
    requires items != NoItems
    ensures ParseItems(PrintItems(items) + "]" + rest) == Some((items, rest))
    decreases items
  {
    hide ParseValue, ParseItems, Print, Skip;
    var text := Print(items.head);
    if items.tail == NoItems {
      var end := "]" + rest;
      ValueRead(items.head, end);
      ItemsStep(text, items.head, end);
      assert PrintItems(items) == text && text + end == text + "]" + rest && end[1..] == rest;
    } else {
      var more := PrintItems(items.tail) + "]" + rest;
      var end := ", " + more;
      ItemsRead(items.tail, rest);
      ItemsStart(items.tail);
      ValueRead(items.head, end);
      assert text + end == PrintItems(items) + "]" + rest;
      assert end[1..] == " " + more;
      SkipSpace(more);
      ItemsMoreStep(text, items.head, end, items.tail, rest);
    }
  }

  lemma {:induction false} MembersRead(members: Members, rest: string)
    requires members != NoMembers
    ensures ParseMembers(PrintMembers(members) + "}" + rest) == Some((members, rest))
    decreases members
  {
    hide ParseValue, ParseMember, ParseMembers, Print, Quoted, Skip;
    var value := Print(members.value);
    var text := Quoted(members.key) + ": " + value;
    PrintStarts(members.value);
    if members.tail == NoMembers {
      var end := "}" + rest;
      ValueRead(members.value, end);
      MemberStep(members.key, value, members.value, end);
      MembersStep(text, members.key, members.value, end);
      assert PrintMembers(members) == text && text + end == text + "}" + rest && end[1..] == rest;
    } else {
      var more := PrintMembers(members.tail) + "}" + rest;
      var end := ", " + more;
      MembersRead(members.tail, rest);
      MembersStart(members.tail);
      ValueRead(members.value, end);
      MemberStep(members.key, value, members.value, end);
      assert text + end == PrintMembers(members) + "}" + rest;
      assert end[1..] == " " + more;
      SkipSpace(more);
      MembersMoreStep(text, members.key, members.value, end, members.tail, rest);
    }
  }

  /** Reading undoes writing, for every value. */
  lemma LoadsDumps(v: Value)
    ensures Loads(Print(v)) == Some(v)
  {
    hide Print, ParseValue;
    PrintStarts(v);
    SkipNone(Print(v));
    ValueRead(v, "");
    assert Print(v) + "" == Print(v);
  }

  // ---------------------------------------------------------------------
  // The standard's own forms
  // ---------------------------------------------------------------------

  /** The escapes of section 7 of RFC 8259, each behind its backslash, with the section's example of a character beyond
      the Basic Multilingual Plane. */
  lemma EscapesOfTheStandard(rest: string)
    ensures ParseEscape("\"" + rest) == Some((0x22 as char, rest))
    ensures ParseEscape("\\" + rest) == Some((0x5C as char, rest))
    ensures ParseEscape("/" + rest) == Some((0x2F as char, rest))
    ensures ParseEscape("b" + rest) == Some((0x08 as char, rest))
    ensures ParseEscape("f" + rest) == Some((0x0C as char, rest))
    ensures ParseEscape("n" + rest) == Some((0x0A as char, rest))
    ensures ParseEscape("r" + rest) == Some((0x0D as char, rest))
    ensures ParseEscape("t" + rest) == Some((0x09 as char, rest))
    ensures ParseEscape("u" + ("005C" + rest)) == Some((0x5C as char, rest))
    ensures ParseEscape("u" + ("D834" + ("\\u" + ("DD1E" + rest)))) == Some((0x1D11E as char, rest))
  {
    hide ParseUnicode;
    Unescaped('"', rest);
    Unescaped('\\', rest);
    Unescaped('/', rest);
    Unescaped('b', rest);
    Unescaped('f', rest);
    Unescaped('n', rest);
    Unescaped('r', rest);
    Unescaped('t', rest);
    Unescaped('u', "005C" + rest);
    Unescaped('u', "D834" + ("\\u" + ("DD1E" + rest)));
    PlainUnit(rest);
    UnitPair(rest);
  }

  lemma Unescaped(c: char, rest: string)
    ensures ([c] + rest)[0] == c && ([c] + rest)[1..] == rest
  {
  }

  lemma PlainUnit(rest: string)
    ensures ParseUnicode("005C" + rest) == Some((0x5C as char, rest))
  {
    var s := "005C" + rest;
    assert s[..4] == "005C" && s[4..] == rest;
    assert FromHex4("005C") == Some(0x5C);
  }

  lemma UnitPair(rest: string)
    ensures ParseUnicode("D834" + ("\\u" + ("DD1E" + rest))) == Some((0x1D11E as char, rest))
  {
    var s := "D834" + ("\\u" + ("DD1E" + rest));
    assert s[..4] == "D834" && s[4..6] == "\\u" && s[6..10] == "DD1E" && s[10..] == rest;
    assert FromHex4("D834") == Some(0xD834) && FromHex4("DD1E") == Some(0xDD1E);
  }

  lemma {:induction false} SkipsAll(s: string)
    ensures Skip(s) == "" <==> forall c :: c in s ==> c in " \t\n\r"
    decreases |s|
  {
    if s != "" {
      assert s == [s[0]] + s[1..];
      assert IsJsonSpace(s[0]) <==> s[0] in " \t\n\r";
      if IsJsonSpace(s[0]) {
        SkipsAll(s[1..]);
      } else {
        assert s[0] in s;
      }
    }
  }

  /** Behind a value only white space may follow; a digit behind a number would be part of it. */
  lemma SpaceMayFollow(v: Value, rest: string)
    requires !ContinuesNumber(rest)
    ensures Loads(Print(v) + rest) == if forall c :: c in rest ==> c in " \t\n\r" then Some(v) else None
  {
    hide Print, ParseValue, Skip;
    PrintStarts(v);
    assert (Print(v) + rest)[0] == Print(v)[0];
    SkipNone(Print(v) + rest);
    ValueRead(v, rest);
    SkipsAll(rest);
  }

  /** What json.dumps writes for each kind of value. */
  lemma PrintedForms(x: Value, y: Value)
    ensures Print(Null) == "null" && Print(Bool(true)) == "true" && Print(Bool(false)) == "false"
    ensures Print(Num(-12)) == "-12" && Print(Arr(NoItems)) == "[]" && Print(Obj(NoMembers)) == "{}"
    ensures Print(Str("n\n")) == "\"n\\n\""
    ensures Print(Arr(Item(x, Item(y, NoItems)))) == "[" + Print(x) + ", " + Print(y) + "]"
    ensures Print(Obj(Member("a", x, Member("b", y, NoMembers))))
         == "{\"a\": " + Print(x) + ", \"b\": " + Print(y) + "}"
  {
    PrintedConstants();
    PrintedString();
    PrintedPair(x, y);
    PrintedObject(x, y);
  }

  lemma PrintedConstants()
    ensures Print(Null) == "null" && Print(Bool(true)) == "true" && Print(Bool(false)) == "false"
    ensures Print(Num(-12)) == "-12" && Print(Arr(NoItems)) == "[]" && Print(Obj(NoMembers)) == "{}"
  {
    assert Digits(12) == "12";
  }

  lemma PrintedString()
    ensures Print(Str("n\n")) == "\"n\\n\""
  {
    EscapedOne('\n');
    assert "n\n"[1..] == "\n";
    assert Escaped("n\n") == "n\\n";
  }

  lemma EscapedOne(c: char)
    ensures Escaped([c]) == Escape(c)
  {
    hide Escape;
    assert [c][1..] == "";
    assert Escape(c) + "" == Escape(c);
  }

  lemma PrintedPair(x: Value, y: Value)
    ensures Print(Arr(Item(x, Item(y, NoItems)))) == "[" + Print(x) + ", " + Print(y) + "]"
  {
    var items := Item(x, Item(y, NoItems));
    PrintedItems(x, Item(y, NoItems));
    LastItem(y);
    assert Print(Arr(items)) == "[" + PrintItems(items) + "]";
    hide Print, PrintItems;
    assert "[" + (Print(x) + ", " + Print(y)) + "]" == "[" + Print(x) + ", " + Print(y) + "]";
  }

  lemma LastItem(v: Value)
    ensures PrintItems(Item(v, NoItems)) == Print(v)
  {
    hide Print;
    assert Print(v) + "" == Print(v);
  }

  lemma PrintedItems(v: Value, tail: Items)
    requires tail != NoItems
    ensures PrintItems(Item(v, tail)) == Print(v) + ", " + PrintItems(tail)
  {
    hide Print;
    assert Print(v) + (", " + PrintItems(tail)) == Print(v) + ", " + PrintItems(tail);
  }

  lemma PrintedObject(x: Value, y: Value)
    ensures Print(Obj(Member("a", x, Member("b", y, NoMembers))))
         == "{\"a\": " + Print(x) + ", \"b\": " + Print(y) + "}"
  {
    var second := Member("b", y, NoMembers);
    EscapedOne('a');
    EscapedOne('b');
    assert Quoted("a") == "\"a\"" && Quoted("b") == "\"b\"";
    PrintedMembers("a", x, second);
    LastMember("b", y);
    assert Print(Obj(Member("a", x, second))) == "{" + PrintMembers(Member("a", x, second)) + "}";
    hide Print, PrintMembers, Quoted;
    Joined(Print(x), Print(y));
  }

  lemma Joined(x: string, y: string)
    ensures "{" + ("\"a\"" + ": " + x + ", " + ("\"b\"" + ": " + y)) + "}" == "{\"a\": " + x + ", \"b\": " + y + "}"
  {
    assert "{" + ("\"a\"" + ": ") == "{\"a\": " && ", " + ("\"b\"" + ": ") == ", \"b\": ";
  }

  lemma LastMember(key: string, v: Value)
    ensures PrintMembers(Member(key, v, NoMembers)) == Quoted(key) + ": " + Print(v)
  {
    hide Print, Quoted;
    assert Quoted(key) + ": " + Print(v) + "" == Quoted(key) + ": " + Print(v);
  }

  lemma PrintedMembers(key: string, v: Value, tail: Members)
    requires tail != NoMembers
    ensures PrintMembers(Member(key, v, tail)) == Quoted(key) + ": " + Print(v) + ", " + PrintMembers(tail)
  {
    hide Print, Quoted;
    assert Quoted(key) + ": " + Print(v) + (", " + PrintMembers(tail))
        == Quoted(key) + ": " + Print(v) + ", " + PrintMembers(tail);
  }

  // ---------------------------------------------------------------------
  // Texts that break off
  // ---------------------------------------------------------------------

  function Longer<T>(r: Parsed<T>, more: string): Parsed<T> {
    match r
    case Some((v, rest)) => Some((v, rest + more))
    case None => None
  }

  lemma {:induction false} SkipExtends(s: string, more: string)
    ensures Skip(s) != "" ==> Skip(s + more) == Skip(s) + more
  {
    if s != "" && IsJsonSpace(s[0]) {
      SkipExtends(s[1..], more);
      assert (s + more)[1..] == s[1..] + more;
    }
  }

  lemma UnicodeExtends(s: string, more: string)
    requires ParseUnicode(s).Some?
    ensures ParseUnicode(s + more) == Longer(ParseUnicode(s), more)
  {
    hide FromHex4;
    var all := s + more;
    assert all[..4] == s[..4] && all[4..] == s[4..] + more;
    assert |s| >= 10 ==> all[4..6] == s[4..6] && all[6..10] == s[6..10] && all[10..] == s[10..] + more;
  }

  lemma EscapeExtends(s: string, more: string)
    requires ParseEscape(s).Some?
    ensures ParseEscape(s + more) == Longer(ParseEscape(s), more)
  {
    hide ParseUnicode;
    assert (s + more)[1..] == s[1..] + more;
    if s[0] == 'u' {
      UnicodeExtends(s[1..], more);
    }
  }

  lemma {:induction false} StringExtends(s: string, more: string)
    requires ParseString(s).Some?
    ensures ParseString(s + more) == Longer(ParseString(s), more)
    decreases |s|
  {
    hide ParseEscape;
    assert (s + more)[1..] == s[1..] + more;
    if s[0] == '\\' {
      EscapeExtends(s[1..], more);
      StringExtends(ParseEscape(s[1..]).value.1, more);
    } else if s[0] != '"' {
      StringExtends(s[1..], more);
    }
  }

  lemma {:induction false} DigitsExtend(acc: nat, s: string, more: string)
    ensures var (n, rest) := ParseDigits(acc, s);
            rest != "" ==> ParseDigits(acc, s + more) == (n, rest + more)
    decreases |s|
  {
    if s != "" && IsDigit(s[0]) {
      DigitsExtend(10 * acc + DigitValue(s[0]), s[1..], more);
      assert (s + more)[1..] == s[1..] + more;
    }
  }

  lemma NatExtends(s: string, more: string)
    requires ParseNat(s).Some? && ParseNat(s).value.1 != ""
    ensures ParseNat(s + more) == Longer(ParseNat(s), more)
  {
    hide ParseDigits;
    assert (s + more)[1..] == s[1..] + more;
    DigitsExtend(DigitValue(s[0]), s[1..], more);
  }

  lemma IntExtends(s: string, more: string)
    requires ParseInt(s).Some? && ParseInt(s).value.1 != ""
    ensures ParseInt(s + more) == Longer(ParseInt(s), more)
  {
    hide ParseNat;
    if s != "" && s[0] == '-' {
      assert (s + more)[1..] == s[1..] + more;
      NatExtends(s[1..], more);
    } else {
      NatExtends(s, more);
    }
  }

  lemma WordExtends(s: string, word: string, v: Value, more: string)
    requires word != "" && ParseWord(s, word, v).Some?
    ensures ParseWord(s + more, word, v) == Longer(ParseWord(s, word, v), more)
  {
    assert (s + more)[..|word|] == s[..|word|] == word;
    assert (s + more)[|word|..] == s[|word|..] + more;
  }

  /** A value that was read, and does not end in a number at the very end of the text, is read in every longer text. */
  lemma {:induction false} ValueExtends(s: string, more: string)
    requires ParseValue(s).Some? && (ParseValue(s).value.1 != "" || !ParseValue(s).value.0.Num?)
    ensures ParseValue(s + more) == Longer(ParseValue(s), more)
    decreases |s|, 1
  {
    hide ParseString, ParseItems, ParseMembers, ParseInt, ParseWord, Skip;
    assert (s + more)[0] == s[0] && (s + more)[1..] == s[1..] + more;
    if s[0] == '"' {
      StringExtends(s[1..], more);
    } else if s[0] == '{' {
      ObjExtends(s, more);
    } else if s[0] == '[' {
      ArrExtends(s, more);
    } else if s[0] == 'n' {
      WordExtends(s, "null", Null, more);
    } else if s[0] == 't' {
      WordExtends(s, "true", Bool(true), more);
    } else if s[0] == 'f' {
      WordExtends(s, "false", Bool(false), more);
    } else {
      IntExtends(s, more);
    }
  }

  lemma {:induction false} ObjExtends(s: string, more: string)
    requires s != "" && s[0] == '{' && ParseValue(s).Some?
    ensures ParseValue(s + more) == Longer(ParseValue(s), more)
    decreases |s|, 0
  {
    hide ParseMembers, Skip;
    assert (s + more)[1..] == s[1..] + more;
    var t := Skip(s[1..]);
    EmptyMembers();
    SkipExtends(s[1..], more);
    assert t != "" ==> (t + more)[1..] == t[1..] + more;
    if t != "" && t[0] != '}' {
      MembersExtend(t, more);
    }
  }

  lemma {:induction false} ArrExtends(s: string, more: string)
    requires s != "" && s[0] == '[' && ParseValue(s).Some?
    ensures ParseValue(s + more) == Longer(ParseValue(s), more)
    decreases |s|, 0
  {
    hide ParseItems, Skip;
    assert (s + more)[1..] == s[1..] + more;
    var t := Skip(s[1..]);
    EmptyMembers();
    SkipExtends(s[1..], more);
    assert t != "" ==> (t + more)[1..] == t[1..] + more;
    if t != "" && t[0] != ']' {
      ItemsExtend(t, more);
    }
  }

  lemma EmptyMembers()
    ensures ParseMembers("") == None && ParseItems("") == None
  {
  }

  lemma {:induction false} ItemsExtend(s: string, more: string)
    requires ParseItems(s).Some?
    ensures ParseItems(s + more) == Longer(ParseItems(s), more)
    decreases |s|, 2
  {
    hide ParseValue, Skip;
    var rest := ParseValue(s).value.1;
    SkipNone("");
    ValueExtends(s, more);
    SkipExtends(rest, more);
    var t := Skip(rest);
    assert (t + more)[1..] == t[1..] + more;
    if t[0] == ',' {
      EmptyMembers();
      SkipExtends(t[1..], more);
      ItemsExtend(Skip(t[1..]), more);
    }
  }

  lemma {:induction false} MembersExtend(s: string, more: string)
    requires ParseMembers(s).Some?
    ensures ParseMembers(s + more) == Longer(ParseMembers(s), more)
    decreases |s|, 3
  {
    hide ParseMember, Skip;
    var rest := ParseMember(s).value.1;
    SkipNone("");
    MemberExtends(s, more);
    SkipExtends(rest, more);
    var t := Skip(rest);
    assert (t + more)[1..] == t[1..] + more;
    if t[0] == ',' {
      EmptyMembers();
      SkipExtends(t[1..], more);
      MembersExtend(Skip(t[1..]), more);
    }
  }

  lemma {:induction false} MemberExtends(s: string, more: string)
    requires ParseMember(s).Some? && ParseMember(s).value.1 != ""
    ensures ParseMember(s + more) == Longer(ParseMember(s), more)
    decreases |s|, 2
  {
    hide ParseValue, ParseString, Skip;
    assert (s + more)[1..] == s[1..] + more;
    StringExtends(s[1..], more);
    var afterKey := ParseString(s[1..]).value.1;
    SkipExtends(afterKey, more);
    var colon := Skip(afterKey);
    assert (colon + more)[1..] == colon[1..] + more;
    NoValue();
    SkipExtends(colon[1..], more);
    ValueExtends(Skip(colon[1..]), more);
  }

  lemma NoValue()
    ensures ParseValue("") == None
  {
  }

  /** No proper beginning of a printed object is a JSON text. */
  lemma TruncatedObject(members: Members, p: string)
    requires p < Print(Obj(members))
    ensures Loads(p) == None
  {
    hide ParseValue, PrintMembers, Skip;
    var whole := Print(Obj(members));
    var more := whole[|p|..];
    assert p + more == whole;
    NoValue();
    SkipNone(p);
    ValueRead(Obj(members), "");
    assert whole + "" == whole;
    if p != "" {
      assert p[0] == whole[0] == '{';
      if ParseValue(p).Some? {
        ObjExtends(p, more);
        assert |ParseValue(p).value.1 + more| > 0;
      }
    }
  }
}
