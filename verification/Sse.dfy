/** Server-Sent Events on both sides of the proxy: what is written (proxy/upstream.py, simulator/mock_engine.py) and
    what a reader makes of it (proxy/ingress.py). Texts are ASCII, as the writers make them. */
module Sse {
  import opened Wrappers
  import opened Buffer
  import opened Upstream
  import opened Json
  import Handover

  // ---------------------------------------------------------------------
  // Lines
  // ---------------------------------------------------------------------

  function SplitLines(s: string): seq<string> {
    if s == "" then []
    else if s[0] == '\n' then [""] + SplitLines(s[1..])
    else
      var more := SplitLines(s[1..]);
      if more == [] then [[s[0]]] else [[s[0]] + more[0]] + more[1..]
  }

  lemma {:induction false} LineFirst(line: string, rest: string)
    requires '\n' !in line
    ensures SplitLines(line + "\n" + rest) == [line] + SplitLines(rest)
  {
    var s := line + "\n" + rest;
    if line == "" {
      assert s[1..] == rest;
    } else {
      LineFirst(line[1..], rest);
      assert s[1..] == line[1..] + "\n" + rest;
      var more := [line[1..]] + SplitLines(rest);
      assert more[1..] == SplitLines(rest) && [s[0]] + more[0] == line;
    }
  }

  predicate IsSpace(c: char) {
    c == ' ' || 0x09 <= c as int <= 0x0D || 0x1C <= c as int <= 0x1F
  }

  function StripLeft(s: string): string {
    if s != "" && IsSpace(s[0]) then StripLeft(s[1..]) else s
  }

  function StripRight(s: string): string {
    if s != "" && IsSpace(s[|s| - 1]) then StripRight(s[..|s| - 1]) else s
  }

  function Strip(s: string): string {
    StripRight(StripLeft(s))
  }

  predicate Trimmed(s: string) {
    s != "" && !IsSpace(s[0]) && !IsSpace(s[|s| - 1])
  }

  lemma StripTrimmed(s: string)
    requires Trimmed(s)
    ensures Strip(s) == s && Strip(" " + s) == s
  {
    assert (" " + s)[1..] == s;
    assert StripLeft(" " + s) == StripLeft(s);
  }

  // ---------------------------------------------------------------------
  // The reader
  // ---------------------------------------------------------------------

  /** dict.get: the last member of the name counts. */
  function Get(members: Members, key: string): Option<Value> {
    match members
    case NoMembers => None
    case Member(k, v, tail) =>
      var later := Get(tail, key);
      if later.Some? then later else if k == key then Some(v) else None
  }

  function GetOr(members: Members, key: string, default: Value): Value {
    match Get(members, key)
    case Some(v) => v
    case None => default
  }

  function Signed(negative: bool, n: nat): int {
    var m: int := n;
    if negative then -m else m
  }

  /** int(text) for ASCII digits with a sign. */
  function IntOf(text: string): Option<int> {
    var s := Strip(text);
    var digits := if s != "" && (s[0] == '-' || s[0] == '+') then s[1..] else s;
    if digits == "" then None
    else
      var (n, rest) := ParseDigits(0, digits);
      if rest != "" then None else Some(Signed(s[0] == '-', n))
  }

  /** The token of a payload; None where the reader's try block raises. */
  function TokenOf(members: Members): Option<string> {
    var choices := GetOr(members, "choices", Arr(NoItems));
    if choices.Arr? && choices.items != NoItems then
      match choices.items.head
      case Obj(choice) => (
        match GetOr(choice, "delta", Obj(NoMembers))
        case Obj(delta) => (
          match GetOr(delta, "content", Str(""))
          case Str(s) => Some(s)
          case _ => None)
        case _ => None)
      case _ => None
    else
      match Get(members, "token")
      case Some(Str(s)) => Some(s)
      case Some(_) => None
      case None => Some("")
  }

  function SeqOf(members: Members, current: int): Option<int> {
    match GetOr(members, "seq", Num(current))
    case Num(n) => Some(n)
    case Bool(b) => Some(if b then 1 else 0)
    case Str(s) => IntOf(s)
    case _ => None
  }

  function ChunkOf(requestId: string, payload: Value, current: int): Option<TokenChunk> {
    match payload
    case Obj(members) => (
      match (TokenOf(members), SeqOf(members, current))
      case (Some(token), Some(id)) => Some(TokenChunk(requestId, id, token, false))
      case _ => None)
    case _ => None
  }

  function ReadData(requestId: string, text: string, current: int): Option<TokenChunk> {
    match Loads(text)
    case Some(payload) => ChunkOf(requestId, payload, current)
    case None => None
  }

  /** The chunks read from the lines of a stream; `current` is the id for a payload without its own. */
  function ReadLines(requestId: string, lines: seq<string>, current: int): seq<TokenChunk>
    decreases |lines|
  {
    if lines == [] then []
    else
      var line := Strip(lines[0]);
      var rest := lines[1..];
      if "id:" <= line then
        ReadLines(requestId, rest, match IntOf(line[3..]) case Some(n) => n case None => current)
      else if "data:" <= line then
        var text := Strip(line[5..]);
        if text == "[DONE]" then []
        else
          match ReadData(requestId, text, current)
          case Some(chunk) => [chunk] + ReadLines(requestId, rest, chunk.sequenceId + 1)
          case None => ReadLines(requestId, rest, current)
      else ReadLines(requestId, rest, current)
  }

  /** _sse_chunk_generator over the lines of a response. */
  method SseChunkGenerator(requestId: string, lines: seq<string>) returns (chunks: seq<TokenChunk>)
    ensures chunks == ReadLines(requestId, lines, 0)
  {
    hide Strip, ReadData, IntOf;
    chunks := [];
    var currentSeq := 0;
    for n := 0 to |lines|
      invariant chunks + ReadLines(requestId, lines[n..], currentSeq) == ReadLines(requestId, lines, 0)
    {
      var line := Strip(lines[n]);
      assert lines[n..][0] == lines[n] && lines[n..][1..] == lines[n + 1..];
      if line == "" {
        continue;
      }
      if "id:" <= line {
        var id := IntOf(line[3..]);
        if id.Some? {
          currentSeq := id.value;
        }
        continue;
      }
      if "data:" <= line {
        var text := Strip(line[5..]);
        if text == "[DONE]" {
          assert chunks + [] == chunks;
          return;
        }
        var chunk := ReadData(requestId, text, currentSeq);
        if chunk.Some? {
          currentSeq := chunk.value.sequenceId + 1;
          assert chunks + ([chunk.value] + ReadLines(requestId, lines[n + 1..], currentSeq))
              == (chunks + [chunk.value]) + ReadLines(requestId, lines[n + 1..], currentSeq);
          chunks := chunks + [chunk.value];
        }
      }
    }
    assert chunks + [] == chunks;
  }

  // ---------------------------------------------------------------------
  // The writers
  // ---------------------------------------------------------------------

  /** What a server writes into an event stream. */
  datatype Event = Payload(id: int, members: Members) | Comment(text: string) | Blank | Done

  function Text(e: Event): string {
    match e
    case Payload(id, members) => "id: " + IntText(id) + "\n" + ("data: " + Print(Obj(members)) + "\n" + "\n")
    case Comment(text) => ":" + text + "\n" + "\n"
    case Blank => "\n"
    case Done => "data: [DONE]" + "\n" + "\n"
  }

  function Stream(events: seq<Event>): string {
    if events == [] then "" else Text(events[0]) + Stream(events[1..])
  }

  predicate OneLine(e: Event) {
    e.Comment? ==> '\n' !in e.text
  }

  /** What the events before the first [DONE] say. */
  function Said(requestId: string, events: seq<Event>): seq<TokenChunk> {
    if events == [] || events[0].Done? then []
    else if events[0].Payload? then
      match ChunkOf(requestId, Obj(events[0].members), events[0].id)
      case Some(chunk) => [chunk] + Said(requestId, events[1..])
      case None => Said(requestId, events[1..])
    else Said(requestId, events[1..])
  }

  predicate IsPrintable(s: string) {
    forall k :: 0 <= k < |s| ==> ' ' <= s[k] <= '~'
  }

  lemma Hex4Printable(n: codeUnit)
    ensures IsPrintable(Hex4(n))
  {
    HexPrintable(n / 0x1000);
    HexPrintable(n / 0x100 % 0x10);
    HexPrintable(n / 0x10 % 0x10);
    HexPrintable(n % 0x10);
  }

  lemma HexPrintable(n: digit16)
    ensures ' ' <= HexDigit(n) <= '~'
  {
  }

  lemma EscapePrintable(c: char)
    ensures IsPrintable(Escape(c))
  {
    hide Hex4;
    if c as int < 0x1_0000 {
      Hex4Printable(c as int);
    } else {
      var v := c as int - 0x1_0000;
      Hex4Printable(0xD800 + v / 0x400);
      Hex4Printable(0xDC00 + v % 0x400);
    }
  }

  lemma {:induction false} EscapedPrintable(s: string)
    ensures IsPrintable(Escaped(s))
  {
    hide Escape;
    if s != "" {
      EscapePrintable(s[0]);
      EscapedPrintable(s[1..]);
    }
  }

  lemma {:induction false} DigitsPrintable(n: nat)
    ensures IsPrintable(Digits(n))
  {
    DigitsRead(n, "");
  }

  lemma {:induction false} PrintPrintable(v: Value)
    ensures IsPrintable(Print(v))
    decreases v
  {
    hide Escaped, Digits, PrintItems, PrintMembers;
    match v {
      case Num(n) => DigitsPrintable(if n < 0 then -n else n);
      case Str(s) => EscapedPrintable(s);
      case Arr(items) => ItemsPrintable(items);
      case Obj(members) => MembersPrintable(members);
      case _ =>
    }
  }

  lemma {:induction false} ItemsPrintable(items: Items)
    ensures IsPrintable(PrintItems(items))
    decreases items
  {
    hide Print;
    if items != NoItems {
      PrintPrintable(items.head);
      ItemsPrintable(items.tail);
    }
  }

  lemma {:induction false} MembersPrintable(members: Members)
    ensures IsPrintable(PrintMembers(members))
    decreases members
  {
    hide Print, Escaped;
    if members != NoMembers {
      EscapedPrintable(members.key);
      PrintPrintable(members.value);
      MembersPrintable(members.tail);
    }
  }

  // ---------------------------------------------------------------------
  // Reading what was written
  // ---------------------------------------------------------------------

  lemma DigitsPlain(n: nat)
    ensures ParseDigits(0, Digits(n)) == (n, "")
    ensures forall k :: 0 <= k < |Digits(n)| ==> !IsSpace(Digits(n)[k]) && '0' <= Digits(n)[k] <= '9'
  {
    hide Digits, ParseDigits;
    DigitsRead(n, "");
    assert Digits(n) + "" == Digits(n);
    NoDigits(n);
  }

  lemma NoDigits(n: nat)
    ensures ParseDigits(n, "") == (n, "")
  {
  }

  lemma IntOfRead(n: int)
    ensures IntOf(" " + IntText(n)) == Some(n)
    ensures Trimmed(IntText(n)) && '\n' !in IntText(n)
  {
    hide Digits, ParseDigits, Strip, IsSpace;
    var magnitude := if n < 0 then -n else n;
    var digits := Digits(magnitude);
    var text := IntText(n);
    DigitsPlain(magnitude);
    SignIsNoSpace();
    assert text[|text| - 1] == digits[|digits| - 1];
    StripTrimmed(text);
    assert n < 0 ==> text[1..] == digits;
  }

  lemma SignIsNoSpace()
    ensures !IsSpace('-')
  {
  }

  lemma IdLineRead(requestId: string, id: int, rest: seq<string>, current: int)
    ensures '\n' !in "id: " + IntText(id)
    ensures ReadLines(requestId, ["id: " + IntText(id)] + rest, current) == ReadLines(requestId, rest, id)
  {
    hide IntText, IntOf, Strip, ReadData, IsSpace;
    var line := "id: " + IntText(id);
    IntOfRead(id);
    BracketsTrimmed();
    TrimmedLine("id: ", IntText(id));
    assert line[3..] == " " + IntText(id);
    assert ([line] + rest)[1..] == rest;
  }

  lemma TrimmedLine(head: string, tail: string)
    requires Trimmed(tail) && head != "" && !IsSpace(head[0])
    ensures Strip(head + tail) == head + tail
  {
    StripTrimmed(head + tail);
  }

  lemma DataLineRead(requestId: string, members: Members, rest: seq<string>, current: int)
    ensures '\n' !in "data: " + Print(Obj(members))
    ensures ReadLines(requestId, ["data: " + Print(Obj(members))] + rest, current)
         == match ChunkOf(requestId, Obj(members), current)
            case Some(chunk) => [chunk] + ReadLines(requestId, rest, chunk.sequenceId + 1)
            case None => ReadLines(requestId, rest, current)
  {
    hide ChunkOf, Strip, IsSpace, Loads, PrintMembers;
    var text := Print(Obj(members));
    var line := "data: " + text;
    PrintPrintable(Obj(members));
    BracesTrimmed(PrintMembers(members));
    BracketsTrimmed();
    TrimmedLine("data: ", text);
    StripTrimmed(text);
    LoadsDumps(Obj(members));
    assert line[5..] == " " + text && text[0] == '{';
    assert line[0] == 'd' && "data:" <= line && !("id:" <= line);
    assert ([line] + rest)[1..] == rest;
  }

  lemma BracesTrimmed(inside: string)
    ensures Trimmed("{" + inside + "}")
  {
  }

  /** Lines the reader takes no notice of. */
  lemma IgnoredLineRead(requestId: string, line: string, rest: seq<string>, current: int)
    requires line == "" || line[0] == ':'
    ensures ReadLines(requestId, [line] + rest, current) == ReadLines(requestId, rest, current)
  {
    hide IntOf, ReadData;
    KeepsFirst(line);
    assert ([line] + rest)[1..] == rest;
  }

  lemma {:induction false} KeepsFirst(line: string)
    requires line == "" || line[0] == ':'
    ensures Strip(line) == "" || Strip(line)[0] == ':'
  {
    StripRightKeeps(line);
  }

  lemma {:induction false} StripRightKeeps(s: string)
    requires s == "" || !IsSpace(s[0])
    ensures StripRight(s) <= s && (s != "" ==> StripRight(s) != "")
    decreases |s|
  {
    if s != "" && IsSpace(s[|s| - 1]) {
      StripRightKeeps(s[..|s| - 1]);
    }
  }

  lemma DoneLineRead(requestId: string, rest: seq<string>, current: int)
    ensures ReadLines(requestId, ["data: [DONE]"] + rest, current) == []
  {
    hide IntOf, ReadData, IsSpace, Strip;
    BracketsTrimmed();
    TrimmedLine("data: ", "[DONE]");
    StripTrimmed("[DONE]");
    assert "data: " + "[DONE]" == "data: [DONE]";
    var line := "data: [DONE]";
    assert line[5..] == " " + "[DONE]";
    assert line[0] == 'd' && "data:" <= line && !("id:" <= line);
  }

  lemma BracketsTrimmed()
    ensures Trimmed("[DONE]") && !IsSpace('d') && !IsSpace('i')
  {
  }

  lemma EventRead(requestId: string, e: Event, rest: string, current: int)
    requires OneLine(e)
    ensures var read := ReadLines(requestId, SplitLines(Text(e) + rest), current);
            match e
            case Done => read == []
            case Payload(id, members) => (
              match ChunkOf(requestId, Obj(members), id)
              case Some(chunk) => read == [chunk] + ReadLines(requestId, SplitLines(rest), chunk.sequenceId + 1)
              case None => read == ReadLines(requestId, SplitLines(rest), id))
            case _ => read == ReadLines(requestId, SplitLines(rest), current)
  {
    hide ReadLines, SplitLines, ChunkOf, IntText, Print;
    var blank := "" + "\n" + rest;
    LineFirst("", rest);
    match e {
      case Payload(id, members) =>
        var data := "data: " + Print(Obj(members));
        DataLineRead(requestId, members, SplitLines(blank), id);
        LineFirst(data, blank);
        IdLineRead(requestId, id, SplitLines(data + "\n" + blank), current);
        LineFirst("id: " + IntText(id), data + "\n" + blank);
        assert Text(e) + rest == "id: " + IntText(id) + "\n" + (data + "\n" + blank);
        var next := match ChunkOf(requestId, Obj(members), id) case Some(chunk) => chunk.sequenceId + 1 case None => id;
        IgnoredLineRead(requestId, "", SplitLines(rest), next);
      case Comment(text) =>
        LineFirst(":" + text, blank);
        assert Text(e) + rest == ":" + text + "\n" + blank;
        IgnoredLineRead(requestId, ":" + text, SplitLines(blank), current);
        IgnoredLineRead(requestId, "", SplitLines(rest), current);
      case Blank =>
        assert Text(e) + rest == blank;
        IgnoredLineRead(requestId, "", SplitLines(rest), current);
      case Done =>
        LineFirst("data: [DONE]", blank);
        assert Text(e) + rest == "data: [DONE]" + "\n" + blank;
        DoneLineRead(requestId, SplitLines(blank), current);
    }
  }

  /** For every sequence of events, comments and blank lines interspersed: reading the stream yields, in order, what the
      payloads before the first [DONE] say, and nothing else. */
  lemma {:induction false} ReadsWhatWasWritten(requestId: string, events: seq<Event>, current: int)
    requires forall e :: e in events ==> OneLine(e)
    ensures ReadLines(requestId, SplitLines(Stream(events)), current) == Said(requestId, events)
    decreases |events|
  {
    hide ReadLines, ChunkOf, Text, OneLine, SplitLines;
    if events == [] {
      NothingRead(requestId, current);
    } else {
      var e := events[0];
      EventRead(requestId, e, Stream(events[1..]), current);
      ReadsWhatWasWritten(requestId, events[1..], NextId(requestId, e, current));
    }
  }

  lemma NothingRead(requestId: string, current: int)
    ensures ReadLines(requestId, SplitLines(""), current) == []
  {
  }

  // ---------------------------------------------------------------------
  // Streams that break off
  // ---------------------------------------------------------------------

  lemma {:induction false} LastLine(line: string)
    requires '\n' !in line
    ensures SplitLines(line) == if line == "" then [] else [line]
  {
    if |line| == 1 {
      assert line[1..] == "" && line == [line[0]];
    } else if line != "" {
      LastLine(line[1..]);
      assert [line[0]] + line[1..] == line;
      assert [line[1..]][1..] == [];
    }
  }

  /** A last line that is no data line says nothing. */
  lemma OtherLineRead(requestId: string, line: string, current: int)
    requires line != "" ==> line[0] != 'd' && !IsSpace(line[0])
    ensures ReadLines(requestId, if line == "" then [] else [line], current) == []
  {
    hide IntOf, ReadData;
    StripRightKeeps(line);
  }

  /** Nothing shorter than T is JSON, or the end mark. */
  ghost predicate OnlyWhole(T: string) {
    T != "" && !IsSpace(T[0]) && forall x: string :: x < T ==> SaysNothing(x)
  }

  predicate SaysNothing(text: string) {
    text != "[DONE]" && Loads(text) == None
  }

  lemma StripPart(y: string, T: string)
    requires OnlyWhole(T) && y < " " + T
    ensures Strip(y) < T
  {
    hide Loads;
    if y != "" {
      var rest := y[1..];
      assert y[0] == ' ' && rest < T;
      StripRightKeeps(rest);
      assert StripLeft(y) == StripLeft(rest) == rest;
    }
  }

  /** A data line that breaks off says nothing. */
  lemma PartialDataLine(requestId: string, T: string, q: string, current: int)
    requires OnlyWhole(T) && q < "data: " + T
    ensures ReadLines(requestId, if q == "" then [] else [q], current) == []
  {
    hide IntOf, OnlyWhole, Loads;
    if q != "" {
      BracketsTrimmed();
      assert q[0] == 'd';
      StripRightKeeps(q);
      var line := Strip(q);
      assert line <= q && line[0] == 'd' && !("id:" <= line);
      if "data:" <= line {
        var whole := "data: " + T;
        assert line[5..] < whole[5..] && whole[5..] == " " + T;
        StripPart(line[5..], T);
        WholeOnly(T, Strip(line[5..]));
        assert [q][1..] == [];
      }
    }
  }

  lemma WholeOnly(T: string, x: string)
    requires OnlyWhole(T) && x < T
    ensures SaysNothing(x)
  {
  }

  lemma ObjectIsWhole(members: Members)
    ensures OnlyWhole(Print(Obj(members)))
  {
    hide PrintMembers, Loads;
    var T := Print(Obj(members));
    BracesTrimmed(PrintMembers(members));
    forall x: string | x < T
      ensures SaysNothing(x)
    {
      TruncatedObject(members, x);
      assert x != "" ==> x[0] == '{';
    }
  }

  lemma EndMarkIsWhole()
    ensures OnlyWhole("[DONE]")
  {
    hide ParseValue, ParseItems;
    BracketsTrimmed();
    forall x: string | x < "[DONE]"
      ensures SaysNothing(x)
    {
      EndMarkIsNoJson(x);
    }
  }

  lemma EndMarkIsNoJson(x: string)
    requires x < "[DONE]"
    ensures Loads(x) == None
  {
    NoValue();
    EmptyMembers();
    if x != "" {
      assert x[0] == '[';
      var t := x[1..];
      assert t != "" ==> t[0] == 'D';
      SkipNone(x);
      SkipNone(t);
      assert ParseItems(t) == None;
    }
  }

  /** What a beginning of one event's text says: nothing yet, or all of its payload. */
  ghost predicate SaysPart(requestId: string, e: Event, read: seq<TokenChunk>) {
    || read == []
    || (e.Payload? && exists chunk :: ChunkOf(requestId, Obj(e.members), e.id) == Some(chunk) && read == [chunk])
  }

  lemma PartialPayload(requestId: string, id: int, members: Members, p: string, current: int)
    requires p < Text(Payload(id, members))
    ensures SaysPart(requestId, Payload(id, members), ReadLines(requestId, SplitLines(p), current))
  {
    hide ReadLines, SplitLines, ChunkOf, IntText, Print, OnlyWhole, IsSpace;
    var idLine, data := "id: " + IntText(id), "data: " + Print(Obj(members));
    var whole := Text(Payload(id, members));
    assert whole == idLine + "\n" + (data + "\n" + "\n");
    IdLineRead(requestId, id, [], current);
    BracketsTrimmed();
    if |p| <= |idLine| {
      assert p == idLine[..|p|] && forall k :: 0 <= k < |p| ==> p[k] == idLine[k];
      assert p != "" ==> p[0] == 'i';
      LastLine(p);
      OtherLineRead(requestId, p, current);
    } else {
      var q := p[|idLine| + 1..];
      assert p == whole[..|p|];
      assert p == idLine + "\n" + q && q < data + "\n" + "\n";
      LineFirst(idLine, q);
      IdLineRead(requestId, id, SplitLines(q), current);
      PartialData(requestId, id, members, q);
    }
  }

  lemma PartialData(requestId: string, id: int, members: Members, q: string)
    requires q < "data: " + Print(Obj(members)) + "\n" + "\n"
    ensures SaysPart(requestId, Payload(id, members), ReadLines(requestId, SplitLines(q), id))
  {
    hide ReadLines, SplitLines, ChunkOf, Print, OnlyWhole;
    var data := "data: " + Print(Obj(members));
    DataLineRead(requestId, members, [], id);
    NothingRead(requestId, 0);
    var none: seq<string> := [];
    assert [data] + none == [data];
    if |q| < |data| {
      assert forall k :: 0 <= k < |q| ==> q[k] == data[k];
      assert q < data;
      LastLine(q);
      ObjectIsWhole(members);
      PartialDataLine(requestId, Print(Obj(members)), q, id);
    } else {
      OneDataLine(requestId, members, id);
      if |q| == |data| {
        assert q == data;
        LastLine(data);
      } else {
        assert q == data + "\n" + "";
        LineFirst(data, "");
      }
    }
  }

  lemma OneDataLine(requestId: string, members: Members, id: int)
    ensures SplitLines("") == []
    ensures SaysPart(requestId, Payload(id, members), ReadLines(requestId, ["data: " + Print(Obj(members))], id))
  {
    hide ChunkOf, Print, ReadData;
    var data := "data: " + Print(Obj(members));
    var none: seq<string> := [];
    DataLineRead(requestId, members, none, id);
    assert [data] + none == [data];
    hide ReadLines;
    NoLines(requestId);
  }

  lemma NoLines(requestId: string)
    ensures forall current :: ReadLines(requestId, [], current) == []
  {
  }

  lemma PartialRead(requestId: string, e: Event, p: string, current: int)
    requires OneLine(e) && p < Text(e)
    ensures SaysPart(requestId, e, ReadLines(requestId, SplitLines(p), current))
  {
    hide ReadLines, SplitLines, ChunkOf, OnlyWhole, IsSpace;
    BracketsTrimmed();
    NoLines(requestId);
    match e {
      case Payload(id, members) => PartialPayload(requestId, id, members, p, current);
      case Comment(text) => PartialComment(requestId, text, p, current);
      case Blank => LastLine(p);
      case Done =>
        if |p| < |"data: [DONE]"| {
          LastLine(p);
          EndMarkIsWhole();
          assert p < "data: " + "[DONE]";
          PartialDataLine(requestId, "[DONE]", p, current);
        } else {
          DoneLineRead(requestId, [], current);
          var none: seq<string> := [];
          assert ["data: [DONE]"] + none == ["data: [DONE]"];
          LastLine("data: [DONE]");
          LastLine("");
          LineFirst("data: [DONE]", "");
          assert p == "data: [DONE]" || p == "data: [DONE]" + "\n" + "";
        }
    }
  }

  lemma PartialComment(requestId: string, text: string, p: string, current: int)
    requires '\n' !in text && p < Text(Comment(text))
    ensures ReadLines(requestId, SplitLines(p), current) == []
  {
    hide ReadLines, SplitLines;
    var line := ":" + text;
    LastLine("");
    NoLines(requestId);
    if |p| <= |line| {
      assert p == line[..|p|];
      LastLine(p);
      OtherLineRead(requestId, p, current);
    } else {
      assert p == line + "\n" + "";
      LineFirst(line, "");
      var none: seq<string> := [];
      assert [line] + none == [line];
      OtherLineRead(requestId, line, current);
    }
  }

  /** Wherever a stream breaks off, within a line or a token or not: what is read is a beginning of what was said. */
  lemma {:induction false} BrokenStreamRead(requestId: string, events: seq<Event>, p: string, current: int)
    requires forall e :: e in events ==> OneLine(e)
    requires p <= Stream(events)
    ensures ReadLines(requestId, SplitLines(p), current) <= Said(requestId, events)
    decreases |events|
  {
    hide ReadLines, ChunkOf, Text, OneLine, SplitLines;
    if events == [] {
      NothingRead(requestId, current);
    } else {
      var e, rest := events[0], Stream(events[1..]);
      if |p| >= |Text(e)| {
        var p' := p[|Text(e)|..];
        assert p == Text(e) + p' && p' <= rest;
        EventRead(requestId, e, p', current);
        BrokenStreamRead(requestId, events[1..], p', NextId(requestId, e, current));
      } else {
        assert p < Text(e);
        PartialRead(requestId, e, p, current);
      }
    }
  }

  function NextId(requestId: string, e: Event, current: int): int {
    if !e.Payload? then current
    else
      match ChunkOf(requestId, Obj(e.members), e.id)
      case Some(chunk) => chunk.sequenceId + 1
      case None => e.id
  }

  // ---------------------------------------------------------------------
  // The proxy's client
  // ---------------------------------------------------------------------

  function Delta(token: string): Value {
    Obj(Member("content", Str(token), NoMembers))
  }

  function FinishReason(isFinal: bool): Value {
    if isFinal then Str("stop") else Null
  }

  /** The payload of _format_sse_chunk. */
  function OpenAiPayload(chunk: TokenChunk): Members {
    var choice := Member("index", Num(0), Member("delta", Delta(chunk.token),
                  Member("finish_reason", FinishReason(chunk.isFinal), NoMembers)));
    Member("id", Str("chatcmpl-" + chunk.requestId), Member("object", Str("chat.completion.chunk"),
    Member("choices", Arr(Item(Obj(choice), NoItems)), Member("seq", Num(chunk.sequenceId), NoMembers))))
  }

  lemma GetMember(key: string, value: Value, tail: Members, other: string)
    ensures Get(tail, key) == None ==> Get(Member(key, value, tail), key) == Some(value)
    ensures other != key ==> Get(Member(key, value, tail), other) == Get(tail, other)
  {
  }

  lemma NoMember(key: string)
    ensures Get(NoMembers, key) == None
  {
  }

  lemma DeltaToken(token: string)
    ensures GetOr(Member("content", Str(token), NoMembers), "content", Str("")) == Str(token)
  {
    hide Get;
    NoMember("content");
    GetMember("content", Str(token), NoMembers, "");
  }

  lemma OpenAiPayloadRead(requestId: string, chunk: TokenChunk, current: int)
    ensures ChunkOf(requestId, Obj(OpenAiPayload(chunk)), current)
         == Some(TokenChunk(requestId, chunk.sequenceId, chunk.token, false))
  {
    hide Get;
    var reason := Member("finish_reason", FinishReason(chunk.isFinal), NoMembers);
    var delta := Member("delta", Delta(chunk.token), reason);
    var choice := Member("index", Num(0), delta);
    var choices := Arr(Item(Obj(choice), NoItems));
    var seqMember := Member("seq", Num(chunk.sequenceId), NoMembers);
    var fromChoices := Member("choices", choices, seqMember);
    var fromObject := Member("object", Str("chat.completion.chunk"), fromChoices);
    NoMember("delta");
    NoMember("choices");
    NoMember("seq");
    GetMember("finish_reason", FinishReason(chunk.isFinal), NoMembers, "delta");
    GetMember("delta", Delta(chunk.token), reason, "");
    GetMember("index", Num(0), delta, "delta");
    GetMember("seq", Num(chunk.sequenceId), NoMembers, "choices");
    GetMember("choices", choices, seqMember, "seq");
    GetMember("object", Str("chat.completion.chunk"), fromChoices, "choices");
    GetMember("object", Str("chat.completion.chunk"), fromChoices, "seq");
    GetMember("id", Str("chatcmpl-" + chunk.requestId), fromObject, "choices");
    GetMember("id", Str("chatcmpl-" + chunk.requestId), fromObject, "seq");
    DeltaToken(chunk.token);
  }

  function EventOf(e: ClientEvent): Event {
    match e
    case Data(chunk) => Payload(chunk.sequenceId, OpenAiPayload(chunk))
    case KeepAlive => Comment(" keep-alive")
    case DoneMarker => Done
  }

  function EventsOf(out: seq<ClientEvent>): (events: seq<Event>)
    ensures |events| == |out|
  {
    seq(|out|, i requires 0 <= i < |out| => EventOf(out[i]))
  }

  /** A chunk as a reader names it. */
  function As(requestId: string, chunks: seq<TokenChunk>): (r: seq<TokenChunk>)
    ensures |r| == |chunks|
  {
    seq(|chunks|, i requires 0 <= i < |chunks| => TokenChunk(requestId, chunks[i].sequenceId, chunks[i].token, false))
  }

  lemma EventsSplit(out: seq<ClientEvent>, tail: seq<Event>)
    requires out != []
    ensures var all := EventsOf(out) + tail;
            all != [] && all[0] == EventOf(out[0]) && all[1..] == EventsOf(out[1..]) + tail
  {
    assert EventsOf(out)[1..] == EventsOf(out[1..]);
  }

  lemma AsSplit(requestId: string, chunk: TokenChunk, others: seq<TokenChunk>)
    ensures As(requestId, [chunk] + others)
         == [TokenChunk(requestId, chunk.sequenceId, chunk.token, false)] + As(requestId, others)
  {
  }

  /** `tail` is the end mark, or nothing. */
  lemma {:induction false} SaidToClient(requestId: string, out: seq<ClientEvent>, tail: seq<Event>)
    requires DoneMarker !in out && (tail == [] || tail[0] == Done)
    ensures Said(requestId, EventsOf(out) + tail) == As(requestId, DataOf(out))
  {
    hide ChunkOf, OpenAiPayload, EventsOf, As;
    NothingSaid(requestId, tail);
    if out != [] {
      assert out[0] in out && forall e :: e in out[1..] ==> e in out;
      SaidToClient(requestId, out[1..], tail);
      EventsSplit(out, tail);
      if out[0].Data? {
        OpenAiPayloadRead(requestId, out[0].chunk, out[0].chunk.sequenceId);
        AsSplit(requestId, out[0].chunk, DataOf(out[1..]));
      }
    }
  }

  lemma NothingSaid(requestId: string, tail: seq<Event>)
    requires tail == [] || tail[0] == Done
    ensures Said(requestId, EventsOf([]) + tail) == [] == As(requestId, [])
  {
    assert EventsOf([]) + tail == tail;
  }

  /** What a client reads off the multiplexer's output, completed or broken off, are the data chunks it passed on: ids
      and tokens, in order, whatever characters the tokens hold. */
  lemma ClientReads(requestId: string, out: seq<ClientEvent>, completed: bool)
    requires DoneMarker !in out
    ensures var written := if completed then out + [DoneMarker] else out;
            ReadLines(requestId, SplitLines(Stream(EventsOf(written))), 0) == As(requestId, DataOf(out))
  {
    hide ReadLines, SplitLines, Stream, Said, As, DataOf, OpenAiPayload;
    var written := if completed then out + [DoneMarker] else out;
    SaidToClient(requestId, out, if completed then [Done] else []);
    assert EventsOf(written) == EventsOf(out) + if completed then [Done] else [];
    forall e | e in EventsOf(written)
      ensures OneLine(e)
    {
    }
    ReadsWhatWasWritten(requestId, EventsOf(written), 0);
  }

  // ---------------------------------------------------------------------
  // The proxy's upstream
  // ---------------------------------------------------------------------

  /** The payload of the engine's emit loop. */
  function EnginePayload(requestId: string, token: string, id: int, isLast: bool): Members {
    var choice := Member("delta", Delta(token), Member("index", Num(0),
                  Member("finish_reason", FinishReason(isLast), NoMembers)));
    Member("id", Str("chatcmpl-" + requestId), Member("choices", Arr(Item(Obj(choice), NoItems)),
    Member("token", Str(token), Member("seq", Num(id), NoMembers))))
  }

  lemma EnginePayloadRead(requestId: string, token: string, id: int, isLast: bool, current: int)
    ensures ChunkOf(requestId, Obj(EnginePayload(requestId, token, id, isLast)), current)
         == Some(TokenChunk(requestId, id, token, false))
  {
    hide Get;
    var reason := Member("finish_reason", FinishReason(isLast), NoMembers);
    var index := Member("index", Num(0), reason);
    var choice := Member("delta", Delta(token), index);
    var choices := Arr(Item(Obj(choice), NoItems));
    var seqMember := Member("seq", Num(id), NoMembers);
    var fromToken := Member("token", Str(token), seqMember);
    var fromChoices := Member("choices", choices, fromToken);
    NoMember("delta");
    NoMember("choices");
    NoMember("seq");
    GetMember("finish_reason", FinishReason(isLast), NoMembers, "delta");
    GetMember("index", Num(0), reason, "delta");
    GetMember("delta", Delta(token), index, "");
    GetMember("seq", Num(id), NoMembers, "choices");
    GetMember("token", Str(token), seqMember, "choices");
    GetMember("token", Str(token), seqMember, "seq");
    GetMember("choices", choices, fromToken, "seq");
    GetMember("id", Str("chatcmpl-" + requestId), fromChoices, "choices");
    GetMember("id", Str("chatcmpl-" + requestId), fromChoices, "seq");
    DeltaToken(token);
  }

  /** What the engine has written after it emitted the ids a to b-1 of an answer that ends at `stop`; then [DONE],
      unless it was paused. */
  function EngineEvents(corpus: Handover.Corpus, requestId: string, a: nat, b: nat, stop: nat, done: bool): seq<Event>
    requires a <= b <= |corpus|
    decreases b - a
  {
    if a == b then (if done then [Done] else [])
    else [Payload(a, EnginePayload(requestId, corpus[a], a, a == stop - 1))]
         + EngineEvents(corpus, requestId, a + 1, b, stop, done)
  }

  lemma {:induction false} SaidByEngine(corpus: Handover.Corpus, requestId: string, a: nat, b: nat, stop: nat,
                                        done: bool)
    requires a <= b <= |corpus|
    ensures Said(requestId, EngineEvents(corpus, requestId, a, b, stop, done))
         == Handover.Chunks(corpus, requestId, a, b)
    ensures forall e :: e in EngineEvents(corpus, requestId, a, b, stop, done) ==> OneLine(e)
    decreases b - a
  {
    hide ChunkOf, EnginePayload;
    if a < b {
      EnginePayloadRead(requestId, corpus[a], a, a == stop - 1, a);
      SaidByEngine(corpus, requestId, a + 1, b, stop, done);
      var events := EngineEvents(corpus, requestId, a, b, stop, done);
      assert events[1..] == EngineEvents(corpus, requestId, a + 1, b, stop, done);
      Handover.ChunksShrink(corpus, requestId, a, b);
    }
  }

  /** The proxy reads exactly the chunks the step system puts on the wire. */
  lemma UpstreamReads(corpus: Handover.Corpus, requestId: string, a: nat, b: nat, stop: nat, done: bool)
    requires a <= b <= |corpus|
    ensures ReadLines(requestId, SplitLines(Stream(EngineEvents(corpus, requestId, a, b, stop, done))), 0)
         == Handover.Chunks(corpus, requestId, a, b)
  {
    hide ReadLines, SplitLines, Stream, Said, EngineEvents;
    SaidByEngine(corpus, requestId, a, b, stop, done);
    ReadsWhatWasWritten(requestId, EngineEvents(corpus, requestId, a, b, stop, done), 0);
  }

  /** Wherever the connection to an engine breaks, within a chunk or between two, the proxy reads the first chunks of
      what the engine sent and nothing else: losing whole chunks is all that a break can do. */
  lemma BrokenUpstreamReads(corpus: Handover.Corpus, requestId: string, a: nat, b: nat, stop: nat, done: bool,
                            p: string)
    requires a <= b <= |corpus|
    requires p <= Stream(EngineEvents(corpus, requestId, a, b, stop, done))
    ensures exists kept :: 0 <= kept <= b - a
              && ReadLines(requestId, SplitLines(p), 0) == Handover.Chunks(corpus, requestId, a, b)[..kept]
  {
    hide ReadLines, SplitLines, Stream, Said, EngineEvents;
    SaidByEngine(corpus, requestId, a, b, stop, done);
    BrokenStreamRead(requestId, EngineEvents(corpus, requestId, a, b, stop, done), p, 0);
    var read := ReadLines(requestId, SplitLines(p), 0);
    assert read == Handover.Chunks(corpus, requestId, a, b)[..|read|];
  }

  // ---------------------------------------------------------------------
  // Payloads without choices or number
  // ---------------------------------------------------------------------

  /** {"token": ...} */
  function Bare(token: string): Members {
    Member("token", Str(token), NoMembers)
  }

  lemma BareRead(requestId: string, token: string, current: int)
    ensures ChunkOf(requestId, Obj(Bare(token)), current) == Some(TokenChunk(requestId, current, token, false))
  {
    hide Get;
    NoMember("choices");
    NoMember("seq");
    NoMember("token");
    GetMember("token", Str(token), NoMembers, "choices");
    GetMember("token", Str(token), NoMembers, "seq");
  }

  /** One data line for each token, with nothing else in it. */
  function BareLines(tokens: seq<string>): seq<string> {
    if tokens == [] then [] else ["data: " + Print(Obj(Bare(tokens[0])))] + BareLines(tokens[1..])
  }

  lemma BareLine(requestId: string, token: string, rest: seq<string>, current: int)
    ensures ReadLines(requestId, ["data: " + Print(Obj(Bare(token)))] + rest, current)
         == [TokenChunk(requestId, current, token, false)] + ReadLines(requestId, rest, current + 1)
  {
    hide ReadLines, ChunkOf, Print, Bare;
    DataLineRead(requestId, Bare(token), rest, current);
    BareRead(requestId, token, current);
  }

  /** Tokens that come without a number are numbered by the reader: on from the last chunk, or from the id line before
      them. */
  lemma BareTokensNumbered(requestId: string, first: int, tokens: seq<string>, current: int)
    ensures var chunks := ReadLines(requestId, ["id: " + IntText(first)] + BareLines(tokens), current);
            && |chunks| == |tokens|
            && forall k :: 0 <= k < |tokens| ==> chunks[k] == TokenChunk(requestId, first + k, tokens[k], false)
  {
    hide ReadLines, Print, IntText;
    IdLineRead(requestId, first, BareLines(tokens), current);
    BareLinesRead(requestId, tokens, first);
  }

  lemma {:induction false} BareLinesRead(requestId: string, tokens: seq<string>, current: int)
    ensures var chunks := ReadLines(requestId, BareLines(tokens), current);
            && |chunks| == |tokens|
            && forall k :: 0 <= k < |tokens| ==> chunks[k] == TokenChunk(requestId, current + k, tokens[k], false)
    decreases |tokens|
  {
    hide ReadLines, Print;
    NoLines(requestId);
    if tokens != [] {
      BareLine(requestId, tokens[0], BareLines(tokens[1..]), current);
      BareLinesRead(requestId, tokens[1..], current + 1);
    }
  }

  /** Of members with the same name the last one counts, as in a dictionary. */
  lemma LastMemberCounts(key: string, first: Value, last: Value, tail: Members)
    requires Get(tail, key) == None
    ensures Get(Member(key, first, Member(key, last, tail)), key) == Some(last)
  {
  }

  /** The number of a chunk, as int() makes one of it: of numbers, truth values and numbers as text, and of nothing
      else; a payload without one has that of its place. */
  lemma NumberForms(n: int, current: int, v: Value)
    requires v == Null || v.Arr? || v.Obj?
    ensures SeqOf(Member("seq", Num(n), NoMembers), current) == Some(n)
    ensures SeqOf(Member("seq", Str(" " + IntText(n)), NoMembers), current) == Some(n)
    ensures SeqOf(Member("seq", Bool(true), NoMembers), current) == Some(1)
    ensures SeqOf(Member("seq", Bool(false), NoMembers), current) == Some(0)
    ensures SeqOf(Member("seq", v, NoMembers), current) == None
    ensures SeqOf(NoMembers, current) == Some(current)
  {
    hide IntOf, IntText, Get;
    IntOfRead(n);
    NoMember("seq");
    GetMember("seq", Num(n), NoMembers, "");
    GetMember("seq", Str(" " + IntText(n)), NoMembers, "");
    GetMember("seq", Bool(true), NoMembers, "");
    GetMember("seq", Bool(false), NoMembers, "");
    GetMember("seq", v, NoMembers, "");
  }
}
