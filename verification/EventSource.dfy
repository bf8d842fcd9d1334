/** What a client that follows the standards makes of the event streams: messages as section 9.2.6 of the HTML Standard
    dispatches them, their data as the chunks of an OpenAI chat completion. */
module EventSource {
  import opened Wrappers
  import opened Buffer
  import opened Upstream
  import opened Json
  import opened Sse
  import Handover

  // ---------------------------------------------------------------------
  // The standard's reader
  // ---------------------------------------------------------------------

  datatype Message = Message(lastEventId: string, data: string)

  /** The position of the first colon, or the end. */
  function Colon(line: string): (n: nat)
    ensures n <= |line|
  {
    if line == "" || line[0] == ':' then 0 else 1 + Colon(line[1..])
  }

  function FieldName(line: string): string {
    line[..Colon(line)]
  }

  /** What follows the colon, without one space in front. */
  function FieldValue(line: string): string {
    var n := Colon(line);
    if n == |line| then ""
    else
      var value := line[n + 1..];
      if value != "" && value[0] == ' ' then value[1..] else value
  }

  /** An empty line dispatches the data collected so far; what no empty line follows is dropped. */
  function Dispatched(lines: seq<string>, id: string, data: string): seq<Message>
    decreases |lines|
  {
    if lines == [] then []
    else
      var line, rest := lines[0], lines[1..];
      if line == "" then
        if data == "" then Dispatched(rest, id, "") else [Message(id, data[..|data| - 1])] + Dispatched(rest, id, "")
      else if FieldName(line) == "id" then Dispatched(rest, FieldValue(line), data)
      else if FieldName(line) == "data" then Dispatched(rest, id, data + FieldValue(line) + "\n")
      else Dispatched(rest, id, data)
  }

  function MessagesOf(stream: string): seq<Message> {
    Dispatched(SplitLines(stream), "", "")
  }

  // ---------------------------------------------------------------------
  // The messages of a stream
  // ---------------------------------------------------------------------

  lemma ColonSkips(c: char, line: string)
    requires c != ':'
    ensures Colon([c] + line) == 1 + Colon(line)
  {
    assert ([c] + line)[1..] == line;
  }

  /** A line that is a name without colon, a colon, a space and a value. */
  lemma Field(name: string, value: string)
    requires ':' !in name
    ensures FieldName(name + ": " + value) == name && FieldValue(name + ": " + value) == value
  {
    hide Colon;
    var line := name + ": " + value;
    ColonBehind(name, " " + value);
    assert line == name + (":" + (" " + value));
    assert line[|name| + 1..] == " " + value && (" " + value)[1..] == value;
  }

  lemma {:induction false} ColonBehind(name: string, rest: string)
    requires ':' !in name
    ensures Colon(name + (":" + rest)) == |name|
  {
    if name != "" {
      assert name == [name[0]] + name[1..];
      assert name + (":" + rest) == [name[0]] + (name[1..] + (":" + rest));
      ColonSkips(name[0], name[1..] + (":" + rest));
      ColonBehind(name[1..], rest);
    }
  }

  lemma IdField(value: string)
    ensures FieldName("id: " + value) == "id" && FieldValue("id: " + value) == value
  {
    hide FieldName, FieldValue;
    Field("id", value);
    assert "id" + ": " == "id: ";
  }

  lemma DataField(value: string)
    ensures FieldName("data: " + value) == "data" && FieldValue("data: " + value) == value
  {
    hide FieldName, FieldValue;
    Field("data", value);
    assert "data" + ": " == "data: ";
  }

  lemma NoneBefore(line: string)
    requires line != "" && line[0] == ':'
    ensures Colon(line) == 0 && FieldName(line) == ""
  {
  }

  lemma IdDispatched(value: string, rest: seq<string>, id: string, data: string)
    ensures Dispatched(["id: " + value] + rest, id, data) == Dispatched(rest, value, data)
  {
    hide FieldName, FieldValue;
    IdField(value);
    assert (["id: " + value] + rest)[1..] == rest;
  }

  /** One data line and the empty line behind it. */
  lemma DataDispatched(value: string, rest: seq<string>, id: string)
    ensures Dispatched(["data: " + value] + ([""] + rest), id, "") == [Message(id, value)] + Dispatched(rest, id, "")
  {
    hide FieldName, FieldValue;
    DataField(value);
    assert (["data: " + value] + ([""] + rest))[1..] == [""] + rest;
    assert ([""] + rest)[1..] == rest;
    assert "" + value + "\n" == value + "\n" && (value + "\n")[..|value|] == value;
  }

  lemma CommentDispatched(text: string, rest: seq<string>, id: string)
    ensures Dispatched([":" + text] + rest, id, "") == Dispatched(rest, id, "")
  {
    NoneBefore(":" + text);
    assert ([":" + text] + rest)[1..] == rest;
  }

  lemma EmptyDispatched(rest: seq<string>, id: string)
    ensures Dispatched([""] + rest, id, "") == Dispatched(rest, id, "")
  {
    assert ([""] + rest)[1..] == rest;
  }

  lemma OneLineEach(id: int, members: Members)
    ensures '\n' !in "id: " + IntText(id) && '\n' !in "data: " + Print(Obj(members))
  {
    IdLineRead("", id, [], 0);
    DataLineRead("", members, [], 0);
  }

  function NextEventId(e: Event, id: string): string {
    if e.Payload? then IntText(e.id) else id
  }

  function MessageOf(e: Event, id: string): seq<Message> {
    match e
    case Payload(n, members) => [Message(IntText(n), Print(Obj(members)))]
    case Done => [Message(id, "[DONE]")]
    case _ => []
  }

  lemma EventDispatched(e: Event, rest: string, id: string)
    requires OneLine(e)
    ensures Dispatched(SplitLines(Text(e) + rest), id, "")
         == MessageOf(e, id) + Dispatched(SplitLines(rest), NextEventId(e, id), "")
  {
    hide Dispatched, SplitLines, IntText, Print;
    var blank := "" + "\n" + rest;
    LineFirst("", rest);
    EmptyDispatched(SplitLines(rest), id);
    match e {
      case Payload(n, members) =>
        var data := "data: " + Print(Obj(members));
        OneLineEach(n, members);
        LineFirst(data, blank);
        LineFirst("id: " + IntText(n), data + "\n" + blank);
        assert Text(e) + rest == "id: " + IntText(n) + "\n" + (data + "\n" + blank);
        IdDispatched(IntText(n), SplitLines(data + "\n" + blank), id, "");
        DataDispatched(Print(Obj(members)), SplitLines(rest), IntText(n));
      case Comment(text) =>
        LineFirst(":" + text, blank);
        assert Text(e) + rest == ":" + text + "\n" + blank;
        CommentDispatched(text, SplitLines(blank), id);
      case Blank =>
        assert Text(e) + rest == blank;
      case Done =>
        LineFirst("data: [DONE]", blank);
        assert Text(e) + rest == "data: [DONE]" + "\n" + blank;
        assert "data: " + "[DONE]" == "data: [DONE]";
        DataDispatched("[DONE]", SplitLines(rest), id);
    }
  }

  // ---------------------------------------------------------------------
  // The proxy's client
  // ---------------------------------------------------------------------

  /** v is an object, and `key` of it is `value`. */
  predicate Has(v: Value, key: string, value: Value) {
    v.Obj? && Get(v.members, key) == Some(value)
  }

  /** `finish_reason` is a string on the last chunk of a completion, and null on all others. */
  predicate Finishes(choice: Value, isLast: bool) {
    if isLast then Has(choice, "finish_reason", Str("stop")) else Has(choice, "finish_reason", Null)
  }

  /** The only choice of a chunk. */
  ghost predicate HasChoice(v: Value, token: string, isLast: bool) {
    exists choice, delta ::
      && Has(v, "choices", Arr(Item(choice, NoItems)))
      && Has(choice, "index", Num(0)) && Has(choice, "delta", delta) && Has(delta, "content", Str(token))
      && Finishes(choice, isLast)
  }

  /** A chunk of a streamed chat completion. */
  ghost predicate IsCompletionChunk(v: Value, chunk: TokenChunk) {
    && Has(v, "id", Str("chatcmpl-" + chunk.requestId)) && Has(v, "object", Str("chat.completion.chunk"))
    && Has(v, "seq", Num(chunk.sequenceId)) && HasChoice(v, chunk.token, chunk.isFinal)
  }

  ghost predicate Conveys(m: Message, chunk: TokenChunk) {
    && m.lastEventId == IntText(chunk.sequenceId)
    && exists v :: Loads(m.data) == Some(v) && IsCompletionChunk(v, chunk)
  }

  lemma HasFirst(key: string, value: Value, tail: Members, other: string)
    ensures Get(tail, key) == None ==> Has(Obj(Member(key, value, tail)), key, value)
    ensures other != key ==> Get(Member(key, value, tail), other) == Get(tail, other)
  {
  }

  lemma HasContent(token: string)
    ensures Has(Delta(token), "content", Str(token))
  {
  }

  lemma ChoiceOfOpenAi(token: string, isLast: bool)
    ensures var choice := Obj(Member("index", Num(0), Member("delta", Delta(token),
                          Member("finish_reason", FinishReason(isLast), NoMembers))));
            && Has(choice, "index", Num(0)) && Has(choice, "delta", Delta(token))
            && Has(choice, "finish_reason", FinishReason(isLast))
  {
    hide Get, Delta, FinishReason;
    var reason := Member("finish_reason", FinishReason(isLast), NoMembers);
    var delta := Member("delta", Delta(token), reason);
    NoMember("finish_reason");
    NoMember("delta");
    NoMember("index");
    GetMember("finish_reason", FinishReason(isLast), NoMembers, "delta");
    GetMember("finish_reason", FinishReason(isLast), NoMembers, "index");
    GetMember("delta", Delta(token), reason, "finish_reason");
    GetMember("delta", Delta(token), reason, "index");
    GetMember("index", Num(0), delta, "delta");
    GetMember("index", Num(0), delta, "finish_reason");
  }

  lemma HasAChoice(v: Value, choice: Value, token: string, isLast: bool)
    requires Has(v, "choices", Arr(Item(choice, NoItems)))
    requires Has(choice, "index", Num(0)) && Has(choice, "delta", Delta(token))
    requires Has(choice, "finish_reason", FinishReason(isLast))
    ensures HasChoice(v, token, isLast)
  {
    hide Has;
    HasContent(token);
  }

  lemma OpenAiPayloadIsChunk(chunk: TokenChunk)
    ensures IsCompletionChunk(Obj(OpenAiPayload(chunk)), chunk)
  {
    hide Get, HasChoice, Delta, FinishReason;
    var choice := Obj(Member("index", Num(0), Member("delta", Delta(chunk.token),
                  Member("finish_reason", FinishReason(chunk.isFinal), NoMembers))));
    var choices := Arr(Item(choice, NoItems));
    var seqMember := Member("seq", Num(chunk.sequenceId), NoMembers);
    var fromChoices := Member("choices", choices, seqMember);
    var fromObject := Member("object", Str("chat.completion.chunk"), fromChoices);
    NoMember("id");
    NoMember("object");
    NoMember("choices");
    NoMember("seq");
    GetMember("seq", Num(chunk.sequenceId), NoMembers, "id");
    GetMember("seq", Num(chunk.sequenceId), NoMembers, "object");
    GetMember("seq", Num(chunk.sequenceId), NoMembers, "choices");
    GetMember("choices", choices, seqMember, "id");
    GetMember("choices", choices, seqMember, "object");
    GetMember("choices", choices, seqMember, "seq");
    GetMember("object", Str("chat.completion.chunk"), fromChoices, "id");
    GetMember("object", Str("chat.completion.chunk"), fromChoices, "choices");
    GetMember("object", Str("chat.completion.chunk"), fromChoices, "seq");
    GetMember("id", Str("chatcmpl-" + chunk.requestId), fromObject, "object");
    GetMember("id", Str("chatcmpl-" + chunk.requestId), fromObject, "choices");
    GetMember("id", Str("chatcmpl-" + chunk.requestId), fromObject, "seq");
    ChoiceOfOpenAi(chunk.token, chunk.isFinal);
    HasAChoice(Obj(OpenAiPayload(chunk)), choice, chunk.token, chunk.isFinal);
  }

  lemma ConveysPayload(chunk: TokenChunk, id: string)
    ensures forall m :: m == MessageOf(EventOf(Data(chunk)), id) ==> |m| == 1 && Conveys(m[0], chunk)
  {
    hide Loads, Print, IntText, OpenAiPayload, IsCompletionChunk;
    LoadsDumps(Obj(OpenAiPayload(chunk)));
    OpenAiPayloadIsChunk(chunk);
  }

  /** One message for each chunk. */
  ghost predicate ConveyInOrder(messages: seq<Message>, chunks: seq<TokenChunk>) {
    |messages| == |chunks| && forall k :: 0 <= k < |chunks| ==> Conveys(messages[k], chunks[k])
  }

  lemma ConveyOneMore(m: Message, messages: seq<Message>, chunk: TokenChunk, chunks: seq<TokenChunk>)
    requires Conveys(m, chunk) && ConveyInOrder(messages, chunks)
    ensures ConveyInOrder([m] + messages, [chunk] + chunks)
  {
    hide Conveys;
  }

  lemma NothingDispatched(id: string)
    ensures Dispatched(SplitLines(""), id, "") == [] && ConveyInOrder([], [])
  {
  }

  /** What the output of the multiplexer adds in front of what follows it in the stream. */
  lemma {:induction false} OutputDispatched(out: seq<ClientEvent>, rest: string, id: string)
    returns (messages: seq<Message>, last: string)
    requires DoneMarker !in out
    ensures ConveyInOrder(messages, DataOf(out))
    ensures Dispatched(SplitLines(Stream(EventsOf(out)) + rest), id, "")
         == messages + Dispatched(SplitLines(rest), last, "")
    decreases |out|
  {
    hide Dispatched, SplitLines, EventsOf, EventOf, Text, Conveys, ConveyInOrder, MessageOf, NextEventId;
    if out == [] {
      NothingDispatched(id);
      NoEvents(out, rest);
      messages, last := [], id;
    } else {
      var e := EventOf(out[0]);
      FirstEvent(out, rest);
      EventDispatched(e, Stream(EventsOf(out[1..])) + rest, id);
      assert out[0] in out && forall x :: x in out[1..] ==> x in out;
      messages, last := OutputDispatched(out[1..], rest, NextEventId(e, id));
      if out[0].Data? {
        ConveysPayload(out[0].chunk, id);
        var m := MessageOf(e, id);
        ConveyOneMore(m[0], messages, out[0].chunk, DataOf(out[1..]));
        assert m == [m[0]];
        assert m + (messages + Dispatched(SplitLines(rest), last, ""))
            == (m + messages) + Dispatched(SplitLines(rest), last, "");
        messages := m + messages;
      } else {
        SilentEvent(out[0], id);
        assert [] + (messages + Dispatched(SplitLines(rest), last, ""))
            == messages + Dispatched(SplitLines(rest), last, "");
      }
    }
  }

  lemma NoEvents(out: seq<ClientEvent>, rest: string)
    requires out == []
    ensures Stream(EventsOf(out)) + rest == rest
  {
    assert "" + rest == rest;
  }

  lemma FirstEvent(out: seq<ClientEvent>, rest: string)
    requires out != []
    ensures OneLine(EventOf(out[0]))
    ensures Stream(EventsOf(out)) + rest == Text(EventOf(out[0])) + (Stream(EventsOf(out[1..])) + rest)
  {
    hide Text;
    EventsSplit(out, []);
    assert EventsOf(out) + [] == EventsOf(out) && EventsOf(out[1..]) + [] == EventsOf(out[1..]);
    assert Text(EventOf(out[0])) + Stream(EventsOf(out[1..])) + rest
        == Text(EventOf(out[0])) + (Stream(EventsOf(out[1..])) + rest);
  }

  lemma SilentEvent(e: ClientEvent, id: string)
    requires e == KeepAlive
    ensures MessageOf(EventOf(e), id) == []
  {
  }

  /** Off the multiplexer's output a client gets one message for each chunk that was passed on, in order, keep-alives
      going unnoticed: a completion chunk with the request's and the chunk's id, the token, and `finish_reason` "stop"
      if and only if the chunk is final; behind them the end mark if the output is complete, and nothing else. */
  lemma CompletionChunksRead(out: seq<ClientEvent>, completed: bool)
    requires DoneMarker !in out
    ensures var messages := MessagesOf(Stream(EventsOf(if completed then out + [DoneMarker] else out)));
            && |messages| == |DataOf(out)| + (if completed then 1 else 0)
            && ConveyInOrder(messages[..|DataOf(out)|], DataOf(out))
            && (completed ==> messages[|DataOf(out)|].data == "[DONE]")
  {
    hide Dispatched, SplitLines, EventsOf, DataOf, Stream, Conveys, ConveyInOrder;
    var rest := if completed then Stream([Done]) else "";
    var messages, last := OutputDispatched(out, rest, "");
    EndOfStream(out, completed);
    if completed {
      EndMark(last);
    } else {
      NothingDispatched(last);
    }
    ConveyLength(messages, DataOf(out));
    var all := MessagesOf(Stream(EventsOf(if completed then out + [DoneMarker] else out)));
    assert all[..|messages|] == messages;
  }

  lemma ConveyLength(messages: seq<Message>, chunks: seq<TokenChunk>)
    requires ConveyInOrder(messages, chunks)
    ensures |messages| == |chunks|
  {
  }

  lemma {:induction false} StreamConcat(a: seq<Event>, b: seq<Event>)
    ensures Stream(a + b) == Stream(a) + Stream(b)
  {
    hide Text;
    if a == [] {
      assert a + b == b && "" + Stream(b) == Stream(b);
    } else {
      assert (a + b)[1..] == a[1..] + b;
      StreamConcat(a[1..], b);
      assert Text(a[0]) + (Stream(a[1..]) + Stream(b)) == (Text(a[0]) + Stream(a[1..])) + Stream(b);
    }
  }

  lemma EndOfStream(out: seq<ClientEvent>, completed: bool)
    ensures Stream(EventsOf(if completed then out + [DoneMarker] else out))
         == Stream(EventsOf(out)) + (if completed then Stream([Done]) else "")
  {
    hide Stream;
    if completed {
      assert EventsOf(out + [DoneMarker]) == EventsOf(out) + [Done];
      StreamConcat(EventsOf(out), [Done]);
    } else {
      assert Stream(EventsOf(out)) + "" == Stream(EventsOf(out));
    }
  }

  lemma EndMark(id: string)
    ensures Dispatched(SplitLines(Stream([Done])), id, "") == [Message(id, "[DONE]")]
  {
    hide Dispatched, SplitLines;
    EventDispatched(Done, "", id);
    NothingDispatched(id);
    assert [Done][1..] == [];
    assert Stream([Done]) == Text(Done) + "";
  }

  // ---------------------------------------------------------------------
  // The proxy's upstream
  // ---------------------------------------------------------------------

  /** A chunk as an engine writes it. */
  ghost predicate IsEngineChunk(v: Value, requestId: string, token: string, id: int, isLast: bool) {
    && Has(v, "id", Str("chatcmpl-" + requestId)) && Has(v, "token", Str(token)) && Has(v, "seq", Num(id))
    && HasChoice(v, token, isLast)
  }

  ghost predicate EngineConveys(m: Message, requestId: string, token: string, id: int, isLast: bool) {
    && m.lastEventId == IntText(id)
    && exists v :: Loads(m.data) == Some(v) && IsEngineChunk(v, requestId, token, id, isLast)
  }

  lemma ChoiceOfEngine(token: string, isLast: bool)
    ensures var choice := Obj(Member("delta", Delta(token), Member("index", Num(0),
                          Member("finish_reason", FinishReason(isLast), NoMembers))));
            && Has(choice, "index", Num(0)) && Has(choice, "delta", Delta(token))
            && Has(choice, "finish_reason", FinishReason(isLast))
  {
    hide Get, Delta, FinishReason;
    var reason := Member("finish_reason", FinishReason(isLast), NoMembers);
    var index := Member("index", Num(0), reason);
    NoMember("finish_reason");
    NoMember("delta");
    NoMember("index");
    GetMember("finish_reason", FinishReason(isLast), NoMembers, "delta");
    GetMember("finish_reason", FinishReason(isLast), NoMembers, "index");
    GetMember("index", Num(0), reason, "delta");
    GetMember("index", Num(0), reason, "finish_reason");
    GetMember("delta", Delta(token), index, "index");
    GetMember("delta", Delta(token), index, "finish_reason");
  }

  lemma EnginePayloadIsChunk(requestId: string, token: string, id: int, isLast: bool)
    ensures IsEngineChunk(Obj(EnginePayload(requestId, token, id, isLast)), requestId, token, id, isLast)
  {
    hide Get, HasChoice, Delta, FinishReason;
    var choice := Obj(Member("delta", Delta(token), Member("index", Num(0),
                  Member("finish_reason", FinishReason(isLast), NoMembers))));
    var choices := Arr(Item(choice, NoItems));
    var seqMember := Member("seq", Num(id), NoMembers);
    var fromToken := Member("token", Str(token), seqMember);
    var fromChoices := Member("choices", choices, fromToken);
    NoMember("id");
    NoMember("token");
    NoMember("choices");
    NoMember("seq");
    GetMember("seq", Num(id), NoMembers, "id");
    GetMember("seq", Num(id), NoMembers, "token");
    GetMember("seq", Num(id), NoMembers, "choices");
    GetMember("token", Str(token), seqMember, "id");
    GetMember("token", Str(token), seqMember, "choices");
    GetMember("token", Str(token), seqMember, "seq");
    GetMember("choices", choices, fromToken, "id");
    GetMember("choices", choices, fromToken, "token");
    GetMember("choices", choices, fromToken, "seq");
    GetMember("id", Str("chatcmpl-" + requestId), fromChoices, "token");
    GetMember("id", Str("chatcmpl-" + requestId), fromChoices, "choices");
    GetMember("id", Str("chatcmpl-" + requestId), fromChoices, "seq");
    ChoiceOfEngine(token, isLast);
    HasAChoice(Obj(EnginePayload(requestId, token, id, isLast)), choice, token, isLast);
  }

  /** The messages of the ids a to b-1: only the last id of the whole answer finishes it. */
  ghost predicate EngineConveyInOrder(messages: seq<Message>, corpus: Handover.Corpus, requestId: string, a: nat,
                                      b: nat, stop: nat)
    requires a <= b <= |corpus|
  {
    && |messages| == b - a
    && forall n :: a <= n < b ==> EngineConveys(messages[n - a], requestId, corpus[n], n, n == stop - 1)
  }

  lemma EngineOneMore(m: Message, messages: seq<Message>, corpus: Handover.Corpus, requestId: string, a: nat, b: nat,
                      stop: nat)
    requires a < b <= |corpus| && EngineConveyInOrder(messages, corpus, requestId, a + 1, b, stop)
    requires EngineConveys(m, requestId, corpus[a], a, a == stop - 1)
    ensures EngineConveyInOrder([m] + messages, corpus, requestId, a, b, stop)
  {
    hide EngineConveys;
    forall n | a <= n < b
      ensures EngineConveys(([m] + messages)[n - a], requestId, corpus[n], n, n == stop - 1)
    {
      if n > a {
        assert ([m] + messages)[n - a] == messages[n - (a + 1)];
      }
    }
  }

  lemma EngineEventConveys(requestId: string, token: string, id: int, isLast: bool, lastId: string)
    ensures forall m :: m == MessageOf(Payload(id, EnginePayload(requestId, token, id, isLast)), lastId) ==>
              |m| == 1 && EngineConveys(m[0], requestId, token, id, isLast)
  {
    hide Loads, Print, IntText, EnginePayload, IsEngineChunk;
    LoadsDumps(Obj(EnginePayload(requestId, token, id, isLast)));
    EnginePayloadIsChunk(requestId, token, id, isLast);
  }

  /** Off an engine's stream of the ids a to b-1 of an answer that ends at `stop` a reader gets one message for each id,
      in order, with the id and the token of that place; `finish_reason` is "stop" for the last id of the answer and
      null for all others; behind them the end mark, if the engine was not paused. */
  lemma {:induction false} EngineChunksRead(corpus: Handover.Corpus, requestId: string, a: nat, b: nat, stop: nat,
                                            done: bool, id: string)
    requires a <= b <= |corpus|
    ensures var messages := Dispatched(SplitLines(Stream(EngineEvents(corpus, requestId, a, b, stop, done))), id, "");
            && |messages| == b - a + (if done then 1 else 0)
            && EngineConveyInOrder(messages[..b - a], corpus, requestId, a, b, stop)
            && (done ==> messages[b - a].data == "[DONE]")
    decreases b - a
  {
    hide Dispatched, SplitLines, Text, EngineConveys, EngineConveyInOrder, MessageOf, EnginePayload, IntText;
    if a == b {
      EngineEnds(corpus, requestId, a, stop, done, id);
    } else {
      var e := Payload(a, EnginePayload(requestId, corpus[a], a, a == stop - 1));
      var rest := EngineEvents(corpus, requestId, a + 1, b, stop, done);
      var events := EngineEvents(corpus, requestId, a, b, stop, done);
      assert events[1..] == rest && events[0] == e;
      EventDispatched(e, Stream(rest), id);
      EngineChunksRead(corpus, requestId, a + 1, b, stop, done, IntText(a));
      EngineEventConveys(requestId, corpus[a], a, a == stop - 1, id);
      var m, more := MessageOf(e, id), Dispatched(SplitLines(Stream(rest)), IntText(a), "");
      assert m == [m[0]];
      EngineOneMore(m[0], more[..b - (a + 1)], corpus, requestId, a, b, stop);
      assert (m + more)[..b - a] == [m[0]] + more[..b - (a + 1)];
    }
  }

  lemma EngineEnds(corpus: Handover.Corpus, requestId: string, a: nat, stop: nat, done: bool, id: string)
    requires a <= |corpus|
    ensures var messages := Dispatched(SplitLines(Stream(EngineEvents(corpus, requestId, a, a, stop, done))), id, "");
            && |messages| == (if done then 1 else 0) && (done ==> messages[0].data == "[DONE]")
            && EngineConveyInOrder(messages[..0], corpus, requestId, a, a, stop)
  {
    hide Dispatched, SplitLines, EngineConveys;
    EndMark(id);
    NothingDispatched(id);
  }
}
