/** The continuation payloads of the three engine hooks (daemon/integrations/vllm.py, tensorrt_llm.py, tgi.py),
    judged against a deterministic autoregressive engine. */
module Resumption {
  import opened Wrappers
  import opened Texts
  import opened Models
  import opened Numbers
  import opened Buffer

  // ---------------------------------------------------------------------
  // The engine
  // ---------------------------------------------------------------------

  /** The next token after a text, or None at the end of the answer. */
  type Engine = string -> Option<string>

  function Generate(engine: Engine, text: string, budget: nat): (tokens: seq<string>)
    ensures |tokens| <= budget
    decreases budget
  {
    if budget == 0 then []
    else
      match engine(text)
      case None => []
      case Some(token) => [token] + Generate(engine, text + token, budget - 1)
  }

  /** Generation may be stopped after any of its tokens and taken up again from the text so far. */
  lemma {:induction false} GenerateSplits(engine: Engine, text: string, budget: nat, n: nat)
    requires n <= |Generate(engine, text, budget)|
    ensures n <= budget
    ensures var u := Generate(engine, text, budget);
            Generate(engine, text + Join(u[..n]), budget - n) == u[n..]
    decreases n
  {
    var u := Generate(engine, text, budget);
    if n == 0 {
      assert text + Join(u[..0]) == text;
    } else {
      var token := engine(text).value;
      GenerateSplits(engine, text + token, budget - 1, n - 1);
      assert u[1..] == Generate(engine, text + token, budget - 1);
      assert u[..n][1..] == u[1..][..n - 1];
      assert text + token + Join(u[1..][..n - 1]) == text + Join(u[..n]);
    }
  }

  // ---------------------------------------------------------------------
  // The payloads
  // ---------------------------------------------------------------------

  datatype ChatMessage = ChatMessage(role: string, content: string)

  function Contents(messages: seq<ChatMessage>): seq<string> {
    seq(|messages|, i requires 0 <= i < |messages| => messages[i].content)
  }

  datatype VllmPayload = VllmPayload(
    prompt: string, messages: seq<ChatMessage>, maxTokens: pos, startSeqId: int, cachedPrefixTokens: nat)

  /** format_resumption_payload of the vLLM hook. Without a prefix the session's counter is charged to the budget. */
  function FormatVllmPayload(s: InferenceSession, cutoff: int): VllmPayload {
    var numTokens :=
      if cutoff >= 0 && s.generatedText != [] then Min(|s.generatedText|, cutoff + 1)
      else if s.generatedText != [] then |s.generatedText|
      else 0;
    var generatedPrefix := Join(s.generatedText[..numTokens]);
    var totalGen := if numTokens > 0 then numTokens else s.totalTokensGenerated;
    var messages :=
      if s.prompt != "" && generatedPrefix != "" then
        [ChatMessage("user", s.prompt), ChatMessage("assistant", generatedPrefix)]
      else if s.prompt != "" then [ChatMessage("user", s.prompt)]
      else [ChatMessage("user", s.prompt + generatedPrefix)];
    VllmPayload(s.prompt + generatedPrefix, messages, Max(1, s.maxTokens - totalGen), cutoff + 1, numTokens)
  }

  datatype TritonPayload = TritonPayload(
    textInput: string, maxTokens: pos, cutoffSequenceId: int, cachedPrefixTokens: nat)

  /** build_prefix_caching_payload of the TensorRT-LLM hook. */
  function BuildTritonPayload(s: InferenceSession, cutoff: int): TritonPayload {
    var prefixTokens :=
      if cutoff >= 0 && s.generatedText != [] then s.generatedText[..Min(|s.generatedText|, cutoff + 1)]
      else if s.generatedText != [] then s.generatedText
      else [];
    TritonPayload(s.prompt + Join(prefixTokens), Max(1, s.maxTokens - |prefixTokens|), cutoff, |prefixTokens|)
  }

  /** The native form carries one text, the OpenAI form messages. */
  datatype TgiInput = Native(inputs: string) | Chat(messages: seq<ChatMessage>)

  datatype TgiPayload = TgiPayload(
    input: TgiInput, maxNewTokens: pos, cutoffSequenceId: int, cachedPrefixTokens: nat)

  /** build_prefix_caching_payload of the TGI hook. */
  function BuildTgiPayload(s: InferenceSession, cutoff: int, chat: bool): TgiPayload {
    var numTokens :=
      if cutoff >= 0 && s.generatedText != [] then Min(|s.generatedText|, cutoff + 1)
      else if s.generatedText != [] then |s.generatedText|
      else 0;
    var prefix := Join(s.generatedText[..numTokens]);
    var input :=
      if !chat then Native(s.prompt + prefix)
      else if s.prompt != "" && prefix != "" then
        Chat([ChatMessage("user", s.prompt), ChatMessage("assistant", prefix)])
      else if s.prompt != "" then Chat([ChatMessage("user", s.prompt)])
      else Chat([ChatMessage("user", s.prompt + prefix)]);
    TgiPayload(input, Max(1, s.maxTokens - numTokens), cutoff, numTokens)
  }

  // ---------------------------------------------------------------------
  // What an engine makes of them
  // ---------------------------------------------------------------------

  datatype Hook = VLLM | TensorRT | TGI(chat: bool)

  /** The text an engine continues, for how many tokens, and how many of them the hook took for cached. */
  datatype Task = Task(text: string, budget: pos, cached: nat)

  function TaskOf(hook: Hook, s: InferenceSession, cutoff: int): Task {
    match hook
    case VLLM =>
      var p := FormatVllmPayload(s, cutoff);
      Task(Join(Contents(p.messages)), p.maxTokens, p.cachedPrefixTokens)
    case TensorRT =>
      var p := BuildTritonPayload(s, cutoff);
      Task(p.textInput, p.maxTokens, p.cachedPrefixTokens)
    case TGI(chat) =>
      var p := BuildTgiPayload(s, cutoff, chat);
      Task(if p.input.Native? then p.input.inputs else Join(Contents(p.input.messages)), p.maxNewTokens,
           p.cachedPrefixTokens)
  }

  function PrefixCount(generated: nat, cutoff: int): (n: nat)
    ensures n <= generated
  {
    if 0 <= cutoff < generated then cutoff + 1 else generated
  }

  /** vLLM falls back on the session's counter when there is no prefix; the others do not. */
  function Remaining(hook: Hook, maxTokens: pos, prefix: nat, total: nat): pos {
    if hook == VLLM && prefix == 0 then Max(1, maxTokens - total) else Max(1, maxTokens - prefix)
  }

  /** However the three forms split it, what the engine continues is the prompt with the generated text up to the
      cutoff: all of that text if the cutoff lies outside. */
  lemma TaskIs(hook: Hook, s: InferenceSession, cutoff: int)
    ensures var n := PrefixCount(|s.generatedText|, cutoff);
            TaskOf(hook, s, cutoff) == Task(s.prompt + Join(s.generatedText[..n]),
                                            Remaining(hook, s.maxTokens, n, s.totalTokensGenerated), n)
  {
    var n := PrefixCount(|s.generatedText|, cutoff);
    var prefix := Join(s.generatedText[..n]);
    assert s.generatedText[..|s.generatedText|] == s.generatedText;
    match hook {
      case VLLM => MessagesSpell(FormatVllmPayload(s, cutoff).messages, s.prompt, prefix);
      case TensorRT =>
      case TGI(chat) =>
        if chat {
          MessagesSpell(BuildTgiPayload(s, cutoff, chat).input.messages, s.prompt, prefix);
        }
    }
  }

  /** The user's message and the beginning of the assistant's answer, without empty messages, make up one text. */
  lemma MessagesSpell(messages: seq<ChatMessage>, prompt: string, prefix: string)
    requires messages == if prompt != "" && prefix != "" then
                           [ChatMessage("user", prompt), ChatMessage("assistant", prefix)]
                         else if prompt != "" then [ChatMessage("user", prompt)]
                         else [ChatMessage("user", prompt + prefix)]
    ensures Join(Contents(messages)) == prompt + prefix
  {
    if prompt != "" && prefix != "" {
      assert Contents(messages) == [prompt] + [prefix];
      JoinConcat([prompt], [prefix]);
      JoinOnePiece(prompt);
      JoinOnePiece(prefix);
    } else {
      assert Contents(messages) == [messages[0].content];
      JoinOnePiece(messages[0].content);
      assert "" + prefix == prefix && prompt + "" == prompt;
    }
  }

  /** What one side of a conversation says. */
  function SaidBy(messages: seq<ChatMessage>, role: string): string {
    if messages == [] then ""
    else One(messages[0], role) + SaidBy(messages[1..], role)
  }

  function ChatForm(hook: Hook, s: InferenceSession, cutoff: int): seq<ChatMessage>
    requires hook == VLLM || hook == TGI(true)
  {
    if hook == VLLM then FormatVllmPayload(s, cutoff).messages else BuildTgiPayload(s, cutoff, true).input.messages
  }

  /** In the chat forms the user speaks first. The generated text is put into the assistant's mouth, as the last thing
      said, if and only if there is a prompt; without one the user says it. No message but the only one is empty. */
  lemma SpokenInTurn(hook: Hook, s: InferenceSession, cutoff: int)
    requires hook == VLLM || hook == TGI(true)
    ensures var messages := ChatForm(hook, s, cutoff);
            var generated := Join(s.generatedText[..PrefixCount(|s.generatedText|, cutoff)]);
            && messages != [] && messages[0].role == "user"
            && SaidBy(messages, "user") == (if s.prompt != "" then s.prompt else generated)
            && SaidBy(messages, "assistant") == (if s.prompt != "" then generated else "")
            && (|messages| > 1 ==> forall m :: m in messages ==> m.content != "")
  {
    var generated := Join(s.generatedText[..PrefixCount(|s.generatedText|, cutoff)]);
    assert s.generatedText[..|s.generatedText|] == s.generatedText;
    SaidInTurn(ChatForm(hook, s, cutoff), s.prompt, generated);
  }

  lemma SaidInTurn(messages: seq<ChatMessage>, prompt: string, prefix: string)
    requires messages == if prompt != "" && prefix != "" then
                           [ChatMessage("user", prompt), ChatMessage("assistant", prefix)]
                         else if prompt != "" then [ChatMessage("user", prompt)]
                         else [ChatMessage("user", prompt + prefix)]
    ensures SaidBy(messages, "user") == (if prompt != "" then prompt else prefix)
    ensures SaidBy(messages, "assistant") == (if prompt != "" then prefix else "")
  {
    assert "" + prefix == prefix && prompt + "" == prompt;
    forall role
      ensures SaidBy(messages, role) == if |messages| == 2 then One(messages[0], role) + One(messages[1], role)
                                        else One(messages[0], role)
    {
      SaidByOne(messages[0], role);
      if |messages| == 2 {
        SaidByOne(messages[1], role);
        assert messages[1..] == [messages[1]];
      } else {
        assert messages == [messages[0]];
      }
    }
    assert SaidBy(messages, "user") == (if prompt != "" then prompt else prefix);
  }

  function One(m: ChatMessage, role: string): string {
    if m.role == role then m.content else ""
  }

  lemma SaidByOne(m: ChatMessage, role: string)
    ensures SaidBy([m], role) == One(m, role)
  {
    assert [m][1..] == [];
    assert One(m, role) + "" == One(m, role);
  }

  /** The three builders agree: any two hooks have their engines continue the same text with the same prefix count, and
      with the same budget unless exactly one is vLLM's and it counts tokens that it has no text for. */
  lemma HooksAgree(a: Hook, b: Hook, s: InferenceSession, cutoff: int)
    ensures TaskOf(a, s, cutoff).text == TaskOf(b, s, cutoff).text
    ensures TaskOf(a, s, cutoff).cached == TaskOf(b, s, cutoff).cached
    ensures TaskOf(a, s, cutoff).budget == TaskOf(b, s, cutoff).budget
            <==> (a == VLLM <==> b == VLLM) || s.generatedText != [] || s.totalTokensGenerated == 0 || s.maxTokens == 1
    ensures FormatVllmPayload(s, cutoff).prompt == BuildTritonPayload(s, cutoff).textInput
  {
    TaskIs(a, s, cutoff);
    TaskIs(b, s, cutoff);
    TaskIs(TensorRT, s, cutoff);
    assert s.generatedText[..|s.generatedText|] == s.generatedText;
  }

  /** The tokens the client has when the last flushed id is `cutoff`. */
  function FlushedCount(cutoff: int): nat {
    Max(0, cutoff + 1)
  }

  // ---------------------------------------------------------------------
  // When resumption preserves the answer
  // ---------------------------------------------------------------------

  /** A snapshot of a request after the engine has generated the first m tokens of its answer. */
  function Snapshot(engine: Engine, id: string, prompt: string, maxTokens: pos, m: nat, cutoff: int, total: nat)
    : InferenceSession
    requires m <= |Generate(engine, prompt, maxTokens)|
  {
    InferenceSession(id, prompt, maxTokens, Generate(engine, prompt, maxTokens)[..m], cutoff, total)
  }

  /** For every engine: what the client has and what the standby generates make up the uninterrupted answer. */
  ghost predicate Seamless(hook: Hook, id: string, prompt: string, maxTokens: pos, m: nat, cutoff: int, total: nat) {
    forall engine: Engine :: SeamlessFor(engine, hook, id, prompt, maxTokens, m, cutoff, total)
  }

  ghost predicate SeamlessFor(engine: Engine, hook: Hook, id: string, prompt: string, maxTokens: pos, m: nat,
                              cutoff: int, total: nat)
  {
    var u := Generate(engine, prompt, maxTokens);
    m <= |u| && FlushedCount(cutoff) <= |u| ==>
      var task := TaskOf(hook, Snapshot(engine, id, prompt, maxTokens, m, cutoff, total), cutoff);
      u[..FlushedCount(cutoff)] + Generate(engine, task.text, task.budget) == u
  }

  /** What a caller can check: the cutoff lies inside the generated text and leaves some budget; or nothing was
      generated and nothing flushed, and vLLM's counter says so, too. */
  predicate Resumable(hook: Hook, maxTokens: pos, m: nat, cutoff: int, total: nat) {
    || (0 <= cutoff < m && cutoff + 1 < maxTokens)
    || (m == 0 && cutoff < 0 && (hook == VLLM ==> total == 0 || maxTokens == 1))
  }

  /** The arithmetic core: prefix sent == tokens flushed, and budget == tokens missing. */
  predicate Balanced(hook: Hook, maxTokens: pos, m: nat, cutoff: int, total: nat) {
    var n := PrefixCount(m, cutoff);
    n == FlushedCount(cutoff) && Remaining(hook, maxTokens, n, total) == maxTokens - FlushedCount(cutoff)
  }

  lemma BalancedIsResumable(hook: Hook, maxTokens: pos, m: nat, cutoff: int, total: nat)
    ensures Balanced(hook, maxTokens, m, cutoff, total) <==> Resumable(hook, maxTokens, m, cutoff, total)
  {
  }

  /** The prefix is what the client has, and prefix and budget make up max_tokens, under that condition and only then;
      vLLM's numbering then starts behind the prefix. */
  lemma PrefixAndBudget(hook: Hook, s: InferenceSession, cutoff: int)
    ensures var task := TaskOf(hook, s, cutoff);
            task.cached == FlushedCount(cutoff) && task.cached + task.budget == s.maxTokens
            <==> Resumable(hook, s.maxTokens, |s.generatedText|, cutoff, s.totalTokensGenerated)
    ensures cutoff >= -1 && Resumable(VLLM, s.maxTokens, |s.generatedText|, cutoff, s.totalTokensGenerated) ==>
              FormatVllmPayload(s, cutoff).startSeqId == FormatVllmPayload(s, cutoff).cachedPrefixTokens
    ensures cutoff >= -1 ==> FormatVllmPayload(s, cutoff).startSeqId == FlushedCount(cutoff)
    ensures BuildTritonPayload(s, cutoff).cutoffSequenceId == cutoff
    ensures forall chat :: BuildTgiPayload(s, cutoff, chat).cutoffSequenceId == cutoff
  {
    TaskIs(hook, s, cutoff);
    BalancedIsResumable(hook, s.maxTokens, |s.generatedText|, cutoff, s.totalTokensGenerated);
  }

  lemma BalancedIsSeamless(engine: Engine, hook: Hook, id: string, prompt: string, maxTokens: pos, m: nat, cutoff: int,
                           total: nat)
    requires Balanced(hook, maxTokens, m, cutoff, total)
    ensures SeamlessFor(engine, hook, id, prompt, maxTokens, m, cutoff, total)
  {
    var u := Generate(engine, prompt, maxTokens);
    var f := FlushedCount(cutoff);
    if m <= |u| && f <= |u| {
      TaskIs(hook, Snapshot(engine, id, prompt, maxTokens, m, cutoff, total), cutoff);
      assert u[..m][..f] == u[..f];
      GenerateSplits(engine, prompt, maxTokens, f);
      assert u[..f] + u[f..] == u;
    }
  }

  /** An engine that repeats the whole text and adds a letter: it never stops and never emits a token twice. */
  function Growing(text: string): Option<string> {
    Some(text + "a")
  }

  lemma {:induction false} GrowingLength(text: string, budget: nat)
    ensures |Generate(Growing, text, budget)| == budget
    decreases budget
  {
    if budget > 0 {
      GrowingLength(text + (text + "a"), budget - 1);
    }
  }

  lemma {:induction false} JoinLonger(parts: seq<string>, i: nat, j: nat)
    requires i <= |parts| && j <= |parts| && forall k :: 0 <= k < |parts| ==> parts[k] != ""
    ensures i < j ==> |Join(parts[..i])| < |Join(parts[..j])|
  {
    if i < j {
      JoinConcat(parts[..i], parts[i..j]);
      assert parts[..j] == parts[..i] + parts[i..j];
      assert parts[i..j][0] == parts[i];
      assert Join(parts[i..j]) == parts[i] + Join(parts[i..j][1..]);
    }
  }

  lemma {:induction false} GrowingTokens(text: string, budget: nat)
    ensures var u := Generate(Growing, text, budget); forall k :: 0 <= k < budget && k < |u| ==> u[k] != ""
    decreases budget
  {
    if budget > 0 {
      GrowingTokens(text + (text + "a"), budget - 1);
      var u := Generate(Growing, text, budget);
      assert u == [text + "a"] + Generate(Growing, text + (text + "a"), budget - 1);
    }
  }

  lemma GrowingFirst(text: string, budget: nat)
    requires budget > 0
    ensures Generate(Growing, text, budget) != [] && Generate(Growing, text, budget)[0] == text + "a"
  {
  }

  lemma UnbalancedFails(hook: Hook, id: string, prompt: string, maxTokens: pos, m: nat, cutoff: int, total: nat)
    requires m <= maxTokens && FlushedCount(cutoff) <= maxTokens
    requires SeamlessFor(Growing, hook, id, prompt, maxTokens, m, cutoff, total)
    ensures Balanced(hook, maxTokens, m, cutoff, total)
  {
    hide Generate, TaskOf, Join;
    var u := Generate(Growing, prompt, maxTokens);
    var f := FlushedCount(cutoff);
    GrowingLength(prompt, maxTokens);
    GrowingTokens(prompt, maxTokens);
    TaskIs(hook, Snapshot(Growing, id, prompt, maxTokens, m, cutoff, total), cutoff);
    var task := TaskOf(hook, Snapshot(Growing, id, prompt, maxTokens, m, cutoff, total), cutoff);
    var resumed := Generate(Growing, task.text, task.budget);
    GrowingLength(task.text, task.budget);
    assert u[..f] + resumed == u;
    assert f + task.budget == maxTokens;
    var n := PrefixCount(m, cutoff);
    assert u[..m][..n] == u[..n];
    GrowingFirst(task.text, task.budget);
    GenerateSplits(Growing, prompt, maxTokens, f);
    GrowingFirst(prompt + Join(u[..f]), maxTokens - f);
    assert u[f..] == resumed;
    assert |task.text| == |prompt + Join(u[..f])|;
    JoinLonger(u, n, f);
    JoinLonger(u, f, n);
  }

  /** A hook resumes every engine's answer exactly under the checkable condition, and only then. */
  lemma ResumptionExact(hook: Hook, id: string, prompt: string, maxTokens: pos, m: nat, cutoff: int, total: nat)
    requires m <= maxTokens && FlushedCount(cutoff) <= maxTokens
    ensures Seamless(hook, id, prompt, maxTokens, m, cutoff, total) <==> Resumable(hook, maxTokens, m, cutoff, total)
  {
    hide SeamlessFor, Balanced, Resumable;
    BalancedIsResumable(hook, maxTokens, m, cutoff, total);
    if Balanced(hook, maxTokens, m, cutoff, total) {
      forall engine: Engine
        ensures SeamlessFor(engine, hook, id, prompt, maxTokens, m, cutoff, total)
      {
        BalancedIsSeamless(engine, hook, id, prompt, maxTokens, m, cutoff, total);
      }
    } else if Seamless(hook, id, prompt, maxTokens, m, cutoff, total) {
      assert SeamlessFor(Growing, hook, id, prompt, maxTokens, m, cutoff, total);
      UnbalancedFails(hook, id, prompt, maxTokens, m, cutoff, total);
    }
  }

  // ---------------------------------------------------------------------
  // Successive migrations
  // ---------------------------------------------------------------------

  /** One migration: the cutoff, and how many tokens the next node then generates before it is preempted. */
  datatype Leg = Leg(cutoff: int, produced: nat)

  function Resumed(engine: Engine, hook: Hook, s: InferenceSession, cutoff: int): seq<string> {
    var task := TaskOf(hook, s, cutoff);
    Generate(engine, task.text, task.budget)
  }

  /** Each leg cuts inside the text its node had generated and leaves some budget. */
  ghost predicate LegsOk(engine: Engine, hook: Hook, s: InferenceSession, legs: seq<Leg>)
    decreases |legs|
  {
    legs == [] ||
    (var leg := legs[0];
     && 0 <= leg.cutoff < |s.generatedText| && leg.cutoff + 1 < s.maxTokens
     && leg.produced <= |Resumed(engine, hook, s, leg.cutoff)|
     && LegsOk(engine, hook, Next(engine, hook, s, leg), legs[1..]))
  }

  function Next(engine: Engine, hook: Hook, s: InferenceSession, leg: Leg): InferenceSession
    requires 0 <= leg.cutoff < |s.generatedText|
    requires leg.produced <= |Resumed(engine, hook, s, leg.cutoff)|
  {
    s.(generatedText := s.generatedText[..leg.cutoff + 1] + Resumed(engine, hook, s, leg.cutoff)[..leg.produced],
       lastFlushed := leg.cutoff)
  }

  /** The client's whole text when the last leg's node runs to its end. */
  ghost function Relay(engine: Engine, hook: Hook, s: InferenceSession, legs: seq<Leg>): seq<string>
    requires legs != [] && LegsOk(engine, hook, s, legs)
    decreases |legs|
  {
    if |legs| == 1
    then s.generatedText[..legs[0].cutoff + 1] + Resumed(engine, hook, s, legs[0].cutoff)
    else Relay(engine, hook, Next(engine, hook, s, legs[0]), legs[1..])
  }

  ghost predicate Prefix(s: InferenceSession, u: seq<string>) {
    |s.generatedText| <= |u| && s.generatedText == u[..|s.generatedText|]
  }

  /** The chunk with id n carries token n of the answer: resumption continues numbering and text alike. */
  lemma ResumedContinues(engine: Engine, hook: Hook, s: InferenceSession, cutoff: int)
    requires Prefix(s, Generate(engine, s.prompt, s.maxTokens))
    requires 0 <= cutoff < |s.generatedText| && cutoff + 1 < s.maxTokens
    ensures Resumed(engine, hook, s, cutoff) == Generate(engine, s.prompt, s.maxTokens)[cutoff + 1..]
  {
    hide TaskOf, Generate, Join;
    var u := Generate(engine, s.prompt, s.maxTokens);
    TaskIs(hook, s, cutoff);
    GenerateSplits(engine, s.prompt, s.maxTokens, cutoff + 1);
    assert s.generatedText[..cutoff + 1] == u[..cutoff + 1];
  }

  /** Any number of migrations in a row still yields the uninterrupted answer. */
  lemma {:induction false} MigrationsCompose(engine: Engine, hook: Hook, s: InferenceSession, legs: seq<Leg>)
    requires Prefix(s, Generate(engine, s.prompt, s.maxTokens))
    requires legs != [] && LegsOk(engine, hook, s, legs)
    ensures Relay(engine, hook, s, legs) == Generate(engine, s.prompt, s.maxTokens)
    decreases |legs|
  {
    hide TaskOf, Generate, Resumed;
    var u := Generate(engine, s.prompt, s.maxTokens);
    var c := legs[0].cutoff;
    ResumedContinues(engine, hook, s, c);
    assert s.generatedText[..c + 1] == u[..c + 1];
    if |legs| == 1 {
      assert u[..c + 1] + u[c + 1..] == u;
    } else {
      var next := Next(engine, hook, s, legs[0]);
      assert next.generatedText == u[..c + 1 + legs[0].produced];
      MigrationsCompose(engine, hook, next, legs[1..]);
    }
  }

  // ---------------------------------------------------------------------
  // Numbering of resumed streams
  // ---------------------------------------------------------------------

  /** A parsed data line of the vLLM stream. */
  datatype VllmLine = VllmLine(token: string, seqId: Option<int>)

  /** The id of chunk k: the engine's own, or one more than the chunk before. */
  function IdAt(lines: seq<VllmLine>, lastFlushed: int, k: nat): int
    requires k < |lines|
  {
    match lines[k].seqId
    case Some(id) => id
    case None => if k == 0 then lastFlushed + 1 else IdAt(lines, lastFlushed, k - 1) + 1
  }

  /** The engine's ids, where it sends any, are the ones that continue behind the last flushed id. */
  predicate IdsContinue(lines: seq<VllmLine>, lastFlushed: int) {
    forall k :: 0 <= k < |lines| ==> lines[k].seqId == None || lines[k].seqId == Some(lastFlushed + 1 + k)
  }

  /** One chunk for each line; the numbering has no gap and no repetition exactly when the engine's own ids
      fit. */
  method StreamResumedVllm(requestId: string, lastFlushed: int, lines: seq<VllmLine>) returns (chunks: seq<TokenChunk>)
    ensures |chunks| == |lines|
    ensures forall k :: 0 <= k < |lines| ==>
              && chunks[k].token == lines[k].token && chunks[k].requestId == requestId && !chunks[k].isFinal
              && chunks[k].sequenceId == IdAt(lines, lastFlushed, k)
    ensures IdsContinue(lines, lastFlushed) <==> NumberedFrom(chunks, lastFlushed + 1)
  {
    chunks := [];
    var nextSeq := lastFlushed + 1;
    for n := 0 to |lines|
      invariant |chunks| == n
      invariant nextSeq == if n == 0 then lastFlushed + 1 else IdAt(lines, lastFlushed, n - 1) + 1
      invariant forall k :: 0 <= k < n ==>
                  && chunks[k].token == lines[k].token && chunks[k].requestId == requestId && !chunks[k].isFinal
                  && chunks[k].sequenceId == IdAt(lines, lastFlushed, k)
    {
      var seqId := match lines[n].seqId case Some(id) => id case None => nextSeq;
      chunks := chunks + [TokenChunk(requestId, seqId, lines[n].token, false)];
      nextSeq := seqId + 1;
    }
    if IdsContinue(lines, lastFlushed) {
      ContinuedIds(lines, lastFlushed, |lines|);
    }
  }

  lemma {:induction false} ContinuedIds(lines: seq<VllmLine>, lastFlushed: int, n: nat)
    requires n <= |lines| && IdsContinue(lines, lastFlushed)
    ensures forall k: nat :: k < n ==> IdAt(lines, lastFlushed, k) == lastFlushed + 1 + k
  {
    if n > 0 {
      ContinuedIds(lines, lastFlushed, n - 1);
    }
  }

  /** A parsed line of the Triton stream. */
  datatype TritonLine = TritonLine(text: string, sequenceEnd: bool)

  /** One chunk for each line up to the one that ends the sequence, numbered from the first missing id. */
  method StreamResumedTriton(requestId: string, lastFlushed: int, lines: seq<TritonLine>)
    returns (chunks: seq<TokenChunk>)
    ensures NumberedFrom(chunks, Max(0, lastFlushed + 1))
    ensures |chunks| <= |lines|
    ensures forall k :: 0 <= k < |chunks| ==>
              && chunks[k].token == lines[k].text && chunks[k].isFinal == lines[k].sequenceEnd
              && chunks[k].requestId == requestId
    ensures forall k :: 0 <= k < |chunks| - 1 ==> !lines[k].sequenceEnd
    ensures |chunks| == |lines| || (|chunks| > 0 && lines[|chunks| - 1].sequenceEnd)
  {
    chunks := [];
    var nextSeq := lastFlushed + 1;
    if nextSeq < 0 {
      nextSeq := 0;
    }
    ghost var first := nextSeq;
    for n := 0 to |lines|
      invariant |chunks| == n && nextSeq == first + n && NumberedFrom(chunks, first)
      invariant forall k :: 0 <= k < n ==>
                  && chunks[k].token == lines[k].text && chunks[k].isFinal == lines[k].sequenceEnd
                  && chunks[k].requestId == requestId && !lines[k].sequenceEnd
    {
      chunks := chunks + [TokenChunk(requestId, nextSeq, lines[n].text, lines[n].sequenceEnd)];
      nextSeq := nextSeq + 1;
      if lines[n].sequenceEnd {
        break;
      }
    }
  }
}
