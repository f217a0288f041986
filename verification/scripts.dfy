/** One run of a conversation script, from the prompt file's text to the
    text it leaves behind. The server, the backend's answer, the clock and
    the timer are inputs: a run is a function of the file and of what the
    outside world answered. */
module Scripts {
  import opened Outcomes
  import opened Text
  import opened Sections
  import opened Messages
  import opened PromptFile
  import opened Reply
  import opened Decisions
  import opened RoundTrip

  /** The two chat scripts: ollama-conversation.py and
      llama-conversation-docker.py. */
  datatype Chat = Ollama | Docker

  function ProfileOf(c: Chat): Profile {
    match c
    case Ollama => OllamaProfile
    case Docker => DockerProfile
  }

  /** The ollama server's `prompt_eval_count` and `eval_count`, each of
      which may be missing. */
  datatype Usage = Usage(promptEval: Option<nat>, eval: Option<nat>)

  /** What the backend sent back: the reply text and, when the response
      carried them, its counters. A non-streamed ollama response always
      carries them; a stream that ends without a final chunk does not. */
  datatype Answer = Answer(text: string, usage: Option<Usage>)

  /** Everything a run learns from outside the file. `answer` is `None`
      when the generation request raised. */
  datatype World = World(conn: Connection, answer: Option<Answer>, timestamp: string, seconds: string)

  /** What every script has read once its guard has passed: the
      configuration and the sections, the last of them human. */
  datatype Conversation = Conversation(config: Config, sections: seq<Section>)

  function ReadConversation(p: Profile, file: string): (r: Result<Conversation>)
    ensures r.Ok? ==> CheckLastHuman(r.value.sections).Ok?
  {
    match ParsePromptFile(p, file)
    case Err(e) => Err(e)
    case Ok(doc) =>
      match ParseSections(doc.conversation)
      case Err(e) => Err(e)
      case Ok(secs) =>
        if CheckLastHuman(secs).Err? then Err(CheckLastHuman(secs).error)
        else Ok(Conversation(doc.config, secs))
  }

  /** What a chat script has computed when it is about to contact the
      server. */
  datatype Plan = Plan(config: Config, sections: seq<Section>, messages: seq<Message>)

  function ChatPlan(c: Chat, file: string): (r: Result<Plan>)
    ensures r.Ok? ==> CheckLastHuman(r.value.sections).Ok?
    ensures r.Ok? ==> r.value.messages == BuildMessages(r.value.sections)
  {
    var conv :- ReadConversation(ProfileOf(c), file);
    Ok(Plan(conv.config, conv.sections, BuildMessages(conv.sections)))
  }

  /** The statistics the chat script puts on the `# Generated:` line: the
      ollama script reports token counts when it has them, the docker
      script never does. */
  function TokensOf(c: Chat, a: Answer): (r: Option<TokenInfo>)
    ensures c == Docker ==> r.None?
    ensures r.Some? ==> r.value.total == r.value.prompt + r.value.completion
  {
    match (c, a.usage)
    case (Ollama, Some(u)) => Some(TokenCounts(u.promptEval, u.eval))
    case _ => None
  }

  /** A chat script's run: the file as it is afterwards. A dry run stops
      after building the messages and writes nothing. */
  function ChatTurn(c: Chat, file: string, dryRun: bool, w: World): (r: Result<string>)
    ensures r.Ok? ==> StartsWith(r.value, file)
    ensures dryRun ==> (r.Ok? <==> ChatPlan(c, file).Ok?) && (r.Ok? ==> r.value == file)
    ensures r.Ok? && !dryRun ==>
      && w.answer.Some? && ChatPlan(c, file).Ok?
      && ChooseModel(w.conn, TextOf(ChatPlan(c, file).value.config, "model_name")).Ok?
  {
    var plan :- ChatPlan(c, file);
    if dryRun then Ok(file)
    else
      var model :- ChooseModel(w.conn, TextOf(plan.config, "model_name"));
      match w.answer
      case None => Err(GenerationFailed)
      case Some(a) =>
        var meta := MetadataLine(w.timestamp, w.seconds, TokensOf(c, a));
        var block := AppendBlock(CleanReply(a.text), meta);
        assert (file + block)[..|file|] == file;
        Ok(file + block)
  }

  /** The guard does not depend on the outside world: a conversation that
      is empty or ends with an AI turn is refused before any server is
      contacted. */
  lemma ChatRefusesWithoutHumanTurn(c: Chat, file: string, dryRun: bool, w: World)
    requires ParsePromptFile(ProfileOf(c), file).Ok?
    requires ParseSections(ParsePromptFile(ProfileOf(c), file).value.conversation).Ok?
    requires CheckLastHuman(ParseSections(ParsePromptFile(ProfileOf(c), file).value.conversation).value).Err?
    ensures ChatTurn(c, file, dryRun, w).Err?
    ensures ChatTurn(c, file, dryRun, w).error
      == CheckLastHuman(ParseSections(ParsePromptFile(ProfileOf(c), file).value.conversation).value).error
  {
  }

  /** What a successful chat run appended: the block for the cleaned reply
      with its statistics line. */
  lemma ChatTurnAppends(c: Chat, file: string, w: World)
    requires ChatTurn(c, file, false, w).Ok?
    ensures w.answer.Some?
    ensures ChatTurn(c, file, false, w).value
      == file + AppendBlock(CleanReply(w.answer.value.text),
                            MetadataLine(w.timestamp, w.seconds, TokensOf(c, w.answer.value)))
  {
  }

  /** The timestamp and duration texts are single-line and hold no run of
      three dashes, as `%Y-%m-%d %H:%M:%S` and `%.1f` texts do. */
  predicate CleanStamps(w: World) {
    NoDashRun(w.timestamp) && '\n' !in w.timestamp && NoDashRun(w.seconds) && '\n' !in w.seconds
  }

  /** The round trip through a chat script: after a run, and once the user
      has typed their next message below the new human marker, the next run
      sees the same configuration and the old messages followed by the
      cleaned reply and the new user message. */
  lemma {:induction false} ChatRoundTrip(c: Chat, file: string, w: World, human: string)
    requires ChatTurn(c, file, false, w).Ok?
    requires w.answer.Some? && CleanStamps(w)
    requires CleanReply(w.answer.value.text) != "" && MarkerFree(CleanReply(w.answer.value.text))
    requires MarkerFree(human) && !IsBlank(human)
    ensures ChatPlan(c, ChatTurn(c, file, false, w).value + human).Ok?
    ensures ChatPlan(c, ChatTurn(c, file, false, w).value + human).value.config
      == ChatPlan(c, file).value.config
    ensures ChatPlan(c, ChatTurn(c, file, false, w).value + human).value.messages
      == ChatPlan(c, file).value.messages
        + [Message(Assistant, CleanReply(w.answer.value.text)), Message(User, Strip(human))]
  {
    var a := w.answer.value;
    var reply, meta := CleanReply(a.text), MetadataLine(w.timestamp, w.seconds, TokensOf(c, a));
    ChatTurnAppends(c, file, w);
    Assoc(file, AppendBlock(reply, meta), human);
    MetadataLineIsStats(w.timestamp, w.seconds, TokensOf(c, a));
    PlanAppended(c, file, reply, meta, human);
  }

  /** The plan of the extended file: same configuration, two more
      sections, two more messages. */
  lemma {:induction false} PlanAppended(c: Chat, file: string, reply: string, meta: string, human: string)
    requires ChatPlan(c, file).Ok?
    requires Trimmed(reply) && AllClean(reply) && reply != "" && MarkerFree(reply)
    requires IsStatsLine(meta)
    requires MarkerFree(human) && !IsBlank(human)
    ensures ChatPlan(c, file + (AppendBlock(reply, meta) + human))
      == Ok(Plan(ChatPlan(c, file).value.config,
                 ChatPlan(c, file).value.sections + Added(reply, meta, human),
                 ChatPlan(c, file).value.messages + [Message(Assistant, reply), Message(User, Strip(human))]))
  {
    var secs := ChatPlan(c, file).value.sections;
    ReadAppended(ProfileOf(c), file, reply, meta, human);
    MessagesAppended(secs, reply, meta, human);
  }

  /** Every script reads the extended file as the same configuration and
      the old sections followed by the two new ones. */
  lemma {:induction false} ReadAppended(p: Profile, file: string, reply: string, meta: string, human: string)
    requires ReadConversation(p, file).Ok?
    requires Trimmed(reply) && reply != "" && MarkerFree(reply)
    requires IsStatsLine(meta)
    requires MarkerFree(human) && !IsBlank(human)
    ensures ReadConversation(p, file + (AppendBlock(reply, meta) + human))
      == Ok(Conversation(ReadConversation(p, file).value.config,
                         ReadConversation(p, file).value.sections + Added(reply, meta, human)))
  {
    var file' := file + (AppendBlock(reply, meta) + human);
    ReadParts(p, file);
    var secs := ReadConversation(p, file).value.sections;
    FileAppended(p, file, reply, meta, human);
    var doc' := ParsePromptFile(p, file').value;
    assert ParseSections(doc'.conversation) == Ok(secs + Added(reply, meta, human));
    AddedEndsHuman(secs, reply, meta, human);
    ReadOfParts(p, file', doc'.config, doc'.conversation, secs + Added(reply, meta, human));
  }

  lemma {:induction false} ReadParts(p: Profile, file: string)
    requires ReadConversation(p, file).Ok?
    ensures ParsePromptFile(p, file).Ok?
    ensures ParseSections(ParsePromptFile(p, file).value.conversation)
      == Ok(ReadConversation(p, file).value.sections)
    ensures ReadConversation(p, file).value.config == ParsePromptFile(p, file).value.config
  {
    match ParsePromptFile(p, file)
    case Ok(doc) =>
      match ParseSections(doc.conversation)
      case Ok(secs) =>
  }

  lemma {:induction false} ReadOfParts(p: Profile, file: string, cfg: Config, conv: string, secs: seq<Section>)
    requires ParsePromptFile(p, file) == Ok(Document(cfg, conv))
    requires ParseSections(conv) == Ok(secs)
    requires CheckLastHuman(secs).Ok?
    ensures ReadConversation(p, file) == Ok(Conversation(cfg, secs))
  {
  }

  lemma AddedEndsHuman(secs: seq<Section>, reply: string, meta: string, human: string)
    ensures CheckLastHuman(secs + Added(reply, meta, human)).Ok?
  {
  }

  /** Running a chat script a second time without typing anything does not
      generate again: the empty human section at the end makes the
      conversation unparsable. */
  lemma {:induction false} ChatRerunRefused(c: Chat, file: string, w: World)
    requires ChatTurn(c, file, false, w).Ok?
    requires w.answer.Some? && CleanStamps(w)
    requires CleanReply(w.answer.value.text) != "" && MarkerFree(CleanReply(w.answer.value.text))
    ensures ChatPlan(c, ChatTurn(c, file, false, w).value) == Err(MismatchedSections)
  {
    var p, a := ProfileOf(c), w.answer.value;
    var reply, meta := CleanReply(a.text), MetadataLine(w.timestamp, w.seconds, TokensOf(c, a));
    ChatTurnAppends(c, file, w);
    MetadataLineIsStats(w.timestamp, w.seconds, TokensOf(c, a));
    RefusedOutput(c, file, ChatTurn(c, file, false, w).value, reply, meta);
  }

  lemma {:induction false} RefusedOutput(c: Chat, file: string, out: string, reply: string, meta: string)
    requires ChatPlan(c, file).Ok?
    requires out == file + AppendBlock(reply, meta)
    requires Trimmed(reply) && reply != "" && MarkerFree(reply)
    requires IsStatsLine(meta)
    ensures ChatPlan(c, out) == Err(MismatchedSections)
  {
    assert AppendBlock(reply, meta) + "" == AppendBlock(reply, meta);
    ChatRefusal(c, file, reply, meta);
  }

  lemma {:induction false} ChatRefusal(c: Chat, file: string, reply: string, meta: string)
    requires ChatPlan(c, file).Ok?
    requires Trimmed(reply) && reply != "" && MarkerFree(reply)
    requires IsStatsLine(meta)
    ensures ChatPlan(c, file + (AppendBlock(reply, meta) + "")) == Err(MismatchedSections)
  {
    var p := ProfileOf(c);
    ChatPlanRead(c, file);
    ReadParts(p, file);
    RerunConversation(p, file, reply, meta);
    ReadRefused(p, file + (AppendBlock(reply, meta) + ""));
    ChatPlanOfRead(c, file + (AppendBlock(reply, meta) + ""));
  }

  lemma {:induction false} ChatPlanRead(c: Chat, file: string)
    requires ChatPlan(c, file).Ok?
    ensures ReadConversation(ProfileOf(c), file).Ok?
  {
  }

  lemma {:induction false} ChatPlanOfRead(c: Chat, file: string)
    requires ReadConversation(ProfileOf(c), file).Err?
    ensures ChatPlan(c, file) == Err(ReadConversation(ProfileOf(c), file).error)
  {
  }

  /** A conversation whose sections do not pair up is refused with that
      error, before the guard on the last section. */
  lemma {:induction false} ReadRefused(p: Profile, file: string)
    requires ParsePromptFile(p, file).Ok?
    requires ParseSections(ParsePromptFile(p, file).value.conversation).Err?
    ensures ReadConversation(p, file)
      == Err(ParseSections(ParsePromptFile(p, file).value.conversation).error)
  {
  }

  lemma {:induction false} RerunConversation(p: Profile, file: string, reply: string, meta: string)
    requires ParsePromptFile(p, file).Ok?
    requires ParseSections(ParsePromptFile(p, file).value.conversation).Ok?
    requires Trimmed(reply) && reply != "" && MarkerFree(reply)
    requires IsStatsLine(meta)
    ensures ParsePromptFile(p, file + (AppendBlock(reply, meta) + "")).Ok?
    ensures ParseSections(ParsePromptFile(p, file + (AppendBlock(reply, meta) + "")).value.conversation)
      == Err(MismatchedSections)
  {
    var tail := AppendBlock(reply, meta) + "";
    DocumentAppended(p, file, tail);
    var rest := SplitDocument(file).value.1;
    PlainIff(reply);
    assert IsBlank("");
    ParseSectionsStrip(rest);
    ParseSectionsStrip(rest + tail);
    RoundTripNeedsHuman(rest, reply, meta, "");
  }

  /** What the llama script has computed when it is about to load the
      model: its configuration, the sections, the context string, and the
      model path. */
  datatype LlamaPlan = LlamaPlan(config: Config, sections: seq<Section>, context: string, model: Value)

  /** The llama script checks the `model` key before its dry-run exit, so a
      dry run fails without one, unlike the chat scripts. */
  function PlanLlama(file: string): (r: Result<LlamaPlan>)
    ensures r.Ok? ==> CheckLastHuman(r.value.sections).Ok? && "model" in r.value.config
    ensures r.Ok? ==> r.value.context == BuildContext(r.value.sections)
  {
    var conv :- ReadConversation(LlamaProfile, file);
    var context := BuildContext(conv.sections);
    var model :- RequireModel(conv.config);
    Ok(LlamaPlan(conv.config, conv.sections, context, model))
  }

  /** Inputs of a llama run: the generated text (`None` when loading or
      generation raised), the clock and the timer. */
  datatype LlamaWorld = LlamaWorld(generated: Option<string>, timestamp: string, seconds: string)

  function LlamaTurn(file: string, dryRun: bool, w: LlamaWorld): (r: Result<string>)
    ensures r.Ok? ==> StartsWith(r.value, file)
    ensures dryRun ==> (r.Ok? <==> PlanLlama(file).Ok?) && (r.Ok? ==> r.value == file)
    ensures r.Ok? && !dryRun ==> w.generated.Some?
  {
    var plan :- PlanLlama(file);
    if dryRun then Ok(file)
    else
      match w.generated
      case None => Err(GenerationFailed)
      case Some(text) =>
        var block := AppendBlock(CleanLlamaReply(text), MetadataLine(w.timestamp, w.seconds, None));
        assert (file + block)[..|file|] == file;
        Ok(file + block)
  }

  lemma LlamaTurnAppends(file: string, w: LlamaWorld)
    requires LlamaTurn(file, false, w).Ok?
    ensures w.generated.Some?
    ensures LlamaTurn(file, false, w).value
      == file + AppendBlock(CleanLlamaReply(w.generated.value), MetadataLine(w.timestamp, w.seconds, None))
  {
  }

  /** The round trip through the llama script: the next run's context lists
      the old turns, then the cleaned reply and the new human text, then
      the `Assistant:` cue. */
  lemma {:induction false} LlamaRoundTrip(file: string, w: LlamaWorld, human: string)
    requires LlamaTurn(file, false, w).Ok?
    requires w.generated.Some?
    requires NoDashRun(w.timestamp) && '\n' !in w.timestamp && NoDashRun(w.seconds) && '\n' !in w.seconds
    requires CleanLlamaReply(w.generated.value) != "" && MarkerFree(CleanLlamaReply(w.generated.value))
    requires MarkerFree(human) && !IsBlank(human)
    ensures PlanLlama(LlamaTurn(file, false, w).value + human).Ok?
    ensures PlanLlama(LlamaTurn(file, false, w).value + human).value.config == PlanLlama(file).value.config
    ensures PlanLlama(LlamaTurn(file, false, w).value + human).value.context
      == Join(ContextParts(PlanLlama(file).value.sections)
              + ["Assistant: " + CleanLlamaReply(w.generated.value), "Human: " + Strip(human)]
              + ["Assistant:"], "\n\n")
  {
    var reply, meta := CleanLlamaReply(w.generated.value), MetadataLine(w.timestamp, w.seconds, None);
    LlamaTurnAppends(file, w);
    Assoc(file, AppendBlock(reply, meta), human);
    MetadataLineIsStats(w.timestamp, w.seconds, None);
    LlamaPlanAppended(file, reply, meta, human);
  }

  lemma {:induction false} LlamaPlanAppended(file: string, reply: string, meta: string, human: string)
    requires PlanLlama(file).Ok?
    requires Trimmed(reply) && AllClean(reply) && reply != "" && MarkerFree(reply)
    requires IsStatsLine(meta)
    requires MarkerFree(human) && !IsBlank(human)
    ensures PlanLlama(file + (AppendBlock(reply, meta) + human)).Ok?
    ensures PlanLlama(file + (AppendBlock(reply, meta) + human)).value.config == PlanLlama(file).value.config
    ensures PlanLlama(file + (AppendBlock(reply, meta) + human)).value.context
      == Join(ContextParts(PlanLlama(file).value.sections)
              + ["Assistant: " + reply, "Human: " + Strip(human)]
              + ["Assistant:"], "\n\n")
  {
    var secs := PlanLlama(file).value.sections;
    var file' := file + (AppendBlock(reply, meta) + human);
    LlamaPlanRead(file);
    ReadAppended(LlamaProfile, file, reply, meta, human);
    LlamaPlanOfRead(file', PlanLlama(file).value.config, secs + Added(reply, meta, human));
    ContextAppended(secs, reply, meta, human);
  }

  lemma {:induction false} LlamaPlanRead(file: string)
    requires PlanLlama(file).Ok?
    ensures ReadConversation(LlamaProfile, file)
      == Ok(Conversation(PlanLlama(file).value.config, PlanLlama(file).value.sections))
  {
  }

  lemma {:induction false} LlamaPlanOfRead(file: string, cfg: Config, secs: seq<Section>)
    requires ReadConversation(LlamaProfile, file) == Ok(Conversation(cfg, secs))
    requires "model" in cfg
    ensures PlanLlama(file) == Ok(LlamaPlan(cfg, secs, BuildContext(secs), cfg["model"]))
  {
  }

  /** The context parts gain the reply and the new human text. */
  lemma {:induction false} ContextAppended(secs: seq<Section>, reply: string, meta: string, human: string)
    requires IsStatsLine(meta)
    requires Trimmed(reply) && AllClean(reply) && reply != ""
    ensures ContextParts(secs + Added(reply, meta, human))
      == ContextParts(secs) + ["Assistant: " + reply, "Human: " + Strip(human)]
  {
    var m1, m2 := Message(Assistant, reply), Message(User, Strip(human));
    ContextMatchesMessages(secs + Added(reply, meta, human));
    ContextMatchesMessages(secs);
    MessagesAppended(secs, reply, meta, human);
    RenderAllConcat(BuildMessages(secs), [m1, m2]);
    RenderTwo(m1, m2);
  }

  lemma {:induction false} RenderTwo(a: Message, b: Message)
    ensures RenderAll([a, b]) == [Render(a), Render(b)]
  {
    var ms := [a, b];
    assert ms[0] == a && ms[1..] == [b];
    assert [b][1..] == [];
  }
}
