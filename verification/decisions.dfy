/** The small decision rules of the three conversation scripts: the guard
    before generation, the choice of server model, and how the configured
    `max_tokens` reaches each backend's request. */
module Decisions {
  import opened Outcomes
  import opened Text
  import opened Sections
  import opened Messages
  import opened PromptFile
  import opened Numerals

  /** Generation needs a conversation whose last section is human. */
  function CheckLastHuman(secs: seq<Section>): (r: Result<()>)
    ensures r.Ok? <==> |secs| > 0 && secs[|secs| - 1].kind == Human
    ensures r.Err? ==> r.error == (if |secs| == 0 then NoSections else LastNotHuman)
  {
    if |secs| == 0 then Err(NoSections)
    else if secs[|secs| - 1].kind != Human then Err(LastNotHuman)
    else Ok(())
  }

  /** Past the guard, the messages end with the user's latest text. */
  lemma {:induction false} LastMessageIsUser(secs: seq<Section>)
    requires CheckLastHuman(secs).Ok?
    ensures |BuildMessages(secs)| > 0
    ensures BuildMessages(secs)[|BuildMessages(secs)| - 1] == Message(User, secs[|secs| - 1].content)
  {
    var n := |secs|;
    assert secs == secs[..n - 1] + [secs[n - 1]];
    BuildMessagesConcat(secs[..n - 1], [secs[n - 1]]);
    assert [secs[n - 1]][1..] == [];
  }

  /** A conversation that ends with an AI section is refused, whatever
      came before it. */
  lemma AiLastRefused(secs: seq<Section>, content: string)
    ensures CheckLastHuman(secs + [Section(Ai, content)]) == Err(LastNotHuman)
  {
  }

  /** What the server answered when asked for its model list. */
  datatype Connection = Unreachable | Reachable(models: seq<string>)

  /** `validate_model_name`: the configured model when the server lists it,
      else the first listed model, else nothing. */
  function SelectModel(conn: Connection, wanted: string): (r: Option<string>)
    ensures r.Some? ==> conn.Reachable? && r.value in conn.models
    ensures r.None? <==> conn.Unreachable? || |conn.models| == 0
  {
    match conn
    case Unreachable => None
    case Reachable(models) =>
      if wanted in models then Some(wanted)
      else if |models| > 0 then Some(models[0])
      else None
  }

  /** The fallback order, as an independent statement: the wanted name
      whenever it is listed, otherwise the first listed name. */
  lemma SelectModelPrefers(models: seq<string>, wanted: string)
    ensures wanted in models ==> SelectModel(Reachable(models), wanted) == Some(wanted)
    ensures wanted !in models && |models| > 0 ==> SelectModel(Reachable(models), wanted) == Some(models[0])
    ensures SelectModel(Unreachable, wanted) == None
  {
  }

  /** `if not validated_model`: no selection, or an empty name, stops the
      script. */
  function AcceptModel(choice: Option<string>): (r: Result<string>)
    ensures r.Ok? <==> choice.Some? && choice.value != ""
    ensures r.Ok? ==> r.value == choice.value
    ensures r.Err? ==> r.error == ModelUnavailable
  {
    match choice
    case Some(name) => if name == "" then Err(ModelUnavailable) else Ok(name)
    case None => Err(ModelUnavailable)
  }

  function ChooseModel(conn: Connection, wanted: string): Result<string> {
    AcceptModel(SelectModel(conn, wanted))
  }

  /** The model a run ends up using is one the server listed, and it is the
      configured one whenever that was listed. */
  lemma ChooseModelListed(conn: Connection, wanted: string)
    ensures ChooseModel(conn, wanted).Ok? ==>
      conn.Reachable? && ChooseModel(conn, wanted).value in conn.models
    ensures conn.Reachable? && wanted in conn.models && wanted != "" ==>
      ChooseModel(conn, wanted) == Ok(wanted)
  {
  }

  /** The configuration after validation: `model_name` holds the chosen
      model, every other key is untouched. */
  function UseModel(cfg: Config, name: string): (r: Config)
    ensures r.Keys == cfg.Keys + {"model_name"}
    ensures r["model_name"] == StrVal(name)
    ensures forall k :: k in cfg && k != "model_name" ==> r[k] == cfg[k]
  {
    cfg["model_name" := StrVal(name)]
  }

  /** The text of a string-valued key; `""` for any other value. */
  function TextOf(cfg: Config, key: string): string {
    if key in cfg && cfg[key].StrVal? then cfg[key].text else ""
  }

  /** A key that is neither integer- nor number-typed and has a text default
      holds text after parsing: the last header entry for it, or else the
      default. */
  lemma TextKeyStaysText(p: Profile, header: string, key: string)
    requires key !in p.intKeys && !IsNumberKey(key)
    requires key in p.defaults && p.defaults[key].StrVal?
    requires ParseHeader(p, header).Ok?
    ensures key in ParseHeader(p, header).value
    ensures TextOf(ParseHeader(p, header).value, key) ==
      match LastValue(HeaderEntries(header), key)
      case Some(t) => t
      case None => p.defaults[key].text
  {
    HeaderAt(p, header, key);
  }

  /** The `options` object of the ollama request: `num_predict` is sent
      exactly when `max_tokens` is not `None`. */
  function OllamaOptions(cfg: Config): (r: map<string, Value>)
    requires "temperature" in cfg && "top_p" in cfg && "max_tokens" in cfg
    ensures "num_predict" in r <==> !cfg["max_tokens"].NoneVal?
    ensures "num_predict" in r ==> r["num_predict"] == cfg["max_tokens"]
    ensures "temperature" in r && r["temperature"] == cfg["temperature"]
    ensures "top_p" in r && r["top_p"] == cfg["top_p"]
  {
    var base := map["temperature" := cfg["temperature"], "top_p" := cfg["top_p"]];
    if cfg["max_tokens"].NoneVal? then base else base["num_predict" := cfg["max_tokens"]]
  }

  /** The request parameters of the docker script. */
  datatype ApiParams = ApiParams(
    model: string, messages: seq<Message>, temperature: Value, topP: Value,
    stream: bool, maxTokens: Option<Value>)

  function DockerParams(cfg: Config, model: string, messages: seq<Message>, stream: bool): (r: ApiParams)
    requires "temperature" in cfg && "top_p" in cfg && "max_tokens" in cfg
    ensures r.maxTokens.Some? <==> !cfg["max_tokens"].NoneVal?
    ensures r.maxTokens.Some? ==> r.maxTokens.value == cfg["max_tokens"]
    ensures r.model == model && r.messages == messages
  {
    ApiParams(model, messages, cfg["temperature"], cfg["top_p"], stream,
      if cfg["max_tokens"].NoneVal? then None else Some(cfg["max_tokens"]))
  }

  /** A profile whose `max_tokens` is integer-typed with default 256, and
      which has defaults for the sampling keys: all three scripts'. */
  predicate LimitKeys(p: Profile) {
    && "max_tokens" in p.intKeys
    && "temperature" in p.defaults && "top_p" in p.defaults && "max_tokens" in p.defaults
    && p.defaults["max_tokens"] == IntVal(256)
  }

  lemma ProfilesHaveLimit()
    ensures LimitKeys(OllamaProfile) && LimitKeys(DockerProfile) && LimitKeys(LlamaProfile)
    ensures "model" !in LlamaProfile.defaults && "model" !in LlamaProfile.intKeys
  {
  }

  /** An integer key reads `None` exactly for the word `none`. */
  lemma ConvertNoneWord(p: Profile, key: string, t: string)
    requires key in p.intKeys && Convert(p, key, t).Ok?
    ensures Convert(p, key, t).value.NoneVal? <==> IsNoneWord(t)
  {
  }

  /** The configured limit after parsing: the default 256 without a header
      line, `None` exactly for a `none` line. */
  lemma {:induction false} LimitFromHeader(p: Profile, header: string)
    requires LimitKeys(p) && ParseHeader(p, header).Ok?
    ensures var cfg := ParseHeader(p, header).value;
      && "temperature" in cfg && "top_p" in cfg && "max_tokens" in cfg
      && match LastValue(HeaderEntries(header), "max_tokens")
         case None => cfg["max_tokens"] == IntVal(256)
         case Some(t) => cfg["max_tokens"].NoneVal? <==> IsNoneWord(t)
  {
    HeaderAt(p, header, "temperature");
    HeaderAt(p, header, "top_p");
    HeaderAt(p, header, "max_tokens");
    match LastValue(HeaderEntries(header), "max_tokens")
    case None =>
    case Some(t) =>
      ConvertNoneWord(p, "max_tokens", t);
  }

  /** From header to request: a `max_tokens: none` line (any letter case)
      leaves the limit out of the ollama and docker requests; any other
      line sends it; no line sends the default 256. */
  lemma {:induction false} MaxTokensFromHeader(p: Profile, header: string)
    requires LimitKeys(p) && ParseHeader(p, header).Ok?
    ensures var cfg := ParseHeader(p, header).value;
      && "temperature" in cfg && "top_p" in cfg && "max_tokens" in cfg
      && match LastValue(HeaderEntries(header), "max_tokens")
         case None =>
           && "num_predict" in OllamaOptions(cfg)
           && OllamaOptions(cfg)["num_predict"] == IntVal(256)
           && DockerParams(cfg, "", [], false).maxTokens == Some(IntVal(256))
         case Some(t) =>
           && ("num_predict" in OllamaOptions(cfg) <==> !IsNoneWord(t))
           && (DockerParams(cfg, "", [], false).maxTokens.Some? <==> !IsNoneWord(t))
  {
    LimitFromHeader(p, header);
  }

  /** The llama script requires a `model` key. */
  function RequireModel(cfg: Config): (r: Result<Value>)
    ensures r.Ok? <==> "model" in cfg
    ensures r.Ok? ==> r.value == cfg["model"]
    ensures r.Err? ==> r.error == MissingModel
  {
    if "model" in cfg then Ok(cfg["model"]) else Err(MissingModel)
  }

  /** With no default model, the header must name one, and the model path
      is then the header's text for it. */
  lemma ModelFromHeader(p: Profile, header: string)
    requires "model" !in p.defaults && "model" !in p.intKeys
    requires ParseHeader(p, header).Ok?
    ensures RequireModel(ParseHeader(p, header).value).Ok?
      <==> LastValue(HeaderEntries(header), "model").Some?
    ensures RequireModel(ParseHeader(p, header).value).Ok? ==>
      RequireModel(ParseHeader(p, header).value).value
        == StrVal(LastValue(HeaderEntries(header), "model").value)
  {
    HeaderAt(p, header, "model");
  }

  /** The llama script's instance: its profile has no default model. */
  lemma LlamaModelFromHeader(header: string)
    requires ParseHeader(LlamaProfile, header).Ok?
    ensures RequireModel(ParseHeader(LlamaProfile, header).value).Ok?
      <==> LastValue(HeaderEntries(header), "model").Some?
  {
    ProfilesHaveLimit();
    ModelFromHeader(LlamaProfile, header);
  }

  /** llama-cpp's "no limit" is `-1`. */
  function LlamaMaxTokens(v: Value): (r: Value)
    ensures v.NoneVal? ==> r == IntVal(-1)
    ensures !v.NoneVal? ==> r == v
  {
    if v.NoneVal? then IntVal(-1) else v
  }

  /** The llama script always sends an integer limit: the header's integer,
      `-1` for `none`, or the default 256. */
  lemma {:induction false} LlamaLimitFromHeader(p: Profile, header: string)
    requires LimitKeys(p) && ParseHeader(p, header).Ok?
    ensures "max_tokens" in ParseHeader(p, header).value
    ensures LlamaMaxTokens(ParseHeader(p, header).value["max_tokens"]).IntVal?
    ensures LastValue(HeaderEntries(header), "max_tokens").None? ==>
      LlamaMaxTokens(ParseHeader(p, header).value["max_tokens"]) == IntVal(256)
    ensures (LastValue(HeaderEntries(header), "max_tokens").Some? &&
      IsNoneWord(LastValue(HeaderEntries(header), "max_tokens").value)) ==>
      LlamaMaxTokens(ParseHeader(p, header).value["max_tokens"]) == IntVal(-1)
  {
    IntKeyStaysInteger(p, header, "max_tokens");
    LimitFromHeader(p, header);
  }

  /** Text that stops llama-cpp generation. */
  const StopWords: seq<string> := ["Human:", HumanMarker, AiMarker, MetadataPrefix]

  /** The llama script's generation parameters. */
  datatype LlamaParams = LlamaParams(
    temperature: Value, topP: Value, echo: bool, stop: seq<string>, maxTokens: Value)

  function LlamaRequest(cfg: Config): (r: LlamaParams)
    requires "temperature" in cfg && "top_p" in cfg && "max_tokens" in cfg
    ensures !r.echo && r.maxTokens.IntVal? == (cfg["max_tokens"].IntVal? || cfg["max_tokens"].NoneVal?)
    ensures HumanMarker in r.stop && AiMarker in r.stop && MetadataPrefix in r.stop
  {
    LlamaParams(cfg["temperature"], cfg["top_p"], false, StopWords, LlamaMaxTokens(cfg["max_tokens"]))
  }

  /** `config.get('timeout', 180)`: the ollama request timeout, `None`
      meaning no limit. */
  function RequestTimeout(cfg: Config): (r: Value)
    ensures "timeout" !in cfg ==> r == IntVal(180)
    ensures "timeout" in cfg ==> r == cfg["timeout"]
  {
    if "timeout" in cfg then cfg["timeout"] else IntVal(180)
  }

  /** The ollama timeout is always an integer or `None` once parsed. */
  lemma OllamaTimeoutTyped(header: string)
    requires ParseHeader(OllamaProfile, header).Ok?
    ensures RequestTimeout(ParseHeader(OllamaProfile, header).value).IntVal?
      || RequestTimeout(ParseHeader(OllamaProfile, header).value).NoneVal?
  {
    IntKeyStaysInteger(OllamaProfile, header, "timeout");
  }

  /** From header to request timeout: 180 seconds without a `timeout`
      line, `None` (no limit) exactly for a `timeout: none` line, and
      otherwise the integer the line spells. */
  lemma {:induction false} OllamaTimeoutFromHeader(header: string)
    requires ParseHeader(OllamaProfile, header).Ok?
    ensures var cfg := ParseHeader(OllamaProfile, header).value;
      && "timeout" in cfg
      && match LastValue(HeaderEntries(header), "timeout")
         case None => RequestTimeout(cfg) == IntVal(180)
         case Some(t) =>
           && (RequestTimeout(cfg).NoneVal? <==> IsNoneWord(t))
           && (!IsNoneWord(t) ==> ParseInt(t).Some? && RequestTimeout(cfg) == IntVal(ParseInt(t).value))
  {
    HeaderAt(OllamaProfile, header, "timeout");
    match LastValue(HeaderEntries(header), "timeout")
    case None =>
    case Some(t) =>
      ConvertNoneWord(OllamaProfile, "timeout", t);
  }
}
