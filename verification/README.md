# llama-conversation, modelled in Dafny

The repository keeps a conversation with a language model in a plain
`.prompt` file. A header of `key: value` lines comes first, then a `---`
separator, then the conversation itself. The conversation is a run of
sections, each introduced by a `---HUMAN---` or `---AI---` marker. Three
scripts continue such a conversation:

- `ollama-conversation.py` talks to an Ollama server;
- `llama-conversation-docker.py` talks to an OpenAI-compatible server;
- `llama-conversation.py` runs a local model file.

Each script reads the file and refuses it unless its last section is a human
turn. It then builds the messages or the context string the backend expects,
asks for a reply and cleans it. Finally it appends an AI section, with a
`# Generated:` statistics line, followed by a fresh `---HUMAN---` marker for
the user's next message. `llama-prompt-monitor.py` watches a directory for
`*.prompt` files. It runs a conversation script on each file whose size is
stable and renames the file to `.complete` or `.error` once the run is over.

The model is a set of pure functions over strings (`seq<char>`):

| file | module | what it holds |
|---|---|---|
| `outcomes.dfy` | `Outcomes` | `Option`, `Result` and the error each `sys.exit(1)` path stands for |
| `text.dfy` | `Text` | Python's `strip` (with the `str.isspace` set), `in`, `find`, `split('\n')` and `'\n'.join` |
| `numerals.dfy` | `Numerals` | what `int(...)` and `float(...)` accept on a stripped value |
| `promptfile.dfy` | `PromptFile` | `parse_prompt_file`: the separator, the header lines, the defaults and the typing of values for each of the three scripts |
| `sections.dfy` | `Sections` | `parse_conversation_sections`: the leftmost scan behind `re.split` / `re.findall`, blank segments dropped, positional pairing |
| `messages.dfy` | `Messages` | timestamp-line filtering, `build_ollama_messages` / `build_openai_messages`, `build_context_string` |
| `reply.dfy` | `Reply` | reply cleaning, the statistics line, the block `append_response_to_file` writes |
| `decisions.dfy` | `Decisions` | the last-turn guard, model validation, request parameters, the timeout |
| `roundtrip.dfy` | `RoundTrip` | appending a reply, then a human message, and parsing the file again |
| `scripts.dfy` | `Scripts` | one run of each script as a function from the file (and the outside world) to the new file |
| `monitor.dfy` | `Monitor` | discovery, stability, renaming and one sweep of the monitor |

The central result is the round trip (`RoundTrip.RoundTrip`,
`Scripts.ChatRoundTrip`, `Scripts.LlamaRoundTrip`). Suppose a run appends a
reply and the user then types a non-blank message below the new human
marker. The next run then parses the same configuration. It sees the old
messages, then the cleaned reply as an assistant message, then the new user
message. The statistics line never leaks into the messages. The side
conditions are that neither the reply nor the message contains a marker, and
that the reply is not empty after cleaning.

The outside world enters as parameters:

- the server's model list (`Decisions.Connection`);
- the backend's answer, or its absence when the request raised;
- the timestamp and the duration texts;
- for the monitor, one `Observation` per file name: the two size samples,
  how the child process ended, what the file holds once the child has
  exited, and whether the rename succeeded.

Text before the first marker is not discarded. Markers pair positionally
with the non-blank segments, so such text makes the counts mismatch, or it
shifts every section's content by one (`Sections.ParseSectionsOk`).

## Model

| member | source | states |
|---|---|---|
| Text.StripParts | ollama-conversation.py:50 | `strip()` removes only whitespace, and only from the two ends: the input is blank + result + blank |
| Text.StripUnique | ollama-conversation.py:50 | any split of a string into blank + trimmed core + blank yields that core as the stripped text |
| Text.StripIdempotent | ollama-conversation.py:77 | stripping twice is stripping once |
| Text.StripEmptyIff | ollama-conversation.py:77 | `s.strip()` is empty exactly when `s` is all whitespace, the test that drops a segment |
| Text.Find | ollama-conversation.py:33-37 | the first occurrence of a pattern, and none exactly when `p in s` is false |
| Text.JoinSplit | ollama-conversation.py:107-115 | joining the lines of `split('\n')` with newlines restores the text |
| Text.SplitJoin | ollama-conversation.py:107-115 | splitting newline-free lines joined with newlines restores the lines |
| Numerals.ParseIntOfDecimal | ollama-conversation.py:61-62 | `int()` reads back every integer's decimal text |
| Numerals.IntLiteralIsFloatLiteral | ollama-conversation.py:63-64 | every text `int()` accepts is also accepted by `float()` |
| PromptFile.ParseLine | ollama-conversation.py:49-58 | a header line is ignored exactly when its stripped text is empty, has no `:` or starts with `#`; otherwise key and value are trimmed, the key has no `:`, the value no `#` |
| PromptFile.CutCommentSplit | ollama-conversation.py:57-58 | an inline comment is cut at the first `#`: the value is the stripped text before it |
| PromptFile.CutCommentNone | ollama-conversation.py:57-58 | a value without `#` is kept, stripped |
| PromptFile.ParseLineSplit | ollama-conversation.py:49-58 | a line split at its first `:` has the stripped text before it as key and the cut, stripped text after it as value, whatever blanks surround them |
| PromptFile.ParseCommentedLine | ollama-conversation.py:49-58 | `key : value # comment`, blanks anywhere, parses to the stripped key and the stripped value without the comment |
| PromptFile.ParsePlainLine | ollama-conversation.py:49-58 | `key : value` without `#` parses to the stripped key and the stripped value |
| PromptFile.ParseLineOfEntry | ollama-conversation.py:49-58 | writing `key: value` and parsing the line gives back the key and the value |
| PromptFile.SplitDocument | ollama-conversation.py:33-37 | no separator exactly when `---` does not occur; otherwise the file is header + `---` + rest, split at the first `---`: no occurrence starts inside the header |
| PromptFile.ParsePromptFile | ollama-conversation.py:23-68 | a missing separator is an error; else a bad header value is an error; else the header's configuration and the stripped conversation text |
| PromptFile.SplitDocumentExtended | ollama-conversation.py:37 | appending to the file only extends the conversation part |
| PromptFile.ApplyEntriesOk | ollama-conversation.py:49-66 | the header parses exactly when every entry's value converts for its key |
| PromptFile.HeaderAt | ollama-conversation.py:40-66 | a key is configured exactly when it has a default or a header entry; the last entry wins, converted by the key's type; otherwise the default stays |
| PromptFile.IntKeyStaysInteger | ollama-conversation.py:61-62 | after parsing, an integer-typed key with an integer default holds an integer or `None` |
| PromptFile.ConvertIntKey | ollama-conversation.py:61-62 | an integer-typed key converts only to an integer or `None` |
| PromptFile.ConvertIntegerKeys | llama-conversation-docker.py:63-68 | integer keys read back any integer, and read `None` exactly for `none` in any letter case; the docker script keeps `timeout` as text |
| PromptFile.OtherKeyIsText | ollama-conversation.py:65-66 | an untyped key holds the verbatim text of its last header entry |
| PromptFile.MaxTokensTyped | ollama-conversation.py:40-62 | in all three scripts `max_tokens` is always present and is an integer or `None` |
| Sections.PlainIff | ollama-conversation.py:75-81 | the scan finds no marker exactly when neither marker text occurs |
| Sections.LexAppend | ollama-conversation.py:75-81 | the scan of two texts joined where no marker can straddle the join is the two scans glued |
| Sections.NonBlankTrimmed | ollama-conversation.py:77 | every kept segment is stripped and non-empty |
| Sections.NonBlankCount | ollama-conversation.py:77 | the kept segments and the dropped blank ones together are all segments |
| Sections.ParseSections | ollama-conversation.py:71-93 | one section per marker, in order, with the marker's kind and stripped, non-empty content |
| Sections.ParseSectionsOk | ollama-conversation.py:83-85 | parsing succeeds exactly when exactly one segment is blank, and contents are the non-blank segments paired positionally |
| Sections.NoMarkers | ollama-conversation.py:83-85 | text with no marker parses to no sections when blank and is a mismatch otherwise |
| Sections.ParseSectionsStrip | ollama-conversation.py:68 | stripping the conversation text before parsing changes nothing |
| Messages.KeepClean | ollama-conversation.py:107-113 | no kept line is a timestamp line |
| Messages.KeepAll | ollama-conversation.py:107-113 | a list without timestamp lines is kept whole |
| Messages.KeepDropsMetadata | ollama-conversation.py:111-112 | a timestamp line is always dropped |
| Messages.StripMetadata | ollama-conversation.py:106-115 | cleaned AI content is stripped and has no timestamp line |
| Messages.StripMetadataNoMetadata | ollama-conversation.py:106-115 | content without timestamp lines is only stripped |
| Messages.StripMetadataIdempotent | ollama-conversation.py:106-115 | cleaning twice is cleaning once |
| Messages.MetadataOnlyIsEmpty | ollama-conversation.py:114-116 | an AI section that is a single timestamp line cleans to nothing |
| Messages.BuildMessages | ollama-conversation.py:96-122 | at most one message per section; every assistant message is non-empty, stripped and free of timestamp lines |
| Messages.UsersAreHumans | ollama-conversation.py:101-103 | the user messages are exactly the human sections' contents, in order |
| Messages.BuildMessagesConcat | ollama-conversation.py:96-122 | the messages of a concatenation are the concatenated messages |
| Messages.ContextMatchesMessages | llama-conversation.py:97-120 | the llama context parts are the chat messages rendered as `Human:` / `Assistant:` lines |
| Messages.BuildContext | llama-conversation.py:117-120 | the context always ends with the bare `Assistant:` cue, and is only that cue for no sections |
| Reply.CleanReply | ollama-conversation.py:492-501 | a cleaned reply is stripped and has no timestamp line |
| Reply.CleanReplyIdempotent | ollama-conversation.py:492-501 | cleaning a cleaned reply changes nothing |
| Reply.CleanReplyOfClean | ollama-conversation.py:492-501 | a reply without timestamp lines is only stripped |
| Reply.CleanLlamaReply | llama-conversation.py:265-279 | the llama script's cleaned reply is stripped and has no timestamp line |
| Reply.LlamaWithoutPrefix | llama-conversation.py:268-269 | without an `Assistant:` prefix the llama cleaning is the chat cleaning |
| Reply.LlamaDropsPrefix | llama-conversation.py:268-269 | a leading `Assistant:` is removed before cleaning |
| Reply.TokenCounts | ollama-conversation.py:482-486 | a missing counter counts as zero, and the total is the sum of the other two |
| Reply.TokenClause | ollama-conversation.py:131-132 | the token clause is empty exactly when there is no token information |
| Reply.MetadataLine | ollama-conversation.py:130-133 | the statistics line starts with `# Generated:` and without token information is just the time part |
| Reply.MetadataLineIsStats | ollama-conversation.py:130-133 | the statistics line is one trimmed line, starts with `# Generated:` and cannot contain a marker |
| Reply.AppendBlock | ollama-conversation.py:135-139 | the appended block opens an AI section and ends with an open human marker |
| Reply.StatsThenReply | ollama-conversation.py:136-138 | the AI section written by the appender cleans back to the reply |
| Decisions.CheckLastHuman | ollama-conversation.py:355-362 | accepted exactly when there are sections and the last is human; the error tells which check failed |
| Decisions.LastMessageIsUser | ollama-conversation.py:359-365 | after the guard the last message is the user's, holding the last human section |
| Decisions.AiLastRefused | ollama-conversation.py:360-362 | a conversation ending in an AI section is refused |
| Decisions.SelectModel | ollama-conversation.py:209-230 | a model is chosen only from a reachable server's list; none exactly when unreachable or the list is empty |
| Decisions.SelectModelPrefers | ollama-conversation.py:209-230 | the configured model when listed, else the first listed one |
| Decisions.AcceptModel | ollama-conversation.py:382-384 | a missing or empty choice ends the run |
| Decisions.ChooseModelListed | ollama-conversation.py:382-388 | the model used is listed by the server, and is the configured one whenever that is listed |
| Decisions.UseModel | ollama-conversation.py:387-388 | the validated name replaces `model_name` and nothing else changes |
| Decisions.TextKeyStaysText | ollama-conversation.py:40-66 | a text key holds its last header value, or its default |
| Decisions.OllamaOptions | ollama-conversation.py:237-249 | `num_predict` is sent exactly when `max_tokens` is not `None`, with its value; temperature and top_p pass through |
| Decisions.DockerParams | llama-conversation-docker.py:297-307 | `max_tokens` is sent exactly when it is not `None`; model and messages pass through |
| Decisions.ProfilesHaveLimit | llama-conversation.py:42-48 | all three scripts default `max_tokens` to 256 and the llama script has no default model |
| Decisions.ConvertNoneWord | ollama-conversation.py:62 | an integer key becomes `None` exactly for the word `none` in any case |
| Decisions.LimitFromHeader | ollama-conversation.py:40-62 | `max_tokens` is 256 without a header entry, and `None` exactly when its last entry is `none` |
| Decisions.MaxTokensFromHeader | ollama-conversation.py:247-249 | the token limit is sent as 256 without a header entry, and omitted exactly when the last entry is `none` |
| Decisions.RequireModel | llama-conversation.py:201-203 | the run continues exactly when `model` is configured, with its value |
| Decisions.ModelFromHeader | llama-conversation.py:201-203 | without a default, `model` is configured exactly when the header names one, and holds that text |
| Decisions.LlamaModelFromHeader | llama-conversation.py:201-203 | the llama script finds a model exactly when the header names one |
| Decisions.LlamaMaxTokens | llama-conversation.py:253-257 | `None` becomes -1 and any other value is passed unchanged |
| Decisions.LlamaLimitFromHeader | llama-conversation.py:253-257 | the llama limit is always an integer: 256 without a header entry, -1 for `none` |
| Decisions.LlamaRequest | llama-conversation.py:246-257 | no echo, an integer limit, and both markers and the timestamp prefix among the stop words |
| Decisions.OllamaTimeoutFromHeader | ollama-conversation.py:257 | the request timeout is 180 without a `timeout` line, `None` (no limit) exactly when the last such line is `none`, and otherwise the integer that line spells |
| Decisions.OllamaTimeoutTyped | ollama-conversation.py:46-62 | in the ollama script the timeout is always an integer or `None` |
| RoundTrip.LexBlock | ollama-conversation.py:135-139 | the scan of an appended block is one AI and one human marker, with the statistics line and the reply between them |
| RoundTrip.ScanAppended | ollama-conversation.py:135-139 | appending adds the two markers and the two new non-blank segments after the old ones |
| RoundTrip.ConversationAppended | ollama-conversation.py:135-139 | the extended conversation parses exactly when the old one did, to the old sections plus the new AI and human ones |
| RoundTrip.RoundTripNeedsHuman | ollama-conversation.py:139 | with no human text typed after the new marker, the file is a mismatch |
| RoundTrip.MessagesAppended | ollama-conversation.py:96-122 | the new sections add exactly the reply as an assistant message and the human text as a user message |
| RoundTrip.DocumentAppended | ollama-conversation.py:33-68 | appending keeps the configuration and extends the conversation text |
| RoundTrip.FileAppended | ollama-conversation.py:23-93 | the extended file has the same configuration, and its sections are the old ones plus the new two |
| RoundTrip.RoundTrip | ollama-conversation.py:125-139 | after append and a typed human message, the messages are the old ones plus the cleaned reply and the new user message, under the same configuration |
| Scripts.ReadConversation | ollama-conversation.py:346-362 | a conversation that is read successfully ends with a human section |
| Scripts.ChatPlan | ollama-conversation.py:346-365 | the planned messages are those built from the guarded sections |
| Scripts.TokensOf | ollama-conversation.py:441-487 | the docker script never reports tokens; reported totals are the sum of their parts |
| Scripts.ChatTurn | ollama-conversation.py:346-508 | a run only appends; a dry run succeeds exactly when the file is acceptable and writes nothing; a write needs a validated model and an answer |
| Scripts.ChatRefusesWithoutHumanTurn | ollama-conversation.py:355-362 | a file without a final human turn is refused with that error, dry run or not, whatever the server does |
| Scripts.ChatTurnAppends | ollama-conversation.py:492-508 | a run appends the block for the cleaned reply and its statistics line |
| Scripts.ChatRoundTrip | ollama-conversation.py:125-139 | after a run and a typed human message, the next run has the same configuration and two more messages |
| Scripts.PlanAppended | ollama-conversation.py:365 | an appended block and message extend the plan's sections and messages by the new two |
| Scripts.ReadAppended | ollama-conversation.py:346-362 | the extended file reads as the same configuration and the old sections plus the new two |
| Scripts.ChatRerunRefused | ollama-conversation.py:77-85 | running again on the output before anything is typed is a section mismatch |
| Scripts.PlanLlama | llama-conversation.py:183-203 | a llama plan has a final human turn, a configured model and the context of its sections |
| Scripts.LlamaTurn | llama-conversation.py:183-286 | a run only appends; a dry run needs a configured model and writes nothing; a write needs generated text |
| Scripts.LlamaTurnAppends | llama-conversation.py:264-286 | the llama script appends the cleaned text with a statistics line that has no token clause |
| Scripts.LlamaRoundTrip | llama-conversation.py:97-130 | after a run and a typed message, the next context is the old parts, the reply, the message and the `Assistant:` cue |
| Scripts.LlamaPlanAppended | llama-conversation.py:97-130 | an appended block and message extend the llama context by the two new parts |
| Scripts.ContextAppended | llama-conversation.py:101-115 | the new sections add `Assistant: reply` and `Human: message` to the context parts |
| Monitor.GlobIff | llama-prompt-monitor.py:18-19 | a name is found exactly when it is listed, ends with `.prompt` and is not hidden |
| Monitor.GlobDistinct | llama-prompt-monitor.py:18-19 | the glob lists every match once |
| Monitor.DropCompletedInert | llama-prompt-monitor.py:22-25 | the `.prompt.complete` filter drops nothing the glob returns |
| Monitor.DiscoverySound | llama-prompt-monitor.py:16-27 | discovery returns exactly the stored visible `.prompt` files, each once, none of them completed |
| Monitor.ProcessPromptFile | llama-prompt-monitor.py:39-80 | a run succeeds exactly when the child exits with code 0; a timeout or exception is a failure |
| Monitor.MarkAsComplete | llama-prompt-monitor.py:82-94 | a new name exactly when the rename succeeds, `.complete` on success and `.error` otherwise; a failed rename changes nothing |
| Monitor.TargetNotPrompt | llama-prompt-monitor.py:84-88 | a renamed file no longer matches `*.prompt` |
| Monitor.RenameFrame | llama-prompt-monitor.py:90 | the rename moves the content to the new name, removes the old one and leaves every other file alone |
| Monitor.VisitFile | llama-prompt-monitor.py:219-243 | skipped exactly when unstable; only reported in a dry run; processed success is exit code 0; counted exactly when reported or renamed |
| Monitor.SweepTrace | llama-prompt-monitor.py:219-245 | one action per discovered file, in order, each the one its observation calls for; the count is the counted actions |
| Monitor.SweepCount | llama-prompt-monitor.py:217-245 | the count never exceeds the files found, and outside a dry run it is the number of successful renames |
| Monitor.DryRunSweep | llama-prompt-monitor.py:226-229 | a dry run changes no file and counts the stable ones |
| Monitor.SweepPromptEntries | llama-prompt-monitor.py:219-243 | a sweep keeps the directory well formed and creates no `.prompt` file; one left holds what the script left in it if the sweep ran the script on it, else its old content |
| Monitor.UnstableUntouched | llama-prompt-monitor.py:221-224 | a file still being written keeps its name and content |
| Monitor.RenamedGone | llama-prompt-monitor.py:236-240 | a file renamed in the sweep is gone under its old name afterwards |
| Monitor.SweepJobs | llama-prompt-monitor.py:219-245 | the loop computes the sweep over the discovered files |
| Monitor.ProcessDirectory | llama-prompt-monitor.py:208-245 | the sweep over the discovered files; nothing found means count 0 and no change; the count is bounded by the files found |
| Monitor.ProcessDirectorySound | llama-prompt-monitor.py:208-245 | the sweep keeps the directory well formed; anything found afterwards was found before, and holds what the script left in it if the sweep ran the script on it, else its old content; a dry run changes nothing |
| Monitor.RenamedNotRediscovered | llama-prompt-monitor.py:236-243 | a file renamed in a sweep is not found by the next one |

## Left out

- File reading and appending are modelled on the whole file text; encodings, `FileNotFoundError` and partial writes are not modelled.
- The HTTP calls, the OpenAI client, the local model library and their exceptions are not modelled: the model list, the answer and a raised request are inputs.
- Streaming: decoding the JSON chunks is not modelled. A stream becomes a reply text with or without counters, where without means no final chunk arrived.
- Server connection checks and model warm-up (`test_server_connection`, `check_model_status`) only print. They are folded into the reachable or unreachable connection.
- Timestamps and `%.1f` durations are inputs. The round trip only needs them to be single-line and free of `---`, which real `%Y-%m-%d %H:%M:%S` and `%.1f` texts are.
- Floats: `temperature` and `top_p` are kept as their literal text, and `float()` is modelled as a recogniser of the literals it accepts.
- Numerals.ParseInt: accepts ASCII digits only. Python's `int()` also accepts other Unicode decimal digits.
- Numerals.IsFloatLiteral: accepts ASCII digits only. Python's `float()` also accepts other Unicode decimal digits.
- Reply.TokenCounts: counters are natural numbers. Negative or non-integer counters from a server are not modelled.
- Reply.AppendBlock: its contract states only the block's two ends. The full layout is proved in `RoundTrip.BlockShape`, and the round-trip lemmas are what matter.
- Decisions.TextOf: a missing or non-text value reads as `""`. The fallback is never taken for `model_name`, which has a text default and is not a typed key (`Decisions.TextKeyStaysText`).
- Command-line handling, `--verbose` output, the printed dry-run report and the `--timeout` override of the ollama script are not modelled.
- The llama script's check that the model file exists, and its `n_ctx` / `n_threads` model loading, are not modelled.
- Logging, `find_llama_script`, the monitor's continuous mode and its sleep between sweeps are not modelled. One sweep is modelled.
- Monitor.ProcessPromptFile: the child runs under a 7200-second limit, though a comment says 30 minutes. The limit is only an outcome of the run here.
- Monitor.Sweep: what a child process writes to its file is an input (`Observation.written`), not the conversation scripts' model run on the file.
- Monitor.SweepPromptEntries: the content a run leaves is that input, so the lemma does not say it is the old file plus an appended block.
- Monitor.ProcessDirectorySound: the same; the content after a run is the observed content, not derived from the scripts' model.
- Monitor.IsPromptName: a directory whose name ends in `.prompt` would also match the glob. The directory is modelled as files only.
