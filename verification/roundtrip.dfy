/** What the next run reads back after `append_response_to_file`: the header
    is untouched, and the conversation gains exactly one AI section holding
    the statistics line and the reply, and one human section holding what
    the user typed after the fresh `---HUMAN---` marker. */
module RoundTrip {
  import opened Outcomes
  import opened Text
  import opened Sections
  import opened Messages
  import opened PromptFile
  import opened Reply

  /** A marker at the front is consumed whole and opens a new segment. */
  lemma {:induction false} LexMarkerFront(k: Kind, y: string)
    ensures Lex(MarkerOf(k) + y) == Push(k, Lex(y))
  {
    var m := MarkerOf(k);
    var s := m + y;
    assert s[..|m|] == m;
    assert s[|m|..] == y;
    if k == Ai {
      assert s[3] == 'A';
      assert HumanMarker[3] == 'H';
    }
  }

  lemma PlainNewline()
    ensures Plain("\n")
  {
    PlainNoDash("\n");
  }

  lemma {:induction false} PlainNewlineBefore(a: string)
    requires Plain(a)
    ensures Plain("\n" + a)
  {
    PlainNewline();
    PlainConcat("\n", a);
  }

  lemma {:induction false} PlainNewlineAfter(a: string)
    requires Plain(a)
    ensures Plain(a + "\n")
  {
    PlainNewline();
    PlainConcat(a, "\n");
  }

  lemma {:induction false} PlainLines(a: string, b: string)
    requires Plain(a) && Plain(b)
    ensures Plain(a + "\n" + b)
  {
    PlainNewlineAfter(a);
    PlainConcat(a + "\n", b);
  }

  lemma {:induction false} PlainMiddle(meta: string, reply: string)
    requires Plain(meta) && Plain(reply)
    ensures Plain(Middle(meta, reply))
  {
    var core := meta + "\n" + reply;
    PlainLines(meta, reply);
    PlainNewlineBefore(core);
    PlainNewlineAfter("\n" + core);
    PlainNewlineAfter("\n" + core + "\n");
    assert Middle(meta, reply) == "\n" + core + "\n" + "\n";
  }

  lemma {:induction false} Assoc<T>(a: seq<T>, b: seq<T>, c: seq<T>)
    ensures a + b + c == a + (b + c)
  {
  }

  /** The block as the scanner sees it, with the user's text after it. */
  lemma {:induction false} BlockShape(reply: string, meta: string, human: string)
    requires Trimmed(reply)
    ensures AppendBlock(reply, meta) + human
      == "\n\n" + (AiMarker + (Middle(meta, reply) + (HumanMarker + ("\n" + human))))
  {
    StripTrimmed(reply);
    var a, b, m, h := "\n\n", AiMarker, Middle(meta, reply), HumanMarker;
    var x := h + ("\n" + human);
    assert AppendBlock(reply, meta) == a + b + m + (h + "\n");
    Assoc(a + b + m, h + "\n", human);
    Assoc(h, "\n", human);
    Assoc(a + b, m, x);
    Assoc(a, b, m + x);
  }

  lemma {:induction false} LexAfterHuman(human: string)
    requires Plain(human)
    ensures Lex(HumanMarker + ("\n" + human)) == Lexed([Human], ["", "\n" + human])
  {
    PlainNewlineBefore(human);
    LexMarkerFront(Human, "\n" + human);
  }

  lemma {:induction false} LexFromMiddle(meta: string, reply: string, human: string)
    requires Plain(meta) && Plain(reply) && Plain(human)
    ensures Lex(Middle(meta, reply) + (HumanMarker + ("\n" + human)))
      == Lexed([Human], [Middle(meta, reply), "\n" + human])
  {
    var mid := Middle(meta, reply);
    var z := HumanMarker + ("\n" + human);
    PlainMiddle(meta, reply);
    LexAfterHuman(human);
    assert mid[|mid| - 1] == '\n';
    LexAppend(mid, z);
    assert mid + "" == mid;
  }

  lemma {:induction false} LexFromAi(meta: string, reply: string, human: string)
    requires Plain(meta) && Plain(reply) && Plain(human)
    ensures Lex(AiMarker + (Middle(meta, reply) + (HumanMarker + ("\n" + human))))
      == Lexed([Ai, Human], ["", Middle(meta, reply), "\n" + human])
  {
    LexFromMiddle(meta, reply, human);
    LexMarkerFront(Ai, Middle(meta, reply) + (HumanMarker + ("\n" + human)));
  }

  /** The scan of an appended block followed by the user's text: an AI and
      a human marker, with the middle and the user's text as segments. */
  lemma {:induction false} LexBlock(reply: string, meta: string, human: string)
    requires Trimmed(reply) && Plain(meta) && Plain(reply) && Plain(human)
    ensures Lex(AppendBlock(reply, meta) + human)
      == Lexed([Ai, Human], ["\n\n", Middle(meta, reply), "\n" + human])
  {
    BlockShape(reply, meta, human);
    var x := AiMarker + (Middle(meta, reply) + (HumanMarker + ("\n" + human)));
    LexFromAi(meta, reply, human);
    LexAfterNewlines(x);
    GlueNewlines(Middle(meta, reply), "\n" + human);
  }

  lemma LexAfterNewlines(x: string)
    ensures Lex("\n\n" + x) == Glue(Lexed([], ["\n\n"]), Lex(x))
  {
    PlainNoDash("\n\n");
    LexAppend("\n\n", x);
  }

  lemma GlueNewlines(m: string, z: string)
    ensures Glue(Lexed([], ["\n\n"]), Lexed([Ai, Human], ["", m, z])) == Lexed([Ai, Human], ["\n\n", m, z])
  {
    assert "\n\n" + "" == "\n\n";
  }

  /** Appending the block and the user's text to a conversation: the block
      starts with a newline, so nothing straddles the join. */
  lemma {:induction false} LexAppended(rest: string, reply: string, meta: string, human: string)
    requires Trimmed(reply) && Plain(meta) && Plain(reply) && Plain(human)
    ensures Lex(rest + (AppendBlock(reply, meta) + human))
      == Glue(Lex(rest), Lexed([Ai, Human], ["\n\n", Middle(meta, reply), "\n" + human]))
  {
    var tail := AppendBlock(reply, meta) + human;
    LexBlock(reply, meta, human);
    assert AppendBlock(reply, meta)[0] == '\n';
    assert tail[0] == '\n';
    LexAppend(rest, tail);
  }

  /** The trailing `\n\n` joins the conversation's last segment, which it
      leaves as blank or as non-blank as it was. */
  lemma {:induction false} SegmentsAppended(segs: seq<string>, mid: string, z: string)
    requires |segs| >= 1
    ensures NonBlank(Fuse(segs, ["\n\n", mid, z])) == NonBlank(segs) + NonBlank([mid, z])
  {
    var ys := ["\n\n", mid, z];
    NewlinesBlank();
    SegmentsFused(segs, ys);
    assert ys[1..] == [mid, z];
  }

  lemma NewlinesBlank()
    ensures IsBlank("\n\n")
  {
  }

  /** A blank first segment of `ys` adds nothing to the last segment of
      `segs` it is fused with. */
  lemma {:induction false} SegmentsFused(segs: seq<string>, ys: seq<string>)
    requires |segs| >= 1 && |ys| >= 1 && IsBlank(ys[0])
    ensures NonBlank(Fuse(segs, ys)) == NonBlank(segs) + NonBlank(ys[1..])
  {
    var n := |segs|;
    var init, last := segs[..n - 1], segs[n - 1];
    assert Fuse(segs, ys) == (init + [last + ys[0]]) + ys[1..];
    PadConcat(init, last, ys[0], ys[1..]);
    assert init + [last] == segs;
  }

  lemma {:induction false} PadConcat(init: seq<string>, last: string, w: string, rest: seq<string>)
    requires IsBlank(w)
    ensures NonBlank((init + [last + w]) + rest) == NonBlank(init + [last]) + NonBlank(rest)
  {
    NonBlankConcat(init + [last + w], rest);
    PadTail(init, last, w);
  }

  lemma {:induction false} NonBlankHead(x: string, z: string)
    requires !IsBlank(x)
    ensures NonBlank([x, z]) == [Strip(x)] + NonBlank([z])
  {
    var segs := [x, z];
    assert segs[0] == x && segs[1..] == [z];
  }

  lemma {:induction false} TwoSegments(mid: string, z: string)
    requires !IsBlank(mid) && !IsBlank(z)
    ensures NonBlank([mid, z]) == [Strip(mid), Strip(z)]
  {
    NonBlankHead(mid, z);
    NonBlankSingle(z);
  }

  /** The AI section reads back as the statistics line and the reply. */
  lemma {:induction false} StripMiddle(meta: string, reply: string)
    requires Trimmed(meta) && meta != "" && Trimmed(reply) && reply != ""
    ensures Strip(Middle(meta, reply)) == meta + "\n" + reply
    ensures !IsBlank(Middle(meta, reply))
  {
    var core := meta + "\n" + reply;
    assert core[0] == meta[0] && core[|core| - 1] == reply[|reply| - 1];
    assert Middle(meta, reply) == "\n" + core + "\n\n";
    StripUnique("\n", core, "\n\n");
    StripEmptyIff(Middle(meta, reply));
  }

  /** The human section reads back as what the user typed, stripped. */
  lemma StripHuman(human: string)
    ensures Strip("\n" + human) == Strip(human)
    ensures IsBlank("\n" + human) <==> IsBlank(human)
  {
    StripPadLeft("\n", human);
    BlankPadLeft("\n", human);
  }

  lemma {:induction false} PairSnoc(ms: seq<Kind>, cs: seq<string>, c1: string, c2: string)
    requires |ms| == |cs|
    ensures Pair(ms + [Ai, Human], cs + [c1, c2]) == Pair(ms, cs) + [Section(Ai, c1), Section(Human, c2)]
  {
  }

  /** The AI and human sections a well-formed append adds. */
  function Added(reply: string, meta: string, human: string): seq<Section> {
    [Section(Ai, meta + "\n" + reply), Section(Human, Strip(human))]
  }

  /** The markers and the non-blank segments of the extended
      conversation: the old ones, then the AI and the human one. */
  lemma {:induction false} ScanAppended(rest: string, reply: string, meta: string, human: string)
    requires Trimmed(reply) && reply != "" && Plain(reply)
    requires Trimmed(meta) && meta != "" && Plain(meta)
    requires Plain(human) && !IsBlank(human)
    ensures Lex(rest + (AppendBlock(reply, meta) + human)).markers == Lex(rest).markers + [Ai, Human]
    ensures NonBlank(Lex(rest + (AppendBlock(reply, meta) + human)).segments)
      == NonBlank(Lex(rest).segments) + [meta + "\n" + reply, Strip(human)]
  {
    var mid, z := Middle(meta, reply), "\n" + human;
    LexAppended(rest, reply, meta, human);
    SegmentsAppended(Lex(rest).segments, mid, z);
    NewSegments(reply, meta, human);
  }

  lemma {:induction false} NewSegments(reply: string, meta: string, human: string)
    requires Trimmed(reply) && reply != "" && Trimmed(meta) && meta != "" && !IsBlank(human)
    ensures NonBlank([Middle(meta, reply), "\n" + human]) == [meta + "\n" + reply, Strip(human)]
  {
    StripMiddle(meta, reply);
    StripHuman(human);
    TwoSegments(Middle(meta, reply), "\n" + human);
  }

  lemma StatsLineShape(meta: string)
    requires IsStatsLine(meta)
    ensures Trimmed(meta) && meta != "" && Plain(meta)
  {
    assert meta[0] == '#';
  }

  /** Parsing the extended conversation succeeds exactly when parsing the
      old one did, and then yields the old sections followed by the new AI
      and human sections. */
  lemma {:induction false} ConversationAppended(rest: string, reply: string, meta: string, human: string)
    requires Trimmed(reply) && reply != "" && Plain(reply)
    requires IsStatsLine(meta)
    requires Plain(human) && !IsBlank(human)
    ensures ParseSections(rest + (AppendBlock(reply, meta) + human)).Ok? <==> ParseSections(rest).Ok?
    ensures ParseSections(rest).Ok? ==>
      ParseSections(rest + (AppendBlock(reply, meta) + human))
        == Ok(ParseSections(rest).value + Added(reply, meta, human))
  {
    StatsLineShape(meta);
    ScanAppended(rest, reply, meta, human);
    var ms, cs := Lex(rest).markers, NonBlank(Lex(rest).segments);
    if |ms| == |cs| {
      PairSnoc(ms, cs, meta + "\n" + reply, Strip(human));
    }
  }

  /** Straight after the append, before the user has typed anything, the
      trailing human segment is blank, and the conversation no longer parses. */
  lemma {:induction false} RoundTripNeedsHuman(rest: string, reply: string, meta: string, human: string)
    requires Trimmed(reply) && reply != "" && Plain(reply)
    requires IsStatsLine(meta)
    requires IsBlank(human)
    requires ParseSections(rest).Ok?
    ensures ParseSections(rest + (AppendBlock(reply, meta) + human)) == Err(MismatchedSections)
  {
    StatsLineShape(meta);
    PlainBlank(human);
    var mid, z := Middle(meta, reply), "\n" + human;
    LexAppended(rest, reply, meta, human);
    SegmentsAppended(Lex(rest).segments, mid, z);
    BlankSegmentDropped(reply, meta, human);
  }

  lemma {:induction false} BlankSegmentDropped(reply: string, meta: string, human: string)
    requires Trimmed(reply) && reply != "" && Trimmed(meta) && meta != "" && IsBlank(human)
    ensures |NonBlank([Middle(meta, reply), "\n" + human])| == 1
  {
    StripMiddle(meta, reply);
    StripHuman(human);
    NonBlankHead(Middle(meta, reply), "\n" + human);
    NonBlankSingle("\n" + human);
  }

  lemma {:induction false} BuildTwo(a: Section, b: Section)
    ensures BuildMessages([a, b]) == SectionMessages(a) + SectionMessages(b)
  {
    var secs := [a, b];
    assert secs[0] == a && secs[1..] == [b];
    assert [b][1..] == [];
  }

  /** The new sections give the reply as an assistant message and the
      user's text as a user message. */
  lemma {:induction false} MessagesAppended(secs: seq<Section>, reply: string, meta: string, human: string)
    requires IsStatsLine(meta)
    requires Trimmed(reply) && AllClean(reply) && reply != ""
    ensures BuildMessages(secs + Added(reply, meta, human))
      == BuildMessages(secs) + [Message(Assistant, reply), Message(User, Strip(human))]
  {
    var a, b := Section(Ai, meta + "\n" + reply), Section(Human, Strip(human));
    AiSectionMessage(reply, meta);
    BuildSnocAi(secs, reply, meta, human);
    HumanSectionMessage(Strip(human));
    SnocTwo(BuildMessages(secs), Message(Assistant, reply), Message(User, Strip(human)));
  }

  lemma {:induction false} BuildSnocAi(secs: seq<Section>, reply: string, meta: string, human: string)
    requires SectionMessages(Section(Ai, meta + "\n" + reply)) == [Message(Assistant, reply)]
    ensures BuildMessages(secs + Added(reply, meta, human))
      == BuildMessages(secs) + [Message(Assistant, reply)] + SectionMessages(Section(Human, Strip(human)))
  {
    BuildSnoc(secs, Section(Ai, meta + "\n" + reply), Section(Human, Strip(human)));
  }

  lemma {:induction false} HumanSectionMessage(text: string)
    ensures SectionMessages(Section(Human, text)) == [Message(User, text)]
  {
  }

  lemma {:induction false} SnocTwo<T>(x: seq<T>, a: T, b: T)
    ensures x + [a] + [b] == x + [a, b]
  {
  }

  lemma {:induction false} BuildSnoc(secs: seq<Section>, a: Section, b: Section)
    ensures BuildMessages(secs + [a, b]) == BuildMessages(secs) + SectionMessages(a) + SectionMessages(b)
  {
    BuildMessagesConcat(secs, [a, b]);
    BuildTwo(a, b);
    Assoc(BuildMessages(secs), SectionMessages(a), SectionMessages(b));
  }

  lemma {:induction false} AiSectionMessage(reply: string, meta: string)
    requires IsStatsLine(meta)
    requires Trimmed(reply) && AllClean(reply) && reply != ""
    ensures SectionMessages(Section(Ai, meta + "\n" + reply)) == [Message(Assistant, reply)]
  {
    StatsThenReply(meta, reply);
  }

  /** Appending to a file that parses keeps its configuration; the raw
      conversation after the separator grows by the appended text. */
  lemma {:induction false} DocumentAppended(p: Profile, file: string, tail: string)
    requires ParsePromptFile(p, file).Ok?
    ensures Contains(file, "---")
    ensures ParsePromptFile(p, file).value.conversation == Strip(SplitDocument(file).value.1)
    ensures ParsePromptFile(p, file + tail)
      == Ok(Document(ParsePromptFile(p, file).value.config, Strip(SplitDocument(file).value.1 + tail)))
  {
    SplitDocumentExtended(file, tail);
  }

  /** Appending to a prompt file keeps its header and configuration, and
      adds exactly the two new sections to its conversation. */
  lemma {:induction false} FileAppended(p: Profile, file: string, reply: string, meta: string, human: string)
    requires ParsePromptFile(p, file).Ok?
    requires Trimmed(reply) && reply != "" && MarkerFree(reply)
    requires IsStatsLine(meta)
    requires MarkerFree(human) && !IsBlank(human)
    ensures var file' := file + (AppendBlock(reply, meta) + human);
      && ParsePromptFile(p, file').Ok?
      && ParsePromptFile(p, file').value.config == ParsePromptFile(p, file).value.config
      && (ParseSections(ParsePromptFile(p, file').value.conversation).Ok?
          <==> ParseSections(ParsePromptFile(p, file).value.conversation).Ok?)
      && (ParseSections(ParsePromptFile(p, file).value.conversation).Ok? ==>
          ParseSections(ParsePromptFile(p, file').value.conversation)
            == Ok(ParseSections(ParsePromptFile(p, file).value.conversation).value + Added(reply, meta, human)))
  {
    var tail := AppendBlock(reply, meta) + human;
    DocumentAppended(p, file, tail);
    var rest := SplitDocument(file).value.1;
    PlainIff(reply);
    PlainIff(human);
    ParseSectionsStrip(rest);
    ParseSectionsStrip(rest + tail);
    ConversationAppended(rest, reply, meta, human);
  }

  /** The whole cycle: a reply cleaned as the ollama and docker scripts
      clean it, written with its statistics line, and followed by the
      user's next message, is read back on the next run as the assistant
      message that follows the old ones, then the new user message. */
  lemma {:induction false} RoundTrip(p: Profile, file: string, raw: string,
                                     timestamp: string, seconds: string, tokens: Option<TokenInfo>,
                                     human: string)
    requires ParsePromptFile(p, file).Ok?
    requires ParseSections(ParsePromptFile(p, file).value.conversation).Ok?
    requires CleanReply(raw) != "" && MarkerFree(CleanReply(raw))
    requires NoDashRun(timestamp) && '\n' !in timestamp
    requires NoDashRun(seconds) && '\n' !in seconds
    requires MarkerFree(human) && !IsBlank(human)
    ensures var file' := file + (AppendBlock(CleanReply(raw), MetadataLine(timestamp, seconds, tokens)) + human);
      var old_ := ParsePromptFile(p, file).value;
      && ParsePromptFile(p, file').Ok?
      && ParsePromptFile(p, file').value.config == old_.config
      && ParseSections(ParsePromptFile(p, file').value.conversation).Ok?
      && BuildMessages(ParseSections(ParsePromptFile(p, file').value.conversation).value)
        == BuildMessages(ParseSections(old_.conversation).value)
          + [Message(Assistant, CleanReply(raw)), Message(User, Strip(human))]
  {
    var reply, meta := CleanReply(raw), MetadataLine(timestamp, seconds, tokens);
    MetadataLineIsStats(timestamp, seconds, tokens);
    FileAppended(p, file, reply, meta, human);
    MessagesAppended(ParseSections(ParsePromptFile(p, file).value.conversation).value, reply, meta, human);
  }
}
