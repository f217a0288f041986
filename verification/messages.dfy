/** The projection of parsed sections onto backend input:
    `build_ollama_messages` / `build_openai_messages` (a role-tagged message
    list) and `build_context_string` (one `Human:` / `Assistant:` prompt).
    Both drop `# Generated:` metadata lines from AI sections and skip AI
    sections that clean to nothing. */
module Messages {
  import opened Text
  import opened Sections

  datatype Role = User | Assistant

  datatype Message = Message(role: Role, content: string)

  const MetadataPrefix: string := "# Generated:"

  /** A line the cleaner drops: once stripped, it starts with `# Generated:`. */
  predicate IsMetadataLine(line: string) {
    StartsWith(Strip(line), MetadataPrefix)
  }

  predicate NoMetadata(lines: seq<string>) {
    forall i :: 0 <= i < |lines| ==> !IsMetadataLine(lines[i])
  }

  /** No line of `s` is a metadata line. */
  predicate AllClean(s: string) {
    NoMetadata(Split(s, '\n'))
  }

  predicate AllBlank(lines: seq<string>) {
    forall i :: 0 <= i < |lines| ==> IsBlank(lines[i])
  }

  predicate NoNewline(lines: seq<string>) {
    forall i :: 0 <= i < |lines| ==> '\n' !in lines[i]
  }

  /** The lines that are not metadata, in order. */
  function Keep(lines: seq<string>): (r: seq<string>)
    ensures |r| <= |lines|
    decreases |lines|
  {
    if |lines| == 0 then []
    else if IsMetadataLine(lines[0]) then Keep(lines[1..])
    else [lines[0]] + Keep(lines[1..])
  }

  lemma {:induction false} KeepSkip(lines: seq<string>)
    requires |lines| >= 1 && IsMetadataLine(lines[0])
    ensures Keep(lines) == Keep(lines[1..])
  {
  }

  lemma {:induction false} KeepCons(lines: seq<string>)
    requires |lines| >= 1 && !IsMetadataLine(lines[0])
    ensures Keep(lines) == [lines[0]] + Keep(lines[1..])
  {
  }

  lemma {:induction false} KeepNil(lines: seq<string>)
    requires |lines| == 0
    ensures Keep(lines) == []
  {
  }

  lemma NoMetadataCons(x: string, rest: seq<string>)
    requires !IsMetadataLine(x) && NoMetadata(rest)
    ensures NoMetadata([x] + rest)
  {
    forall i | 0 < i < |[x] + rest|
      ensures !IsMetadataLine(([x] + rest)[i])
    {
      assert ([x] + rest)[i] == rest[i - 1];
    }
  }

  lemma NoNewlineCons(x: string, rest: seq<string>)
    requires '\n' !in x && NoNewline(rest)
    ensures NoNewline([x] + rest)
  {
    forall i | 0 < i < |[x] + rest|
      ensures '\n' !in ([x] + rest)[i]
    {
      assert ([x] + rest)[i] == rest[i - 1];
    }
  }

  lemma NoMetadataTail(lines: seq<string>)
    requires |lines| > 0 && NoMetadata(lines)
    ensures !IsMetadataLine(lines[0]) && NoMetadata(lines[1..])
  {
    forall i | 0 <= i < |lines[1..]|
      ensures !IsMetadataLine(lines[1..][i])
    {
      assert lines[1..][i] == lines[i + 1];
    }
  }

  lemma NoNewlineTail(lines: seq<string>)
    requires |lines| > 0 && NoNewline(lines)
    ensures '\n' !in lines[0] && NoNewline(lines[1..])
  {
    forall i | 0 <= i < |lines[1..]|
      ensures '\n' !in lines[1..][i]
    {
      assert lines[1..][i] == lines[i + 1];
    }
  }

  /** What `Keep` keeps is clean, and newline-free if its input was. */
  lemma {:induction false} KeepClean(lines: seq<string>)
    ensures NoMetadata(Keep(lines))
    ensures NoNewline(lines) ==> NoNewline(Keep(lines))
    decreases |lines|
  {
    if |lines| == 0 {
      KeepNil(lines);
    } else {
      KeepClean(lines[1..]);
      if NoNewline(lines) {
        NoNewlineTail(lines);
      }
      if IsMetadataLine(lines[0]) {
        KeepSkip(lines);
      } else {
        KeepCons(lines);
        NoMetadataCons(lines[0], Keep(lines[1..]));
        if NoNewline(lines) {
          NoNewlineCons(lines[0], Keep(lines[1..]));
        }
      }
    }
  }

  /** A list with no metadata line is kept whole. */
  lemma {:induction false} KeepAll(lines: seq<string>)
    requires NoMetadata(lines)
    ensures Keep(lines) == lines
    decreases |lines|
  {
    if |lines| > 0 {
      NoMetadataTail(lines);
      KeepAll(lines[1..]);
      KeepCons(lines);
      assert lines == [lines[0]] + lines[1..];
    } else {
      KeepNil(lines);
    }
  }

  /** Blank padding does not make or unmake a metadata line. */
  lemma MetadataPadLeft(w: string, x: string)
    requires IsBlank(w)
    ensures IsMetadataLine(w + x) <==> IsMetadataLine(x)
  {
    StripPadLeft(w, x);
  }

  lemma MetadataPadRight(x: string, w: string)
    requires IsBlank(w)
    ensures IsMetadataLine(x + w) <==> IsMetadataLine(x)
  {
    StripPadRight(x, w);
  }

  /** The lines of `y` are clean when those of `x + y` are and `x` is blank. */
  lemma FuseCleanRight(xs: seq<string>, ys: seq<string>)
    requires |xs| >= 1 && |ys| >= 1
    requires AllBlank(xs) && NoMetadata(Fuse(xs, ys))
    ensures NoMetadata(ys)
  {
    var n := |xs|;
    var f := Fuse(xs, ys);
    forall j | 0 <= j < |ys|
      ensures !IsMetadataLine(ys[j])
    {
      if j == 0 {
        assert f[n - 1] == xs[n - 1] + ys[0];
        MetadataPadLeft(xs[n - 1], ys[0]);
      } else {
        assert f[n - 1 + j] == ys[j];
      }
    }
  }

  /** The lines of `x` are clean when those of `x + y` are and `y` is blank. */
  lemma FuseCleanLeft(xs: seq<string>, ys: seq<string>)
    requires |xs| >= 1 && |ys| >= 1
    requires AllBlank(ys) && NoMetadata(Fuse(xs, ys))
    ensures NoMetadata(xs)
  {
    var n := |xs|;
    var f := Fuse(xs, ys);
    forall j | 0 <= j < n
      ensures !IsMetadataLine(xs[j])
    {
      if j == n - 1 {
        assert f[n - 1] == xs[n - 1] + ys[0];
        MetadataPadRight(xs[n - 1], ys[0]);
      } else {
        assert f[j] == xs[j];
      }
    }
  }

  /** Stripping clean text leaves it clean. */
  lemma StripKeepsClean(s: string)
    requires AllClean(s)
    ensures AllClean(Strip(s))
  {
    var lw, rw := StripParts(s);
    var t := Strip(s);
    SplitConcat(lw + t, rw, '\n');
    SplitBlank(rw, '\n');
    FuseCleanLeft(Split(lw + t, '\n'), Split(rw, '\n'));
    SplitConcat(lw, t, '\n');
    SplitBlank(lw, '\n');
    FuseCleanRight(Split(lw, '\n'), Split(t, '\n'));
  }

  /** Joining clean newline-free lines gives clean text. */
  lemma JoinClean(lines: seq<string>)
    requires NoMetadata(lines) && NoNewline(lines)
    ensures AllClean(Join(lines, "\n"))
  {
    if |lines| == 0 {
      assert Split("", '\n') == [""];
      assert Strip("") == "";
    } else {
      SplitJoin(lines, '\n');
    }
  }

  /** The AI-content cleaner: split into lines, drop metadata lines, rejoin
      with newlines, strip. Its result is stripped and has no metadata line. */
  function StripMetadata(s: string): (r: string)
    ensures Trimmed(r) && AllClean(r)
  {
    var kept := Keep(Split(s, '\n'));
    KeepClean(Split(s, '\n'));
    JoinClean(kept);
    StripKeepsClean(Join(kept, "\n"));
    Strip(Join(kept, "\n"))
  }

  /** Text with no metadata line is only stripped. */
  lemma StripMetadataNoMetadata(s: string)
    requires AllClean(s)
    ensures StripMetadata(s) == Strip(s)
  {
    KeepAll(Split(s, '\n'));
    JoinSplit(s, '\n');
  }

  /** Clean, stripped text is a fixed point of the cleaner. */
  lemma StripMetadataFixed(t: string)
    requires Trimmed(t) && AllClean(t)
    ensures StripMetadata(t) == t
  {
    StripMetadataNoMetadata(t);
    StripTrimmed(t);
  }

  lemma StripMetadataIdempotent(s: string)
    ensures StripMetadata(StripMetadata(s)) == StripMetadata(s)
  {
    StripMetadataFixed(StripMetadata(s));
  }

  /** A lone metadata line cleans to nothing. */
  lemma {:induction false} MetadataOnlyIsEmpty(line: string)
    requires IsMetadataLine(line) && '\n' !in line
    ensures StripMetadata(line) == ""
  {
    SplitNoSep(line, '\n');
    KeepDropsMetadata(line);
    assert Join([], "\n") == "";
    StripTrimmed("");
  }

  lemma {:induction false} KeepDropsMetadata(line: string)
    requires IsMetadataLine(line)
    ensures Keep([line]) == []
  {
    KeepSkip([line]);
    KeepNil([line][1..]);
  }

  /** The message for one section, if it yields one. */
  function SectionMessages(sec: Section): (r: seq<Message>)
    ensures |r| <= 1
  {
    match sec.kind
    case Human => [Message(User, sec.content)]
    case Ai =>
      var c := StripMetadata(sec.content);
      if c != "" then [Message(Assistant, c)] else []
  }

  predicate GoodAssistant(m: Message) {
    m.role == Assistant ==> m.content != "" && Trimmed(m.content) && AllClean(m.content)
  }

  /** `build_ollama_messages` / `build_openai_messages`: one message per
      section in order, except AI sections that clean to nothing. */
  function BuildMessages(secs: seq<Section>): (r: seq<Message>)
    ensures |r| <= |secs|
    ensures forall i :: 0 <= i < |r| ==> GoodAssistant(r[i])
    decreases |secs|
  {
    if |secs| == 0 then []
    else SectionMessages(secs[0]) + BuildMessages(secs[1..])
  }

  /** The contents of the human sections, in order. */
  function HumanContents(secs: seq<Section>): seq<string>
    decreases |secs|
  {
    if |secs| == 0 then []
    else if secs[0].kind == Human then [secs[0].content] + HumanContents(secs[1..])
    else HumanContents(secs[1..])
  }

  /** The contents of the user messages, in order. */
  function UserContents(msgs: seq<Message>): seq<string>
    decreases |msgs|
  {
    if |msgs| == 0 then []
    else if msgs[0].role == User then [msgs[0].content] + UserContents(msgs[1..])
    else UserContents(msgs[1..])
  }

  lemma {:induction false} UserContentsConcat(a: seq<Message>, b: seq<Message>)
    ensures UserContents(a + b) == UserContents(a) + UserContents(b)
    decreases |a|
  {
    if |a| > 0 {
      assert (a + b)[1..] == a[1..] + b;
      UserContentsConcat(a[1..], b);
    } else {
      assert a + b == b;
    }
  }

  /** Every human section becomes a user message with its content unchanged,
      in order, and no other section does: so there are as many user
      messages as human sections. */
  lemma {:induction false} UsersAreHumans(secs: seq<Section>)
    ensures UserContents(BuildMessages(secs)) == HumanContents(secs)
    decreases |secs|
  {
    if |secs| > 0 {
      UsersAreHumans(secs[1..]);
      UserContentsConcat(SectionMessages(secs[0]), BuildMessages(secs[1..]));
      SectionUsers(secs[0]);
    }
  }

  lemma SectionUsers(sec: Section)
    ensures UserContents(SectionMessages(sec)) == if sec.kind == Human then [sec.content] else []
  {
    var head := SectionMessages(sec);
    if head != [] {
      assert head[1..] == [];
    }
  }

  /** Building messages for a longer conversation extends the messages of
      its first part. */
  lemma {:induction false} BuildMessagesConcat(a: seq<Section>, b: seq<Section>)
    ensures BuildMessages(a + b) == BuildMessages(a) + BuildMessages(b)
    decreases |a|
  {
    if |a| > 0 {
      assert (a + b)[1..] == a[1..] + b;
      BuildMessagesConcat(a[1..], b);
    } else {
      assert a + b == b;
    }
  }

  /** The context line for one message. */
  function Render(m: Message): string {
    match m.role
    case User => "Human: " + m.content
    case Assistant => "Assistant: " + m.content
  }

  function RenderAll(msgs: seq<Message>): (r: seq<string>)
    ensures |r| == |msgs|
    decreases |msgs|
  {
    if |msgs| == 0 then [] else [Render(msgs[0])] + RenderAll(msgs[1..])
  }

  /** The `context_parts` list, built section by section. */
  function ContextParts(secs: seq<Section>): seq<string>
    decreases |secs|
  {
    if |secs| == 0 then []
    else
      match secs[0].kind
      case Human => ["Human: " + secs[0].content] + ContextParts(secs[1..])
      case Ai =>
        var c := StripMetadata(secs[0].content);
        if c != "" then ["Assistant: " + c] + ContextParts(secs[1..])
        else ContextParts(secs[1..])
  }

  lemma {:induction false} RenderAllConcat(a: seq<Message>, b: seq<Message>)
    ensures RenderAll(a + b) == RenderAll(a) + RenderAll(b)
    decreases |a|
  {
    if |a| > 0 {
      assert (a + b)[1..] == a[1..] + b;
      RenderAllConcat(a[1..], b);
    } else {
      assert a + b == b;
    }
  }

  /** The llama script's context lists exactly the messages the chat
      scripts send, each rendered as `Human: ` or `Assistant: ` plus its
      content. */
  lemma {:induction false} ContextMatchesMessages(secs: seq<Section>)
    ensures ContextParts(secs) == RenderAll(BuildMessages(secs))
    decreases |secs|
  {
    if |secs| > 0 {
      ContextMatchesMessages(secs[1..]);
      var head := SectionMessages(secs[0]);
      RenderAllConcat(head, BuildMessages(secs[1..]));
      if head != [] {
        assert RenderAll(head) == [Render(head[0])] by {
          assert head[1..] == [];
        }
      }
    }
  }

  /** `build_context_string`: the parts and a final `Assistant:` cue, joined
      by blank lines. */
  function BuildContext(secs: seq<Section>): (r: string)
    ensures EndsWith(r, "Assistant:")
    ensures secs == [] ==> r == "Assistant:"
  {
    var parts := ContextParts(secs) + ["Assistant:"];
    JoinEndsWithLast(parts, "\n\n");
    Join(parts, "\n\n")
  }
}
