/** What happens to a backend reply before it reaches the file: cleaning,
    the `# Generated:` statistics line, token totals, and the block
    `append_response_to_file` writes. */
module Reply {
  import opened Outcomes
  import opened Text
  import opened Numerals
  import opened Sections
  import opened Messages

  /** Reply cleaning in the ollama and docker scripts: strip, drop metadata
      lines, rejoin, strip. */
  function CleanReply(raw: string): (r: string)
    ensures Trimmed(r) && AllClean(r)
  {
    StripMetadata(Strip(raw))
  }

  /** Cleaning an already cleaned reply changes nothing. */
  lemma CleanReplyIdempotent(raw: string)
    ensures CleanReply(CleanReply(raw)) == CleanReply(raw)
  {
    var r := CleanReply(raw);
    StripTrimmed(r);
    StripMetadataFixed(r);
  }

  /** A reply with no metadata line loses only its surrounding whitespace. */
  lemma CleanReplyOfClean(raw: string)
    requires AllClean(raw)
    ensures CleanReply(raw) == Strip(raw)
  {
    StripKeepsClean(raw);
    StripMetadataFixed(Strip(raw));
  }

  const AssistantPrefix: string := "Assistant:"

  /** The llama script's cleaning: strip; drop one leading `Assistant:` and
      strip again; then drop metadata lines as the other scripts do. */
  function CleanLlamaReply(raw: string): (r: string)
    ensures Trimmed(r) && AllClean(r)
  {
    StripMetadata(DropAssistant(Strip(raw)))
  }

  /** One leading `Assistant:` removed, and what follows it stripped. */
  function DropAssistant(t: string): string {
    if StartsWith(t, AssistantPrefix) then Strip(t[|AssistantPrefix|..]) else t
  }

  /** Without the prefix, the llama cleaning is the common one. */
  lemma LlamaWithoutPrefix(raw: string)
    requires !StartsWith(Strip(raw), AssistantPrefix)
    ensures CleanLlamaReply(raw) == CleanReply(raw)
  {
  }

  /** A leading `Assistant:` is dropped once: what follows it is cleaned as
      the other scripts clean a whole reply. */
  lemma {:induction false} LlamaDropsPrefix(x: string)
    ensures CleanLlamaReply(AssistantPrefix + x) == CleanReply(x)
  {
    DropPrefixStrip(x);
  }

  lemma {:induction false} DropPrefixStrip(x: string)
    ensures DropAssistant(Strip(AssistantPrefix + x)) == Strip(x)
  {
    if IsBlank(x) {
      DropPrefixBlank(x);
    } else {
      DropPrefixCore(x);
    }
  }

  lemma {:induction false} DropPrefixBlank(x: string)
    requires IsBlank(x)
    ensures DropAssistant(Strip(AssistantPrefix + x)) == Strip(x)
  {
    PrefixThenBlank(x);
    DropBarePrefix();
  }

  lemma DropBarePrefix()
    ensures DropAssistant(AssistantPrefix) == ""
  {
    assert StartsWith(AssistantPrefix, AssistantPrefix);
    assert AssistantPrefix[|AssistantPrefix|..] == "";
    StripEmptyIff("");
  }

  lemma {:induction false} DropPrefixCore(x: string)
    requires !IsBlank(x)
    ensures DropAssistant(Strip(AssistantPrefix + x)) == Strip(x)
  {
    var lw, rw := StripParts(x);
    var m := Strip(x);
    StripEmptyIff(x);
    PrefixThenCore(lw, m, rw);
    DropBeforeCore(lw, m);
  }

  lemma {:induction false} DropBeforeCore(lw: string, m: string)
    requires IsBlank(lw) && Trimmed(m) && m != ""
    ensures DropAssistant(AssistantPrefix + lw + m) == m
  {
    var t := AssistantPrefix + lw + m;
    assert t[..|AssistantPrefix|] == AssistantPrefix;
    assert t[|AssistantPrefix|..] == lw + m;
    StripPadLeft(lw, m);
    StripTrimmed(m);
  }

  lemma {:induction false} PrefixThenBlank(x: string)
    requires IsBlank(x)
    ensures Strip(AssistantPrefix + x) == AssistantPrefix
    ensures Strip(x) == ""
  {
    assert AssistantPrefix + x == "" + AssistantPrefix + x;
    StripUnique("", AssistantPrefix, x);
    StripEmptyIff(x);
  }

  lemma {:induction false} PrefixThenCore(lw: string, m: string, rw: string)
    requires IsBlank(lw) && IsBlank(rw) && Trimmed(m) && m != ""
    ensures Strip(AssistantPrefix + (lw + m + rw)) == AssistantPrefix + lw + m
  {
    var core := AssistantPrefix + lw + m;
    assert AssistantPrefix + (lw + m + rw) == "" + core + rw;
    assert core[0] == 'A' && core[|core| - 1] == m[|m| - 1];
    StripUnique("", core, rw);
  }

  /** Token counts as the ollama script records them: a counter the server
      leaves out counts as 0, and the total is the sum of the two. */
  datatype TokenInfo = TokenInfo(prompt: nat, completion: nat, total: nat)

  function CountOrZero(c: Option<nat>): nat {
    match c
    case Some(n) => n
    case None => 0
  }

  function TokenCounts(promptEval: Option<nat>, eval: Option<nat>): (r: TokenInfo)
    ensures r.total == r.prompt + r.completion
    ensures promptEval.None? ==> r.prompt == 0
    ensures eval.None? ==> r.completion == 0
    ensures promptEval.Some? ==> r.prompt == promptEval.value
    ensures eval.Some? ==> r.completion == eval.value
  {
    var p := CountOrZero(promptEval);
    var c := CountOrZero(eval);
    TokenInfo(p, c, p + c)
  }

  /** `, P prompt + C completion = T tokens`, present only with token info. */
  function TokenClause(tokens: Option<TokenInfo>): (r: string)
    ensures tokens.None? <==> r == ""
  {
    match tokens
    case None => ""
    case Some(t) =>
      ", " + NatToDecimal(t.prompt) + " prompt + " + NatToDecimal(t.completion)
        + " completion = " + NatToDecimal(t.total) + " tokens"
  }

  /** The statistics line, without its newline. The timestamp and the
      one-decimal duration are given as text. */
  function MetadataLine(timestamp: string, seconds: string, tokens: Option<TokenInfo>): (r: string)
    ensures StartsWith(r, MetadataPrefix)
    ensures tokens.None? <==> r == "# Generated: " + timestamp + " (" + seconds + "s)"
  {
    var r := "# Generated: " + timestamp + " (" + seconds + "s" + TokenClause(tokens) + ")";
    assert r[..|MetadataPrefix|] == MetadataPrefix;
    assert tokens.Some? ==> |r| > |"# Generated: " + timestamp + " (" + seconds + "s)"|;
    r
  }

  /** A line the appender may write as statistics: a single trimmed
      metadata line holding no marker. */
  predicate IsStatsLine(m: string) {
    StartsWith(m, MetadataPrefix) && Trimmed(m) && '\n' !in m && Plain(m)
  }

  /** No three dashes in a row: both markers begin with three. */
  predicate NoDashRun(s: string) {
    forall i :: 0 <= i && i + 2 < |s| ==> !(s[i] == '-' && s[i + 1] == '-' && s[i + 2] == '-')
  }

  lemma NoDashRunPlain(s: string)
    requires NoDashRun(s)
    ensures Plain(s)
  {
    forall i | 0 <= i <= |s|
      ensures !OccursAt(s, HumanMarker, i) && !OccursAt(s, AiMarker, i)
    {
      if i + |HumanMarker| <= |s| {
        NotMarkerAt(s, HumanMarker, i);
      }
      if i + |AiMarker| <= |s| {
        NotMarkerAt(s, AiMarker, i);
      }
    }
    PlainIff(s);
  }

  lemma NotMarkerAt(s: string, marker: string, i: nat)
    requires NoDashRun(s) && |marker| >= 3 && marker[..3] == "---" && i + |marker| <= |s|
    ensures s[i..i + |marker|] != marker
  {
    var w := s[i..i + |marker|];
    assert w[0] == s[i] && w[1] == s[i + 1] && w[2] == s[i + 2];
    assert !(s[i] == '-' && s[i + 1] == '-' && s[i + 2] == '-');
    assert marker[0] == '-' && marker[1] == '-' && marker[2] == '-';
  }

  /** Three dashes across a join need a dash on both sides of it. */
  lemma NoDashRunConcat(a: string, b: string)
    requires NoDashRun(a) && NoDashRun(b)
    requires |a| == 0 || |b| == 0 || a[|a| - 1] != '-' || b[0] != '-'
    ensures NoDashRun(a + b)
  {
    var s := a + b;
    forall i | 0 <= i && i + 2 < |s|
      ensures !(s[i] == '-' && s[i + 1] == '-' && s[i + 2] == '-')
    {
      if i + 2 < |a| {
        assert s[i] == a[i] && s[i + 1] == a[i + 1] && s[i + 2] == a[i + 2];
      } else if i >= |a| {
        assert s[i] == b[i - |a|] && s[i + 1] == b[i + 1 - |a|] && s[i + 2] == b[i + 2 - |a|];
      } else {
        assert s[|a| - 1] == a[|a| - 1] && s[|a|] == b[0];
      }
    }
  }

  lemma DecimalNoDash(n: nat)
    ensures NoDashRun(NatToDecimal(n)) && '\n' !in NatToDecimal(n) && '-' !in NatToDecimal(n)
  {
    var d := NatToDecimal(n);
    assert '-' !in d && '\n' !in d by {
      forall i | 0 <= i < |d|
        ensures d[i] != '-' && d[i] != '\n'
      {
        assert IsDigit(d[i]);
      }
    }
  }

  lemma {:induction false} TokenClauseNoDash(tokens: Option<TokenInfo>)
    ensures NoDashRun(TokenClause(tokens)) && '\n' !in TokenClause(tokens)
    ensures TokenClause(tokens) == "" || TokenClause(tokens)[0] == ','
  {
    match tokens
    case None =>
    case Some(t) =>
      DecimalNoDash(t.prompt);
      DecimalNoDash(t.completion);
      DecimalNoDash(t.total);
      CountsNoDash(NatToDecimal(t.prompt), NatToDecimal(t.completion), NatToDecimal(t.total));
  }

  lemma CountsNoDash(d1: string, d2: string, d3: string)
    requires NoDashRun(d1) && '\n' !in d1 && '-' !in d1
    requires NoDashRun(d2) && '\n' !in d2 && '-' !in d2
    requires NoDashRun(d3) && '\n' !in d3 && '-' !in d3
    ensures var c := ", " + d1 + " prompt + " + d2 + " completion = " + d3 + " tokens";
      NoDashRun(c) && '\n' !in c && c[0] == ','
  {
      var a1 := ", " + d1;
      NoDashRunConcat(", ", d1);
      var a2 := a1 + " prompt + ";
      NoDashRunConcat(a1, " prompt + ");
      var a3 := a2 + d2;
      NoDashRunConcat(a2, d2);
      var a4 := a3 + " completion = ";
      NoDashRunConcat(a3, " completion = ");
      var a5 := a4 + d3;
      NoDashRunConcat(a4, d3);
      var a6 := a5 + " tokens";
      NoDashRunConcat(a5, " tokens");
      assert a6[0] == ',';
  }

  /** The statistics line the scripts write is one trimmed, marker-free
      metadata line, whenever the timestamp and duration texts are
      single-line and hold no run of three dashes. */
  lemma {:induction false} MetadataLineIsStats(timestamp: string, seconds: string, tokens: Option<TokenInfo>)
    requires NoDashRun(timestamp) && '\n' !in timestamp
    requires NoDashRun(seconds) && '\n' !in seconds
    ensures IsStatsLine(MetadataLine(timestamp, seconds, tokens))
  {
    var m := MetadataLine(timestamp, seconds, tokens);
    MetadataLineNoDash(timestamp, seconds, tokens);
    MetadataLineTrimmed(timestamp, seconds, tokens);
    NoDashRunPlain(m);
  }

  lemma {:induction false} MetadataLineTrimmed(timestamp: string, seconds: string, tokens: Option<TokenInfo>)
    ensures Trimmed(MetadataLine(timestamp, seconds, tokens))
  {
    var a5 := "# Generated: " + timestamp + " (" + seconds + "s" + TokenClause(tokens);
    var a6 := a5 + ")";
    assert MetadataLine(timestamp, seconds, tokens) == a6;
    assert a6[0] == '#' && a6[|a6| - 1] == ')';
  }

  lemma {:induction false} MetadataLineNoDash(timestamp: string, seconds: string, tokens: Option<TokenInfo>)
    requires NoDashRun(timestamp) && '\n' !in timestamp
    requires NoDashRun(seconds) && '\n' !in seconds
    ensures NoDashRun(MetadataLine(timestamp, seconds, tokens))
    ensures '\n' !in MetadataLine(timestamp, seconds, tokens)
  {
    var c := TokenClause(tokens);
    TokenClauseNoDash(tokens);
    var a4 := StatsHead(timestamp, seconds);
    var a5 := a4 + c;
    NoDashRunConcat(a4, c);
    var a6 := a5 + ")";
    NoDashRunConcat(a5, ")");
    assert MetadataLine(timestamp, seconds, tokens) == a6;
  }

  lemma {:induction false} StatsHead(timestamp: string, seconds: string) returns (a4: string)
    requires NoDashRun(timestamp) && '\n' !in timestamp
    requires NoDashRun(seconds) && '\n' !in seconds
    ensures a4 == "# Generated: " + timestamp + " (" + seconds + "s"
    ensures NoDashRun(a4) && '\n' !in a4 && a4[|a4| - 1] == 's'
  {
    var a1 := "# Generated: " + timestamp;
    NoDashRunConcat("# Generated: ", timestamp);
    var a2 := a1 + " (";
    NoDashRunConcat(a1, " (");
    var a3 := a2 + seconds;
    NoDashRunConcat(a2, seconds);
    a4 := a3 + "s";
    NoDashRunConcat(a3, "s");
  }

  /** The text `append_response_to_file` adds: an AI marker, the statistics
      line, the stripped reply, and a fresh human marker. */
  function AppendBlock(reply: string, meta: string): (r: string)
    ensures StartsWith(r, "\n\n" + AiMarker)
    ensures EndsWith(r, HumanMarker + "\n")
  {
    var head, m, tail := "\n\n" + AiMarker, Middle(meta, Strip(reply)), HumanMarker + "\n";
    Envelope(head, m, tail);
    head + m + tail
  }

  lemma Envelope(head: string, m: string, tail: string)
    ensures StartsWith(head + m + tail, head) && EndsWith(head + m + tail, tail)
  {
    var r := head + m + tail;
    assert r[..|head|] == head;
    assert r[|r| - |tail|..] == tail;
  }

  /** The text the block puts between its two markers. */
  function Middle(meta: string, reply: string): string {
    "\n" + meta + "\n" + reply + "\n\n"
  }

  /** The AI section the appender writes cleans back to the reply: the
      statistics line is dropped and the reply kept. */
  lemma {:induction false} StatsThenReply(meta: string, reply: string)
    requires IsStatsLine(meta)
    requires Trimmed(reply) && AllClean(reply)
    ensures StripMetadata(meta + "\n" + reply) == reply
  {
    SplitAround(meta, reply, '\n');
    assert meta + "\n" + reply == meta + ['\n'] + reply;
    StripTrimmed(meta);
    assert IsMetadataLine(meta);
    var lines := Split(reply, '\n');
    assert ([meta] + lines)[1..] == lines;
    KeepSkip([meta] + lines);
    StripMetadataNoMetadata(reply);
    StripTrimmed(reply);
  }
}
