/** `parse_prompt_file`, written once for all three conversation scripts.
    The scripts differ only in their defaults table and in which keys are
    integer-or-`none`; a `Profile` carries both. */
module PromptFile {
  import opened Outcomes
  import opened Text
  import opened Numerals

  /** A configuration value as the parser stores it. Floats keep the literal
      that `float()` accepted. */
  datatype Value = IntVal(n: int) | NoneVal | NumVal(literal: string) | StrVal(text: string)

  type Config = map<string, Value>

  datatype Profile = Profile(defaults: Config, intKeys: set<string>)

  /** ollama-conversation.py: `max_tokens` and `timeout` are integer-or-`none`. */
  const OllamaProfile := Profile(
    map[
      "max_tokens" := IntVal(256),
      "temperature" := NumVal("0.7"),
      "top_p" := NumVal("0.9"),
      "server_url" := StrVal("http://localhost:11434"),
      "model_name" := StrVal("llama3.1:8b"),
      "timeout" := IntVal(180)],
    {"max_tokens", "timeout"})

  /** llama-conversation-docker.py: only `max_tokens` is integer-or-`none`. */
  const DockerProfile := Profile(
    map[
      "max_tokens" := IntVal(256),
      "temperature" := NumVal("0.7"),
      "top_p" := NumVal("0.9"),
      "server_url" := StrVal("http://localhost:2547/v1"),
      "model_name" := StrVal("llama-13b")],
    {"max_tokens"})

  /** llama-conversation.py: `max_tokens`, `n_ctx` and `n_threads`. */
  const LlamaProfile := Profile(
    map[
      "max_tokens" := IntVal(256),
      "temperature" := NumVal("0.7"),
      "top_p" := NumVal("0.9"),
      "n_ctx" := IntVal(2048),
      "n_threads" := NoneVal],
    {"max_tokens", "n_ctx", "n_threads"})

  predicate IsNumberKey(key: string) {
    key == "temperature" || key == "top_p"
  }

  /** One `key: value` header line after comment removal. */
  datatype Entry = Entry(key: string, value: string)

  /** A header line is ignored when it is blank, has no `:`, or starts with
      `#` once stripped; otherwise it splits at its first `:`, and the value
      is cut at its first `#`. */
  function ParseLine(line: string): (r: Option<Entry>)
    ensures r.None? <==> Strip(line) == "" || ':' !in Strip(line) || StartsWith(Strip(line), "#")
    ensures r.Some? ==> Trimmed(r.value.key) && ':' !in r.value.key
    ensures r.Some? ==> Trimmed(r.value.value) && '#' !in r.value.value
  {
    var t := Strip(line);
    if t == "" || ':' !in t || StartsWith(t, "#") then None
    else Some(SplitEntry(t))
  }

  /** Splits a stripped line at its first `:` and cuts the value at its
      first `#`, stripping both parts. */
  function SplitEntry(t: string): (e: Entry)
    requires ':' in t
    ensures Trimmed(e.key) && ':' !in e.key
    ensures Trimmed(e.value) && '#' !in e.value
  {
    var i := IndexOf(t, ':');
    var key := Strip(t[..i]);
    StripKeepsOut(t[..i], ':');
    Entry(key, CutComment(Strip(t[i + 1..])))
  }

  /** The text before the first `#`, stripped; the text itself when it has
      no `#`. */
  function CutComment(raw: string): (v: string)
    requires Trimmed(raw)
    ensures Trimmed(v) && '#' !in v
    ensures '#' !in raw ==> v == raw
  {
    if '#' in raw then
      var cut := raw[..IndexOf(raw, '#')];
      StripKeepsOut(cut, '#');
      Strip(cut)
    else raw
  }

  /** Writing a line as `key: value` and parsing it gives the entry back. */
  lemma ParseLineOfEntry(key: string, value: string)
    requires Trimmed(key) && ':' !in key && !StartsWith(key, "#")
    requires Trimmed(value) && '#' !in value
    ensures ParseLine(key + ": " + value) == Some(Entry(key, value))
  {
    var rest := if value == "" then "" else " " + value;
    var t := key + ":" + rest;
    LineStrips(key, value, rest);
    assert t != "" && t[|key|] == ':';
    assert !StartsWith(t, "#") by {
      if |key| > 0 {
        assert t[0] == key[0];
      }
    }
    SplitEntryOf(key, rest, value);
  }

  /** A character that is not whitespace lies inside the stripped text:
      `s` is the blank run `s[..lw]`, then `Strip(s)`, then a blank run. */
  lemma CoreAt(s: string, i: nat) returns (lw: nat)
    requires i < |s| && !IsSpace(s[i])
    ensures lw <= i < lw + |Strip(s)| <= |s|
    ensures Strip(s) == s[lw..lw + |Strip(s)|]
    ensures IsBlank(s[..lw]) && IsBlank(s[lw + |Strip(s)|..])
  {
    var lwS, rwS := StripParts(s);
    lw := |lwS|;
    var t := Strip(s);
    assert s[..lw] == lwS && s[lw..lw + |t|] == t && s[lw + |t|..] == rwS;
    assert forall j | 0 <= j < lw :: s[j] == lwS[j];
    assert forall j | lw + |t| <= j < |s| :: s[j] == rwS[j - lw - |t|];
  }

  /** The pieces of `a + [c] + b` cut at `lw`, `|a|` and `e`. */
  lemma SepSlices(a: string, b: string, c: char, lw: nat, e: nat)
    requires lw <= |a| < e <= |a| + 1 + |b|
    ensures var s := a + [c] + b;
      && s[lw..e][..|a| - lw] == a[lw..]
      && s[lw..e][|a| - lw] == c
      && s[lw..e][|a| - lw + 1..] == b[..e - |a| - 1]
      && a == s[..lw] + a[lw..]
      && b == b[..e - |a| - 1] + s[e..]
  {
  }

  /** Nothing in a suffix that is not in the whole. */
  lemma NotInSuffix(a: string, c: char, lw: nat)
    requires c !in a && lw <= |a|
    ensures c !in a[lw..]
  {
    assert forall j | 0 <= j < |a[lw..]| :: a[lw..][j] == a[lw + j];
  }

  /** Splitting a line at the first occurrence of a non-blank character
      `c` and stripping gives the same two parts whether or not the line is
      stripped first. */
  lemma FirstSep(a: string, b: string, c: char) returns (k: nat)
    requires c !in a && !IsSpace(c)
    ensures var t := Strip(a + [c] + b);
      && c in t && IndexOf(t, c) == k
      && Strip(t[..k]) == Strip(a)
      && Strip(t[k + 1..]) == Strip(b)
  {
    var s := a + [c] + b;
    assert s[|a|] == c;
    var lw := CoreAt(s, |a|);
    var t := Strip(s);
    var e := lw + |t|;
    k := |a| - lw;
    SepSlices(a, b, c, lw, e);
    NotInSuffix(a, c, lw);
    IndexOfUnique(t, c, k);
    StripPadLeft(s[..lw], a[lw..]);
    StripPadRight(b[..e - |a| - 1], s[e..]);
  }

  /** A stripped text that starts with a non-blank character starts with
      that character. */
  lemma FirstOfStrip(x: string)
    requires |x| > 0 && !IsSpace(x[0])
    ensures |Strip(x)| > 0 && Strip(x)[0] == x[0]
  {
    StripIsBoth(x);
    LStripStop(x);
    var r := RStrip(x);
    RStripBlank(x);
    assert |r| < |x| ==> x[|r|..][0] == x[|r|];
  }

  /** `ParseLine` on a line whose stripped text has its first colon at `k`. */
  lemma ParseLineAt(line: string, k: nat)
    requires ':' in Strip(line) && IndexOf(Strip(line), ':') == k
    requires !StartsWith(Strip(line), "#")
    ensures ParseLine(line) == Some(Entry(Strip(Strip(line)[..k]), CutComment(Strip(Strip(line)[k + 1..]))))
  {
  }

  /** The first character of the stripped line is the key's, or the colon
      when the key is blank. */
  lemma LineHead(t: string, k: nat, a: string)
    requires k < |t| && t[k] == ':' && Trimmed(t)
    requires Strip(t[..k]) == Strip(a) && !StartsWith(Strip(a), "#")
    ensures !StartsWith(t, "#")
  {
    assert t[..1] == [t[0]];
    if k > 0 {
      assert t[..k][0] == t[0];
      HeadNotHash(t[..k], a);
    }
  }

  lemma HeadNotHash(h: string, a: string)
    requires |h| > 0 && !IsSpace(h[0])
    requires Strip(h) == Strip(a) && !StartsWith(Strip(a), "#")
    ensures h[0] != '#'
  {
    FirstOfStrip(h);
    HashHead(Strip(a), h[0]);
  }

  lemma HashHead(x: string, c: char)
    requires |x| > 0 && x[0] == c && !StartsWith(x, "#")
    ensures c != '#'
  {
    assert x[..1] == [c];
  }

  /** The header line parser on any line with a colon: the key is the
      stripped text before the first colon, and the value is the stripped
      text after it with its inline comment cut. */
  lemma ParseLineSplit(a: string, b: string)
    requires ':' !in a && !StartsWith(Strip(a), "#")
    ensures ParseLine(a + ":" + b) == Some(Entry(Strip(a), CutComment(Strip(b))))
  {
    var s := a + ":" + b;
    assert s == a + [':'] + b;
    var k := FirstSep(a, b, ':');
    LineHead(Strip(s), k, a);
    ParseLineAt(s, k);
  }

  /** `value.split('#')[0].strip()`: the value is cut at its first `#`. */
  lemma CutCommentSplit(a: string, b: string)
    requires '#' !in a
    ensures CutComment(Strip(a + "#" + b)) == Strip(a)
  {
    assert a + "#" + b == a + ['#'] + b;
    var k := FirstSep(a, b, '#');
  }

  /** A value with no `#` is only stripped. */
  lemma CutCommentNone(a: string)
    requires '#' !in a
    ensures CutComment(Strip(a)) == Strip(a)
  {
  }

  /** Any line `a:c#d` with no colon in `a`, no `#` in `c`, and a key that
      does not start with `#`: the entry is the stripped `a` and `c`,
      whatever the spacing and the comment. */
  lemma ParseCommentedLine(a: string, c: string, d: string)
    requires ':' !in a && '#' !in c && !StartsWith(Strip(a), "#")
    ensures ParseLine(a + ":" + c + "#" + d) == Some(Entry(Strip(a), Strip(c)))
  {
    assert a + ":" + c + "#" + d == a + ":" + (c + "#" + d);
    ParseLineSplit(a, c + "#" + d);
    CutCommentSplit(c, d);
  }

  /** The same line without a comment. */
  lemma ParsePlainLine(a: string, c: string)
    requires ':' !in a && '#' !in c && !StartsWith(Strip(a), "#")
    ensures ParseLine(a + ":" + c) == Some(Entry(Strip(a), Strip(c)))
  {
    ParseLineSplit(a, c);
    CutCommentNone(c);
  }

  lemma SplitEntryOf(key: string, rest: string, value: string)
    requires Trimmed(key) && ':' !in key
    requires Trimmed(value) && '#' !in value
    requires rest == if value == "" then "" else " " + value
    ensures ':' in key + ":" + rest
    ensures SplitEntry(key + ":" + rest) == Entry(key, value)
  {
    var t := key + ":" + rest;
    ColonSplit(key, rest);
    StripTrimmed(key);
    RestStrips(rest, value);
    SplitEntryAt(t, |key|, key, value);
  }

  /** The pieces of `key:rest` around its first colon. */
  lemma ColonSplit(key: string, rest: string)
    requires ':' !in key
    ensures var t := key + ":" + rest;
      && ':' in t && IndexOf(t, ':') == |key|
      && t[..|key|] == key && t[|key| + 1..] == rest
  {
    var t := key + ":" + rest;
    assert t[|key|] == ':';
    assert t[..|key|] == key;
    IndexOfUnique(t, ':', |key|);
    assert t[|key| + 1..] == rest;
  }

  lemma SplitEntryAt(t: string, i: nat, key: string, value: string)
    requires ':' in t && IndexOf(t, ':') == i
    requires Strip(t[..i]) == key
    requires Strip(t[i + 1..]) == value && '#' !in value
    ensures SplitEntry(t) == Entry(key, value)
  {
  }

  lemma RestStrips(rest: string, value: string)
    requires Trimmed(value)
    requires rest == if value == "" then "" else " " + value
    ensures Strip(rest) == value
  {
    if value == "" {
      StripTrimmed(rest);
    } else {
      assert rest == " " + value + "";
      assert IsBlank(" ") && IsBlank("");
      StripUnique(" ", value, "");
    }
  }

  lemma LineStrips(key: string, value: string, rest: string)
    requires Trimmed(key) && Trimmed(value)
    requires rest == if value == "" then "" else " " + value
    ensures Strip(key + ": " + value) == key + ":" + rest
  {
    var t := key + ":" + rest;
    if value == "" {
      assert key + ": " + value == "" + (key + ":") + " ";
      KeyColonTrimmed(key);
      StripUnique("", key + ":", " ");
    } else {
      assert key + ": " + value == t;
      LineTrimmed(key, value);
      StripTrimmed(t);
    }
  }

  lemma KeyColonTrimmed(key: string)
    requires Trimmed(key)
    ensures Trimmed(key + ":")
  {
    var t := key + ":";
    assert t[|t| - 1] == ':';
    if key != "" {
      assert t[0] == key[0];
    }
  }

  lemma LineTrimmed(key: string, value: string)
    requires Trimmed(key) && Trimmed(value) && value != ""
    ensures Trimmed(key + ": " + value)
  {
    var t := key + ": " + value;
    assert t[|t| - 1] == value[|value| - 1];
    if key != "" {
      assert t[0] == key[0];
    } else {
      assert t[0] == ':';
    }
  }

  /** The `key: value` entries of the header lines, in order. */
  function Entries(lines: seq<string>): seq<Entry>
    decreases |lines|
  {
    if |lines| == 0 then []
    else
      match ParseLine(lines[0])
      case None => Entries(lines[1..])
      case Some(e) => [e] + Entries(lines[1..])
  }

  function HeaderEntries(header: string): seq<Entry> {
    Entries(Split(Strip(header), '\n'))
  }

  /** The typing rule: integer keys take `none` (any case) or an integer,
      `temperature` and `top_p` take a float literal, anything else is kept
      verbatim. A value that fails its conversion raises in the source. */
  function Convert(p: Profile, key: string, text: string): Result<Value> {
    if key in p.intKeys then
      if IsNoneWord(text) then Ok(NoneVal)
      else
        match ParseInt(text)
        case Some(n) => Ok(IntVal(n))
        case None => Err(BadInteger(key, text))
    else if IsNumberKey(key) then
      if IsFloatLiteral(text) then Ok(NumVal(text)) else Err(BadNumber(key, text))
    else Ok(StrVal(text))
  }

  /** Stores the entries over `cfg` left to right; the first bad value aborts. */
  function ApplyEntries(p: Profile, cfg: Config, es: seq<Entry>): Result<Config>
    decreases |es|
  {
    if |es| == 0 then Ok(cfg)
    else
      var v :- Convert(p, es[0].key, es[0].value);
      ApplyEntries(p, cfg[es[0].key := v], es[1..])
  }

  /** The header part of `parse_prompt_file`: defaults overlaid with the
      header's entries. */
  function ParseHeader(p: Profile, header: string): Result<Config> {
    ApplyEntries(p, p.defaults, HeaderEntries(header))
  }

  /** The value text of the last entry for `key`, if any. */
  function LastValue(es: seq<Entry>, key: string): Option<string>
    decreases |es|
  {
    if |es| == 0 then None
    else
      match LastValue(es[1..], key)
      case Some(v) => Some(v)
      case None => if es[0].key == key then Some(es[0].value) else None
  }

  predicate AllConvert(p: Profile, es: seq<Entry>) {
    forall i :: 0 <= i < |es| ==> Convert(p, es[i].key, es[i].value).Ok?
  }

  lemma {:induction false} ApplyEntriesOk(p: Profile, cfg: Config, es: seq<Entry>)
    ensures ApplyEntries(p, cfg, es).Ok? <==> AllConvert(p, es)
    decreases |es|
  {
    if |es| > 0 {
      var e := es[0];
      match Convert(p, e.key, e.value)
      case Err(_) =>
        assert !AllConvert(p, es);
      case Ok(v) =>
        ApplyEntriesOk(p, cfg[e.key := v], es[1..]);
        if AllConvert(p, es[1..]) {
          forall i | 0 <= i < |es|
            ensures Convert(p, es[i].key, es[i].value).Ok?
          {
            if i > 0 {
              assert es[i] == es[1..][i - 1];
            }
          }
        }
        if AllConvert(p, es) {
          forall i | 0 <= i < |es[1..]|
            ensures Convert(p, es[1..][i].key, es[1..][i].value).Ok?
          {
            assert es[1..][i] == es[i + 1];
          }
        }
    }
  }

  /** What a successful pass stores under one key: the converted last entry
      for it, or else what `cfg` held. */
  lemma {:induction false} ApplyEntriesAt(p: Profile, cfg: Config, es: seq<Entry>, k: string)
    requires ApplyEntries(p, cfg, es).Ok?
    ensures k in ApplyEntries(p, cfg, es).value <==> k in cfg || LastValue(es, k).Some?
    ensures LastValue(es, k).Some? ==>
      Convert(p, k, LastValue(es, k).value) == Ok(ApplyEntries(p, cfg, es).value[k])
    ensures LastValue(es, k).None? && k in cfg ==> ApplyEntries(p, cfg, es).value[k] == cfg[k]
    decreases |es|
  {
    if |es| > 0 {
      var e := es[0];
      var v := Convert(p, e.key, e.value).value;
      ApplyEntriesAt(p, cfg[e.key := v], es[1..], k);
    }
  }

  /** Every key of the parsed header: a header entry overrides the default,
      the last entry for a key wins, an absent key keeps its default. */
  lemma HeaderAt(p: Profile, header: string, k: string)
    requires ParseHeader(p, header).Ok?
    ensures k in ParseHeader(p, header).value <==>
      k in p.defaults || LastValue(HeaderEntries(header), k).Some?
    ensures LastValue(HeaderEntries(header), k).Some? ==>
      Convert(p, k, LastValue(HeaderEntries(header), k).value) == Ok(ParseHeader(p, header).value[k])
    ensures LastValue(HeaderEntries(header), k).None? && k in p.defaults ==>
      ParseHeader(p, header).value[k] == p.defaults[k]
  {
    ApplyEntriesAt(p, p.defaults, HeaderEntries(header), k);
  }

  /** The header fails exactly when some entry's value fails its type. */
  lemma HeaderOk(p: Profile, header: string)
    ensures ParseHeader(p, header).Ok? <==> AllConvert(p, HeaderEntries(header))
  {
    ApplyEntriesOk(p, p.defaults, HeaderEntries(header));
  }

  /** An integer-typed key always ends up an integer or `None`, whatever the
      header says, provided its default is one. */
  lemma IntKeyStaysInteger(p: Profile, header: string, key: string)
    requires key in p.intKeys && key in p.defaults
    requires p.defaults[key].IntVal? || p.defaults[key].NoneVal?
    requires ParseHeader(p, header).Ok?
    ensures key in ParseHeader(p, header).value
    ensures ParseHeader(p, header).value[key].IntVal? || ParseHeader(p, header).value[key].NoneVal?
  {
    HeaderAt(p, header, key);
    match LastValue(HeaderEntries(header), key)
    case None =>
    case Some(text) =>
      ConvertIntKey(p, key, text);
  }

  lemma ConvertIntKey(p: Profile, key: string, text: string)
    requires key in p.intKeys
    ensures Convert(p, key, text).Ok? ==>
      Convert(p, key, text).value.IntVal? || Convert(p, key, text).value.NoneVal?
  {
  }

  /** A key outside the integer and number keys is stored as the text given. */
  lemma OtherKeyIsText(p: Profile, header: string, key: string)
    requires key !in p.intKeys && !IsNumberKey(key)
    requires ParseHeader(p, header).Ok?
    requires LastValue(HeaderEntries(header), key).Some?
    ensures key in ParseHeader(p, header).value
    ensures ParseHeader(p, header).value[key] == StrVal(LastValue(HeaderEntries(header), key).value)
  {
    HeaderAt(p, header, key);
  }

  /** `max_tokens` is integer-or-`none` under every script's parser. */
  lemma MaxTokensTyped(p: Profile, header: string)
    requires p == OllamaProfile || p == DockerProfile || p == LlamaProfile
    requires ParseHeader(p, header).Ok?
    ensures "max_tokens" in ParseHeader(p, header).value
    ensures ParseHeader(p, header).value["max_tokens"].IntVal?
      || ParseHeader(p, header).value["max_tokens"].NoneVal?
  {
    MaxTokensDeclared(p);
    IntKeyStaysInteger(p, header, "max_tokens");
  }

  lemma MaxTokensDeclared(p: Profile)
    requires p == OllamaProfile || p == DockerProfile || p == LlamaProfile
    ensures "max_tokens" in p.intKeys && "max_tokens" in p.defaults
    ensures p.defaults["max_tokens"] == IntVal(256)
  {
  }

  /** An integer key reads `none` in any letter case as `None` and reads back
      any rendered integer; the docker script's `timeout` is not an integer
      key, so it stays text. */
  lemma ConvertIntegerKeys(p: Profile, key: string, n: int, t: string)
    requires key in p.intKeys
    ensures Convert(p, key, IntToDecimal(n)) == Ok(IntVal(n))
    ensures Convert(p, key, t) == Ok(NoneVal) <==> IsNoneWord(t)
    ensures Convert(p, key, "NoNe") == Ok(NoneVal)
    ensures Convert(DockerProfile, "timeout", IntToDecimal(n)) == Ok(StrVal(IntToDecimal(n)))
  {
    ParseIntOfDecimal(n);
    assert !IsNoneWord(IntToDecimal(n)) by {
      if n >= 0 {
        assert IsDigit(IntToDecimal(n)[0]);
      }
    }
  }

  /** The file split at the first `---`: header text and raw conversation. */
  function SplitDocument(content: string): (r: Option<(string, string)>)
    ensures r.None? <==> !Contains(content, "---")
    ensures r.Some? ==> content == r.value.0 + "---" + r.value.1
    ensures r.Some? ==> !Contains(r.value.0, "---")
    ensures r.Some? ==> forall j :: 0 <= j < |r.value.0| ==> !OccursAt(content, "---", j)
  {
    match Find(content, "---")
    case None => None
    case Some(i) =>
      var header := content[..i];
      assert forall j :: OccursAt(header, "---", j) ==> OccursAt(content, "---", j) by {
        forall j | OccursAt(header, "---", j)
          ensures OccursAt(content, "---", j)
        {
          assert header[j..j + 3] == content[j..j + 3];
        }
      }
      assert content == header + "---" + content[i + 3..];
      Some((header, content[i + 3..]))
  }

  /** What `parse_prompt_file` returns: the configuration and the stripped
      conversation text. */
  datatype Document = Document(config: Config, conversation: string)

  function ParsePromptFile(p: Profile, content: string): (r: Result<Document>)
    ensures !Contains(content, "---") ==> r == Err(MissingSeparator)
    ensures Contains(content, "---") ==>
      var (header, rest) := SplitDocument(content).value;
      && (ParseHeader(p, header).Err? ==> r == Err(ParseHeader(p, header).error))
      && (ParseHeader(p, header).Ok? ==> r == Ok(Document(ParseHeader(p, header).value, Strip(rest))))
  {
    match SplitDocument(content)
    case None => Err(MissingSeparator)
    case Some((header, rest)) =>
      var config :- ParseHeader(p, header);
      Ok(Document(config, Strip(rest)))
  }

  /** Appending to a file that has a separator keeps its header, so the
      configuration is unchanged and the raw conversation grows by the tail. */
  lemma SplitDocumentExtended(content: string, tail: string)
    requires Contains(content, "---")
    ensures SplitDocument(content + tail)
      == Some((SplitDocument(content).value.0, SplitDocument(content).value.1 + tail))
  {
    FindExtended(content, tail, "---");
    var i := Find(content, "---").value;
    assert (content + tail)[i + 3..] == content[i + 3..] + tail;
    assert (content + tail)[..i] == content[..i];
  }
}
