/** The batch monitor: one sweep over a directory finds the `*.prompt`
    files, waits for each to stop growing, runs the docker conversation
    script on it and renames it to `.complete` or `.error`. The directory is
    a listing plus a name-to-content map; the two size samples, the child
    process's exit and the outcome of each rename are oracle inputs. */
module Monitor {
  import opened Outcomes
  import opened Text

  const PromptSuffix := ".prompt"
  const CompleteSuffix := ".complete"
  const ErrorSuffix := ".error"

  /** A directory: its entries in the order the operating system lists
      them, and the content of each. */
  datatype Dir = Dir(names: seq<string>, content: map<string, string>)

  predicate Distinct(s: seq<string>) {
    forall i, j :: 0 <= i < j < |s| ==> s[i] != s[j]
  }

  /** The listing names every entry exactly once. */
  predicate Valid(d: Dir) {
    && Distinct(d.names)
    && (forall n :: n in d.names ==> n in d.content)
    && (forall n :: n in d.content ==> n in d.names)
  }

  // ---------------------------------------------------------------------
  // Discovery

  /** What the pattern `*.prompt` matches: a name ending in `.prompt`
      whose first character is not a dot, since a leading wildcard never
      matches a hidden name. */
  predicate IsPromptName(n: string) {
    EndsWith(n, PromptSuffix) && n[0] != '.'
  }

  /** The glob: the matching entries, in listing order. */
  function Glob(names: seq<string>): seq<string> {
    if names == [] then []
    else (if IsPromptName(names[0]) then [names[0]] else []) + Glob(names[1..])
  }

  /** The second filter, which drops names ending in `.prompt.complete`. */
  function DropCompleted(names: seq<string>): seq<string> {
    if names == [] then []
    else
      var keep := if EndsWith(names[0], PromptSuffix + CompleteSuffix) then [] else [names[0]];
      keep + DropCompleted(names[1..])
  }

  function FindPromptFiles(d: Dir): seq<string> {
    DropCompleted(Glob(d.names))
  }

  lemma {:induction false} GlobIff(names: seq<string>, n: string)
    ensures n in Glob(names) <==> n in names && IsPromptName(n)
    decreases |names|
  {
    if names != [] {
      GlobIff(names[1..], n);
      assert names == [names[0]] + names[1..];
    }
  }

  lemma {:induction false} GlobDistinct(names: seq<string>)
    requires Distinct(names)
    ensures Distinct(Glob(names))
    decreases |names|
  {
    if names != [] {
      TailDistinct(names);
      GlobDistinct(names[1..]);
      GlobIff(names[1..], names[0]);
      if IsPromptName(names[0]) {
        ConsDistinct(names[0], Glob(names[1..]));
      } else {
        assert Glob(names) == Glob(names[1..]);
      }
    }
  }

  lemma TailDistinct(s: seq<string>)
    requires Distinct(s) && s != []
    ensures Distinct(s[1..]) && s[0] !in s[1..]
  {
    forall i, j | 0 <= i < j < |s[1..]|
      ensures s[1..][i] != s[1..][j]
    {
      assert s[1..][i] == s[i + 1] && s[1..][j] == s[j + 1];
    }
    forall k | 0 <= k < |s[1..]|
      ensures s[1..][k] != s[0]
    {
      assert s[1..][k] == s[k + 1];
    }
  }

  lemma ConsDistinct(a: string, s: seq<string>)
    requires a !in s && Distinct(s)
    ensures Distinct([a] + s)
  {
    var t := [a] + s;
    forall i, j | 0 <= i < j < |t|
      ensures t[i] != t[j]
    {
      assert t[j] == s[j - 1];
      if i > 0 {
        assert t[i] == s[i - 1];
      }
    }
  }

  /** The last character of a string that ends with a nonempty suffix. */
  lemma LastOfSuffix(s: string, p: string)
    requires EndsWith(s, p) && p != []
    ensures s[|s| - 1] == p[|p| - 1]
  {
    assert s[|s| - |p|..][|p| - 1] == s[|s| - 1];
  }

  /** A name that ends in `.prompt` cannot end in `.prompt.complete`, so
      the second filter never removes anything the glob returned. */
  lemma PromptNameNotCompleted(n: string)
    requires EndsWith(n, PromptSuffix)
    ensures !EndsWith(n, PromptSuffix + CompleteSuffix)
  {
    var pc := PromptSuffix + CompleteSuffix;
    LastOfSuffix(n, PromptSuffix);
    if |pc| <= |n| {
      assert n[|n| - |pc|..][|pc| - 1] == n[|n| - 1];
    }
  }

  lemma {:induction false} DropCompletedInert(names: seq<string>)
    requires forall i :: 0 <= i < |names| ==> EndsWith(names[i], PromptSuffix)
    ensures DropCompleted(names) == names
    decreases |names|
  {
    if names != [] {
      PromptNameNotCompleted(names[0]);
      DropCompletedInert(names[1..]);
    }
  }

  lemma {:induction false} GlobMatches(names: seq<string>)
    ensures forall i :: 0 <= i < |Glob(names)| ==> IsPromptName(Glob(names)[i])
  {
    forall i | 0 <= i < |Glob(names)|
      ensures IsPromptName(Glob(names)[i])
    {
      GlobIff(names, Glob(names)[i]);
    }
  }

  /** Discovery returns exactly the listed entries the pattern matches, in
      listing order, each once; none ends in `.prompt.complete`. */
  lemma DiscoverySound(d: Dir, n: string)
    requires Valid(d)
    ensures FindPromptFiles(d) == Glob(d.names)
    ensures n in FindPromptFiles(d) <==> n in d.content && IsPromptName(n)
    ensures n in FindPromptFiles(d) ==> !EndsWith(n, PromptSuffix + CompleteSuffix)
    ensures Distinct(FindPromptFiles(d))
  {
    GlobMatches(d.names);
    DropCompletedInert(Glob(d.names));
    GlobIff(d.names, n);
    GlobDistinct(d.names);
    if IsPromptName(n) {
      PromptNameNotCompleted(n);
    }
  }

  // ---------------------------------------------------------------------
  // One file

  /** The two size samples taken a fixed delay apart; the stat call can
      fail, for example when the file has gone. */
  datatype Sample = Sizes(before: nat, after: nat) | StatFailed

  /** A file is ready when both samples succeed and agree. */
  predicate IsFileReady(s: Sample) {
    match s
    case Sizes(before, after) => before == after
    case StatFailed => false
  }

  /** How the child process running the conversation script ended. */
  datatype ChildRun = Exited(code: int) | TimedOut | Raised

  /** The child's run counts as a success only on exit code 0; a timeout or
      an exception starting it counts as a failure. */
  function ProcessPromptFile(run: ChildRun): (ok: bool)
    ensures ok <==> run == Exited(0)
  {
    match run
    case Exited(code) => code == 0
    case TimedOut => false
    case Raised => false
  }

  function Target(n: string, success: bool): string {
    n + (if success then CompleteSuffix else ErrorSuffix)
  }

  /** The names of a listing other than `x`. */
  function Without(s: seq<string>, x: string): (r: seq<string>)
    ensures forall n :: n in r <==> n in s && n != x
  {
    if s == [] then []
    else
      var rest := Without(s[1..], x);
      assert forall n :: n in s <==> n == s[0] || n in s[1..];
      if s[0] == x then rest else [s[0]] + rest
  }

  lemma {:induction false} WithoutDistinct(s: seq<string>, x: string)
    requires Distinct(s)
    ensures Distinct(Without(s, x))
    decreases |s|
  {
    if s != [] {
      TailDistinct(s);
      WithoutDistinct(s[1..], x);
      if s[0] != x {
        ConsDistinct(s[0], Without(s[1..], x));
      }
    }
  }

  /** `os.rename`: the source leaves, the target takes its content
      (replacing any entry of that name). */
  function Rename(d: Dir, src: string, dst: string): Dir
    requires src in d.content
  {
    Dir(Without(d.names, src) + (if dst in d.content then [] else [dst]),
        (d.content - {src})[dst := d.content[src]])
  }

  /** The script's own writes: once the child has exited, the file holds
      `text` (the script appends its reply block, or leaves the file as it
      was). A file that has gone stays gone. */
  function AfterRun(d: Dir, n: string, text: string): (r: Dir)
    ensures r.names == d.names && r.content.Keys == d.content.Keys
    ensures n in d.content ==> r.content[n] == text
    ensures forall m :: m in d.content && m != n ==> r.content[m] == d.content[m]
  {
    if n in d.content then Dir(d.names, d.content[n := text]) else d
  }

  lemma AfterRunValid(d: Dir, n: string, text: string)
    requires Valid(d)
    ensures Valid(AfterRun(d, n, text))
  {
  }

  datatype Marked = Marked(newName: Option<string>, dir: Dir)

  /** Rename a processed file to `name.complete` or `name.error`. The
      rename fails when the file has gone or the oracle says so, and then
      nothing changes. */
  function MarkAsComplete(d: Dir, n: string, success: bool, renameOk: bool): (r: Marked)
    ensures r.newName.Some? <==> renameOk && n in d.content
    ensures r.newName.Some? ==> r.newName.value == n + (if success then ".complete" else ".error")
    ensures r.newName.None? ==> r.dir == d
  {
    if renameOk && n in d.content then Marked(Some(Target(n, success)), Rename(d, n, Target(n, success)))
    else Marked(None, d)
  }

  /** A target name never matches the pattern, so a renamed file is not
      discovered again. */
  lemma TargetNotPrompt(n: string, success: bool)
    ensures !IsPromptName(Target(n, success))
  {
    var t := Target(n, success);
    LastOfSuffix(t, if success then CompleteSuffix else ErrorSuffix);
    if |PromptSuffix| <= |t| {
      assert t[|t| - |PromptSuffix|..][|PromptSuffix| - 1] == t[|t| - 1];
    }
  }

  /** A successful rename moves the content to the new name, removes the
      old name and leaves every other entry as it was. */
  lemma {:induction false} RenameFrame(d: Dir, n: string, success: bool, renameOk: bool, m: string)
    requires Valid(d)
    requires MarkAsComplete(d, n, success, renameOk).newName.Some?
    ensures var r := MarkAsComplete(d, n, success, renameOk);
      && Valid(r.dir)
      && n !in r.dir.content
      && r.newName.value in r.dir.content
      && r.dir.content[r.newName.value] == d.content[n]
      && (m != n && m != r.newName.value ==>
            (m in r.dir.content <==> m in d.content)
            && (m in d.content ==> r.dir.content[m] == d.content[m]))
  {
    var t := Target(n, success);
    var d' := Rename(d, n, t);
    assert t != n by {
      assert |t| > |n|;
    }
    forall x
      ensures x in d'.names <==> x in d'.content
    {
    }
    RenameDistinct(d, n, t);
  }

  lemma {:induction false} RenameDistinct(d: Dir, src: string, dst: string)
    requires Valid(d) && src in d.content && src != dst
    ensures Distinct(Rename(d, src, dst).names)
  {
    var w := Without(d.names, src);
    WithoutDistinct(d.names, src);
    if dst !in d.content {
      assert dst !in w;
      var s := w + [dst];
      forall i, j | 0 <= i < j < |s|
        ensures s[i] != s[j]
      {
        if j == |w| {
          assert s[i] in w;
        }
      }
    }
  }

  // ---------------------------------------------------------------------
  // The sweep

  /** What the outside world does to one discovered file in this sweep:
      the two size samples, how the child ended, what the file holds once
      the child has exited, and whether the rename succeeds. */
  datatype Observation = Observation(sample: Sample, run: ChildRun, written: string, renameOk: bool)

  /** What the sweep did with one discovered file: skipped it as still
      being written, reported it in a dry run, or ran the script on it and
      tried one rename. */
  datatype Action =
    | Skipped(name: string)
    | WouldProcess(name: string)
    | Processed(name: string, success: bool, newName: Option<string>)

  /** One file's turn in the sweep: the action taken, whether it adds to
      the count, and the directory afterwards. */
  datatype Visit = Visit(action: Action, counted: bool, dir: Dir)

  function VisitFile(d: Dir, n: string, dryRun: bool, o: Observation): (v: Visit)
    ensures v.action.name == n
    ensures v.action.Skipped? <==> !IsFileReady(o.sample)
    ensures v.action.WouldProcess? <==> IsFileReady(o.sample) && dryRun
    ensures v.action.Processed? ==> v.action.success == (o.run == Exited(0))
    ensures v.counted <==> v.action.WouldProcess? || (v.action.Processed? && v.action.newName.Some?)
    ensures !v.action.Processed? ==> v.dir == d
    ensures v.action.Processed? && v.action.newName.None? ==> v.dir == AfterRun(d, n, o.written)
  {
    if !IsFileReady(o.sample) then Visit(Skipped(n), false, d)
    else if dryRun then Visit(WouldProcess(n), true, d)
    else
      var success := ProcessPromptFile(o.run);
      var m := MarkAsComplete(AfterRun(d, n, o.written), n, success, o.renameOk);
      Visit(Processed(n, success, m.newName), m.newName.Some?, m.dir)
  }

  datatype Outcome = Outcome(dir: Dir, count: nat, trace: seq<Action>)

  /** The sweep over a list of discovered names, as a reference for the
      loop in `ProcessDirectory`. */
  function Sweep(d: Dir, jobs: seq<string>, dryRun: bool, obs: string -> Observation): Outcome
    decreases |jobs|
  {
    if jobs == [] then Outcome(d, 0, [])
    else
      var v := VisitFile(d, jobs[0], dryRun, obs(jobs[0]));
      var rest := Sweep(v.dir, jobs[1..], dryRun, obs);
      Outcome(rest.dir, rest.count + (if v.counted then 1 else 0), [v.action] + rest.trace)
  }

  /** The action a sweep must take for one file: skip it unless ready;
      otherwise report it in a dry run, or process it with the child's
      verdict as the rename's success flag. */
  predicate Fits(a: Action, n: string, dryRun: bool, obs: string -> Observation) {
    && a.name == n
    && (a.Skipped? <==> !IsFileReady(obs(n).sample))
    && (a.WouldProcess? <==> IsFileReady(obs(n).sample) && dryRun)
    && (a.Processed? ==> a.success == ProcessPromptFile(obs(n).run))
  }

  predicate IsCounted(a: Action) {
    a.WouldProcess? || (a.Processed? && a.newName.Some?)
  }

  /** Files the sweep counts: each one a dry run reports, each one whose
      rename succeeded. */
  function Counted(trace: seq<Action>): nat {
    if trace == [] then 0
    else (if IsCounted(trace[0]) then 1 else 0) + Counted(trace[1..])
  }

  function Renames(trace: seq<Action>): nat {
    if trace == [] then 0
    else (if trace[0].Processed? && trace[0].newName.Some? then 1 else 0) + Renames(trace[1..])
  }

  function ReadyCount(jobs: seq<string>, obs: string -> Observation): nat {
    if jobs == [] then 0
    else (if IsFileReady(obs(jobs[0]).sample) then 1 else 0) + ReadyCount(jobs[1..], obs)
  }

  /** One action per discovered file, in discovery order, each the one the
      file's observation calls for; the count is the number of counted
      actions. */
  lemma {:induction false} SweepTrace(d: Dir, jobs: seq<string>, dryRun: bool, obs: string -> Observation)
    ensures var r := Sweep(d, jobs, dryRun, obs);
      && |r.trace| == |jobs|
      && (forall i :: 0 <= i < |jobs| ==> Fits(r.trace[i], jobs[i], dryRun, obs))
      && r.count == Counted(r.trace)
    decreases |jobs|
  {
    if jobs != [] {
      var v := VisitFile(d, jobs[0], dryRun, obs(jobs[0]));
      SweepTrace(v.dir, jobs[1..], dryRun, obs);
      var r, rest := Sweep(d, jobs, dryRun, obs), Sweep(v.dir, jobs[1..], dryRun, obs);
      assert r.trace == [v.action] + rest.trace;
      assert r.trace[1..] == rest.trace;
      forall i | 0 <= i < |jobs|
        ensures Fits(r.trace[i], jobs[i], dryRun, obs)
      {
        if i > 0 {
          assert r.trace[i] == rest.trace[i - 1];
          assert jobs[i] == jobs[1..][i - 1];
        }
      }
    }
  }

  lemma {:induction false} CountedBound(trace: seq<Action>)
    ensures Counted(trace) <= |trace|
    decreases |trace|
  {
    if trace != [] {
      CountedBound(trace[1..]);
    }
  }

  /** Without `WouldProcess` actions, the counted files are the renamed
      ones. */
  lemma {:induction false} CountedRenames(trace: seq<Action>)
    requires forall i :: 0 <= i < |trace| ==> !trace[i].WouldProcess?
    ensures Counted(trace) == Renames(trace)
    decreases |trace|
  {
    if trace != [] {
      assert !trace[0].WouldProcess?;
      forall i | 0 <= i < |trace[1..]|
        ensures !trace[1..][i].WouldProcess?
      {
        assert trace[1..][i] == trace[i + 1];
      }
      CountedRenames(trace[1..]);
    }
  }

  /** The sweep counts at most the files it discovered; outside a dry run
      it counts exactly the files whose rename succeeded. */
  lemma SweepCount(d: Dir, jobs: seq<string>, dryRun: bool, obs: string -> Observation)
    ensures Sweep(d, jobs, dryRun, obs).count <= |jobs|
    ensures !dryRun ==> Sweep(d, jobs, dryRun, obs).count == Renames(Sweep(d, jobs, dryRun, obs).trace)
  {
    var r := Sweep(d, jobs, dryRun, obs);
    SweepTrace(d, jobs, dryRun, obs);
    CountedBound(r.trace);
    if !dryRun {
      forall i | 0 <= i < |r.trace|
        ensures !r.trace[i].WouldProcess?
      {
        assert Fits(r.trace[i], jobs[i], dryRun, obs);
      }
      CountedRenames(r.trace);
    }
  }

  /** A dry run renames nothing and counts the files that are ready. */
  lemma {:induction false} DryRunSweep(d: Dir, jobs: seq<string>, obs: string -> Observation)
    ensures Sweep(d, jobs, true, obs).dir == d
    ensures Sweep(d, jobs, true, obs).count == ReadyCount(jobs, obs)
    decreases |jobs|
  {
    if jobs != [] {
      DryRunSweep(d, jobs[1..], obs);
    }
  }

  /** Whether the sweep runs the script on `n`: it is one of the jobs, it
      is ready, and this is not a dry run. */
  predicate RanOn(jobs: seq<string>, dryRun: bool, obs: string -> Observation, n: string) {
    n in jobs && IsFileReady(obs(n).sample) && !dryRun
  }

  /** One visit keeps the listing valid and never creates an entry with a
      prompt name; the only one it can rewrite is the visited file, which
      then holds what the script left in it. */
  lemma VisitFrame(d: Dir, m: string, dryRun: bool, o: Observation, n: string)
    requires Valid(d)
    ensures var v := VisitFile(d, m, dryRun, o);
      && Valid(v.dir)
      && (IsPromptName(n) && n in v.dir.content ==>
            && n in d.content
            && v.dir.content[n] == if n == m && IsFileReady(o.sample) && !dryRun then o.written else d.content[n])
  {
    var v := VisitFile(d, m, dryRun, o);
    if v.action.Processed? {
      var ran := AfterRun(d, m, o.written);
      AfterRunValid(d, m, o.written);
      if v.action.newName.Some? {
        var success := ProcessPromptFile(o.run);
        RenameFrame(ran, m, success, o.renameOk, n);
        TargetNotPrompt(m, success);
      }
    }
  }

  /** Entries with prompt names are never created by a sweep, and the
      listing stays valid. A prompt file that is still there afterwards
      holds what the script left in it if the sweep ran the script on it
      (its rename failed), and its old content otherwise. */
  lemma {:induction false} SweepPromptEntries(d: Dir, jobs: seq<string>, dryRun: bool, obs: string -> Observation, n: string)
    requires Valid(d)
    ensures var r := Sweep(d, jobs, dryRun, obs);
      && Valid(r.dir)
      && (IsPromptName(n) && n in r.dir.content ==>
            && n in d.content
            && r.dir.content[n] == if RanOn(jobs, dryRun, obs, n) then obs(n).written else d.content[n])
    decreases |jobs|
  {
    if jobs != [] {
      var v := VisitFile(d, jobs[0], dryRun, obs(jobs[0]));
      VisitFrame(d, jobs[0], dryRun, obs(jobs[0]), n);
      SweepPromptEntries(v.dir, jobs[1..], dryRun, obs, n);
      assert n in jobs <==> n == jobs[0] || n in jobs[1..];
    }
  }

  /** A file that is still being written is neither processed nor renamed:
      it keeps its name and its content. */
  lemma {:induction false} UnstableUntouched(d: Dir, jobs: seq<string>, dryRun: bool, obs: string -> Observation, n: string)
    requires Valid(d)
    requires IsPromptName(n) && n in d.content && !IsFileReady(obs(n).sample)
    ensures n in Sweep(d, jobs, dryRun, obs).dir.content
    ensures Sweep(d, jobs, dryRun, obs).dir.content[n] == d.content[n]
    decreases |jobs|
  {
    if jobs != [] {
      var m := jobs[0];
      var v := VisitFile(d, m, dryRun, obs(m));
      VisitFrame(d, m, dryRun, obs(m), n);
      UnstableUntouched(v.dir, jobs[1..], dryRun, obs, n);
    }
  }

  /** A file the sweep renamed is gone from the directory afterwards. */
  lemma {:induction false} RenamedGone(d: Dir, jobs: seq<string>, dryRun: bool, obs: string -> Observation, i: int)
    requires Valid(d)
    requires forall k :: 0 <= k < |jobs| ==> IsPromptName(jobs[k])
    requires 0 <= i < |jobs| && i < |Sweep(d, jobs, dryRun, obs).trace|
    requires Sweep(d, jobs, dryRun, obs).trace[i].Processed?
    requires Sweep(d, jobs, dryRun, obs).trace[i].newName.Some?
    ensures jobs[i] !in Sweep(d, jobs, dryRun, obs).dir.content
    decreases |jobs|
  {
    var m := jobs[0];
    var v := VisitFile(d, m, dryRun, obs(m));
    var r, rest := Sweep(d, jobs, dryRun, obs), Sweep(v.dir, jobs[1..], dryRun, obs);
    assert r.trace == [v.action] + rest.trace;
    VisitFrame(d, m, dryRun, obs(m), m);
    if i == 0 {
      AfterRunValid(d, m, obs(m).written);
      RenameFrame(AfterRun(d, m, obs(m).written), m, v.action.success, obs(m).renameOk, m);
      SweepPromptEntries(v.dir, jobs[1..], dryRun, obs, m);
    } else {
      assert rest.trace[i - 1] == r.trace[i];
      assert jobs[1..][i - 1] == jobs[i];
      forall k | 0 <= k < |jobs[1..]|
        ensures IsPromptName(jobs[1..][k])
      {
        assert jobs[1..][k] == jobs[k + 1];
      }
      RenamedGone(v.dir, jobs[1..], dryRun, obs, i - 1);
    }
  }

  // ---------------------------------------------------------------------
  // process_directory

  /** Sweeping the rest of the list after a visit. */
  lemma SweepUnfold(d: Dir, jobs: seq<string>, i: int, dryRun: bool, obs: string -> Observation)
    requires 0 <= i < |jobs|
    ensures var v := VisitFile(d, jobs[i], dryRun, obs(jobs[i]));
      var rest := Sweep(v.dir, jobs[i + 1..], dryRun, obs);
      Sweep(d, jobs[i..], dryRun, obs)
        == Outcome(rest.dir, rest.count + (if v.counted then 1 else 0), [v.action] + rest.trace)
  {
    assert jobs[i..][0] == jobs[i] && jobs[i..][1..] == jobs[i + 1..];
  }

  /** The predicate the sweep loop keeps: what is done so far, followed by
      the sweep of the remaining names, is the sweep of all of them. */
  ghost predicate SweptUpTo(d: Dir, jobs: seq<string>, i: int, dryRun: bool, obs: string -> Observation,
                            dir: Dir, count: nat, trace: seq<Action>)
    requires 0 <= i <= |jobs|
  {
    var rest := Sweep(dir, jobs[i..], dryRun, obs);
    Sweep(d, jobs, dryRun, obs) == Outcome(rest.dir, count + rest.count, trace + rest.trace)
  }

  lemma SweptStep(d: Dir, jobs: seq<string>, i: int, dryRun: bool, obs: string -> Observation,
                  dir: Dir, count: nat, trace: seq<Action>)
    requires 0 <= i < |jobs|
    requires SweptUpTo(d, jobs, i, dryRun, obs, dir, count, trace)
    ensures var v := VisitFile(dir, jobs[i], dryRun, obs(jobs[i]));
      SweptUpTo(d, jobs, i + 1, dryRun, obs, v.dir, count + (if v.counted then 1 else 0), trace + [v.action])
  {
    var v := VisitFile(dir, jobs[i], dryRun, obs(jobs[i]));
    SweepUnfold(dir, jobs, i, dryRun, obs);
    var rest := Sweep(v.dir, jobs[i + 1..], dryRun, obs);
    assert trace + ([v.action] + rest.trace) == (trace + [v.action]) + rest.trace;
  }

  /** The loop over the discovered names: for each in turn, check that it
      is ready, run the script on it and rename it. */
  method SweepJobs(d: Dir, jobs: seq<string>, dryRun: bool, obs: string -> Observation) returns (r: Outcome)
    ensures r == Sweep(d, jobs, dryRun, obs)
  {
    var dir, count, trace := d, 0, [];
    var i := 0;
    assert jobs[0..] == jobs;
    while i < |jobs|
      invariant 0 <= i <= |jobs|
      invariant SweptUpTo(d, jobs, i, dryRun, obs, dir, count, trace)
    {
      var v := VisitFile(dir, jobs[i], dryRun, obs(jobs[i]));
      SweptStep(d, jobs, i, dryRun, obs, dir, count, trace);
      trace := trace + [v.action];
      if v.counted {
        count := count + 1;
      }
      dir := v.dir;
      i := i + 1;
    }
    assert jobs[i..] == [];
    r := Outcome(dir, count, trace);
  }

  /** One sweep of the directory: discover the prompt files and, unless
      there are none, sweep them. Returns the final directory, the count
      the monitor reports, and what happened to each file. */
  method ProcessDirectory(d: Dir, dryRun: bool, obs: string -> Observation) returns (r: Outcome)
    ensures r == Sweep(d, FindPromptFiles(d), dryRun, obs)
    ensures FindPromptFiles(d) == [] ==> r.count == 0 && r.dir == d
    ensures r.count <= |FindPromptFiles(d)|
  {
    var jobs := FindPromptFiles(d);
    SweepCount(d, jobs, dryRun, obs);
    if jobs == [] {
      return Outcome(d, 0, []);
    }
    r := SweepJobs(d, jobs, dryRun, obs);
  }

  /** The sweep's promises about the directory as a whole: every file the
      monitor discovers gets exactly one action, in discovery order; the
      listing stays valid; nothing is discovered afterwards that was not
      discovered before, and it holds its old content unless the script ran
      on it; a dry run changes nothing and counts the ready files. */
  lemma ProcessDirectorySound(d: Dir, dryRun: bool, obs: string -> Observation, n: string)
    requires Valid(d)
    ensures var jobs := FindPromptFiles(d);
      var r := Sweep(d, jobs, dryRun, obs);
      && Valid(r.dir)
      && |r.trace| == |jobs|
      && (forall i :: 0 <= i < |jobs| ==> Fits(r.trace[i], jobs[i], dryRun, obs))
      && (n in FindPromptFiles(r.dir) ==>
            && n in jobs && n in r.dir.content && n in d.content
            && r.dir.content[n] == if RanOn(jobs, dryRun, obs, n) then obs(n).written else d.content[n])
      && (dryRun ==> r.dir == d && r.count == ReadyCount(jobs, obs))
  {
    var jobs := FindPromptFiles(d);
    var r := Sweep(d, jobs, dryRun, obs);
    SweepTrace(d, jobs, dryRun, obs);
    SweepPromptEntries(d, jobs, dryRun, obs, n);
    if dryRun {
      DryRunSweep(d, jobs, obs);
    }
    DiscoverySound(d, n);
    DiscoverySound(r.dir, n);
  }

  /** A file renamed in one sweep is not discovered by the next. */
  lemma RenamedNotRediscovered(d: Dir, dryRun: bool, obs: string -> Observation, i: int)
    requires Valid(d)
    requires 0 <= i < |Sweep(d, FindPromptFiles(d), dryRun, obs).trace|
    requires Sweep(d, FindPromptFiles(d), dryRun, obs).trace[i].Processed?
    requires Sweep(d, FindPromptFiles(d), dryRun, obs).trace[i].newName.Some?
    ensures Sweep(d, FindPromptFiles(d), dryRun, obs).trace[i].name
      !in FindPromptFiles(Sweep(d, FindPromptFiles(d), dryRun, obs).dir)
  {
    var jobs := FindPromptFiles(d);
    var r := Sweep(d, jobs, dryRun, obs);
    SweepTrace(d, jobs, dryRun, obs);
    assert Fits(r.trace[i], jobs[i], dryRun, obs);
    DiscoverySound(d, jobs[i]);
    GlobMatches(d.names);
    RenamedGone(d, jobs, dryRun, obs, i);
    SweepPromptEntries(d, jobs, dryRun, obs, jobs[i]);
    DiscoverySound(r.dir, jobs[i]);
  }
}
