/** The job follower: a tailing reader and event emitter whose output does not depend on when it is scheduled. */
module Follow {
  import opened Prelude

  const COMPLETE := 100

  // ---------------------------------------------------------------------------
  // Lines

  /** The line boundaries of Python's `splitlines`. */
  predicate IsBreak(c: char) {
    10 <= c as int <= 13 || 28 <= c as int <= 30 || c as int == 133 || 8232 <= c as int <= 8233
  }

  function FirstBreak(s: string): (n: nat)
    ensures n <= |s|
  {
    if s == "" || IsBreak(s[0]) then 0 else FirstBreak(s[1..]) + 1
  }

  /** The end of the first line and its break; a carriage return takes a following newline with it. */
  function LineEnd(s: string, n: nat): (m: nat)
    requires n < |s|
    ensures n < m <= |s|
  {
    if s[n] == '\r' && n + 1 < |s| && s[n + 1] == '\n' then n + 2 else n + 1
  }

  function SplitLines(s: string): seq<string>
    decreases |s|
  {
    if s == "" then []
    else
      var n := FirstBreak(s);
      if n == |s| then [s] else [s[..n]] + SplitLines(s[LineEnd(s, n)..])
  }

  /** Length of the longest prefix that ends in a newline. */
  function Whole(s: string): (n: nat)
    ensures n <= |s| && EndsLine(s[..n])
    decreases |s|
  {
    if s == "" then 0 else if s[|s| - 1] == '\n' then |s| else Whole(s[..|s| - 1])
  }

  predicate EndsLine(s: string) {
    s == "" || s[|s| - 1] == '\n'
  }

  /** Every line boundary Python knows, "\r\n" being one. */
  predicate LineBreak(b: string) {
    || b == "\r\n"
    || (|b| == 1 && (b[0] == '\n' || b[0] == 11 as char || b[0] == 12 as char || b[0] == '\r' || b[0] == 28 as char
         || b[0] == 29 as char || b[0] == 30 as char || b[0] == 133 as char || b[0] == 8232 as char
         || b[0] == 8233 as char))
  }

  /** The text up to a boundary is a line, without the boundary; what follows is split on its own. */
  lemma SplitsAtBreak(line: string, b: string, rest: string)
    requires LineBreak(b) && (forall i :: 0 <= i < |line| ==> !LineBreak([line[i]]))
    requires b == "\r" ==> rest == "" || rest[0] != '\n'
    ensures SplitLines(line + b + rest) == [line] + SplitLines(rest)
  {
    var s, n := line + b + rest, |line|;
    assert forall i :: 0 <= i < n ==> !LineBreak([s[i]]);
    FirstBreakAt(s, n);
    assert s[..n] == line && s[n + |b|..] == rest;
  }

  lemma {:induction false} FirstBreakAt(s: string, n: nat)
    requires n <= |s| && (forall i :: 0 <= i < n ==> !LineBreak([s[i]])) && (n < |s| ==> LineBreak([s[n]]))
    ensures FirstBreak(s) == n
  {
    if s != "" { assert IsBreak(s[0]) <==> LineBreak([s[0]]); }
    if n > 0 {
      assert forall i :: 0 <= i < n - 1 ==> s[1..][i] == s[i + 1];
      FirstBreakAt(s[1..], n - 1);
    }
  }

  /** Without a boundary the text is one line, unless it is empty. */
  lemma NothingToSplit(line: string)
    requires forall i :: 0 <= i < |line| ==> !LineBreak([line[i]])
    ensures SplitLines(line) == if line == "" then [] else [line]
  {
    FirstBreakAt(line, |line|);
  }

  /** Splitting after a newline splits the lines. */
  lemma {:induction false} SplitLinesConcat(a: string, b: string)
    requires EndsLine(a)
    ensures SplitLines(a + b) == SplitLines(a) + SplitLines(b)
    decreases |a|
  {
    if a == "" {
      assert a + b == b;
    } else {
      var n := FirstBreak(a);
      SameFirstLine(a, b);
      var rest := a[LineEnd(a, n)..];
      SplitLinesConcat(rest, b);
      FirstLine(a);
      FirstLine(a + b);
      Associates([a[..n]], SplitLines(rest), SplitLines(b));
    }
  }

  lemma FirstLine(s: string)
    requires FirstBreak(s) < |s|
    ensures SplitLines(s) == [s[..FirstBreak(s)]] + SplitLines(s[LineEnd(s, FirstBreak(s))..])
  {
  }

  lemma Associates(x: seq<string>, y: seq<string>, z: seq<string>)
    ensures x + (y + z) == (x + y) + z
  {
  }

  lemma SameFirstLine(a: string, b: string)
    requires a != "" && EndsLine(a)
    ensures var n := FirstBreak(a);
      && n < |a| && FirstBreak(a + b) == n && LineEnd(a + b, n) == LineEnd(a, n) && EndsLine(a[LineEnd(a, n)..])
      && (a + b)[..n] == a[..n] && (a + b)[LineEnd(a, n)..] == a[LineEnd(a, n)..] + b
  {
    var n := FirstBreak(a);
    SameFirstBreak(a, b);
    if a[n] == '\r' && n + 1 < |a| { assert (a + b)[n + 1] == a[n + 1]; }
  }

  lemma {:induction false} SameFirstBreak(a: string, b: string)
    requires a != "" && EndsLine(a)
    ensures FirstBreak(a) < |a| && IsBreak(a[FirstBreak(a)]) && FirstBreak(a + b) == FirstBreak(a)
  {
    assert IsBreak('\n');
    if !IsBreak(a[0]) {
      assert (a + b)[1..] == a[1..] + b;
      SameFirstBreak(a[1..], b);
    }
  }

  // ---------------------------------------------------------------------------
  // Tailing

  /** What the reader has consumed: how far, and the lines in order. */
  datatype Tail = Tail(offset: nat, lines: seq<string>)

  /** One read: a missing file yields nothing, a shrunk one is read again from the start, and only whole lines are
      consumed. */
  function Read(t: Tail, file: Option<string>): Tail {
    match file
    case None => t
    case Some(content) =>
      var offset := if t.offset > |content| then 0 else t.offset;
      var n := Whole(content[offset..]);
      Tail(offset + n, t.lines + SplitLines(content[offset..offset + n]))
  }

  function ReadAll(t: Tail, files: seq<Option<string>>): Tail
    decreases |files|
  {
    if files == [] then t else Read(ReadAll(t, files[..|files| - 1]), files[|files| - 1])
  }

  /** Each snapshot of the file extends the earlier ones. */
  predicate Grows(files: seq<Option<string>>) {
    forall i, j :: 0 <= i < j < |files| && files[i].Some? && files[j].Some? ==> files[i].value <= files[j].value
  }

  /** The last snapshot in which the file could be read. */
  function Latest(files: seq<Option<string>>): string
    decreases |files|
  {
    if files == [] then ""
    else if files[|files| - 1].Some? then files[|files| - 1].value
    else Latest(files[..|files| - 1])
  }

  lemma {:induction false} LatestIsPrefix(files: seq<Option<string>>, s: string)
    requires Grows(files + [Some(s)])
    ensures Latest(files) <= s
    decreases |files|
  {
    if files != [] {
      var k := |files| - 1;
      var all := files + [Some(s)];
      if files[k].Some? {
        assert all[k].value <= all[k + 1].value;
      } else {
        var shorter := files[..k] + [Some(s)];
        forall i, j | 0 <= i < j < |shorter| && shorter[i].Some? && shorter[j].Some?
          ensures shorter[i].value <= shorter[j].value
        {
          assert shorter[i] == all[i] && (if j == k then shorter[j] == all[k + 1] else shorter[j] == all[j]);
        }
        LatestIsPrefix(files[..k], s);
      }
    }
  }

  lemma {:induction false} WholeFrom(s: string, k: nat)
    requires k <= |s| && EndsLine(s[..k])
    ensures Whole(s) == k + Whole(s[k..])
    decreases |s|
  {
    if k < |s| && s[|s| - 1] != '\n' {
      var init := s[..|s| - 1];
      assert init[..k] == s[..k] && s[k..][..|s[k..]| - 1] == init[k..];
      WholeFrom(init, k);
    } else if k == |s| {
      assert s[..k] == s;
    }
  }

  /** Over any schedule of reads of a growing file, the reader has consumed exactly the text up to the last newline it
      could have seen, each line once. */
  lemma {:induction false} TailIsScheduleFree(files: seq<Option<string>>)
    requires Grows(files)
    ensures var s := Latest(files);
      ReadAll(Tail(0, []), files) == Tail(Whole(s), SplitLines(s[..Whole(s)]))
    decreases |files|
  {
    if files != [] {
      var init, file := files[..|files| - 1], files[|files| - 1];
      assert init + [file] == files;
      TailIsScheduleFree(init);
      if file.Some? {
        LatestIsPrefix(init, file.value);
        ReadNext(Latest(init), file.value, ReadAll(Tail(0, []), init).lines);
      }
    }
  }

  lemma ReadNext(s: string, t: string, lines: seq<string>)
    requires s <= t && lines == SplitLines(s[..Whole(s)])
    ensures Read(Tail(Whole(s), lines), Some(t)) == Tail(Whole(t), SplitLines(t[..Whole(t)]))
  {
    WholePrefix(s, t, Whole(s));
    ReadFrom(t, Whole(s), lines);
  }

  lemma {:induction false} ReadFrom(t: string, k: nat, lines: seq<string>)
    requires k <= |t| && EndsLine(t[..k]) && lines == SplitLines(t[..k])
    ensures Read(Tail(k, lines), Some(t)) == Tail(Whole(t), SplitLines(t[..Whole(t)]))
  {
    var n := Whole(t[k..]);
    var more := SplitLines(t[k..k + n]);
    assert Whole(t) == k + n by { WholeFrom(t, k); }
    assert lines + more == SplitLines(t[..k + n]) by { Continues(lines, t, k, n); }
    ReadsOn(Tail(k, lines), t, n);
  }

  lemma WholePrefix(s: string, t: string, k: nat)
    requires s <= t && k == Whole(s)
    ensures k <= |t| && s[..k] == t[..k] && EndsLine(t[..k])
  {
  }

  lemma Continues(lines: seq<string>, t: string, k: nat, n: nat)
    requires k + n <= |t| && EndsLine(t[..k]) && lines == SplitLines(t[..k])
    ensures lines + SplitLines(t[k..k + n]) == SplitLines(t[..k + n])
  {
    Slices(t, k, n);
    JoinLines(t[..k], t[k..k + n], t[..k + n]);
  }

  lemma ReadsOn(tail: Tail, t: string, n: nat)
    requires tail.offset <= |t| && n == Whole(t[tail.offset..])
    ensures Read(tail, Some(t)) == Tail(tail.offset + n, tail.lines + SplitLines(t[tail.offset..tail.offset + n]))
  {
  }

  lemma Slices(t: string, k: nat, n: nat)
    requires k + n <= |t|
    ensures t[..k] + t[k..k + n] == t[..k + n]
  {
  }

  lemma JoinLines(a: string, b: string, c: string)
    requires EndsLine(a) && a + b == c
    ensures SplitLines(a) + SplitLines(b) == SplitLines(c)
  {
    SplitLinesConcat(a, b);
  }

  // ---------------------------------------------------------------------------
  // Progress events

  datatype Progress = Progress(percent: nat, step: nat, elapsed: string, average: string)

  datatype Event =
    | JobRunning
    | PendingReason(reason: string)
    | StepFinished(progress: Progress)
    | JobFinished(linked: Option<bool>)
    | ResultsReady
    | JobFailed(info: JobInfo)
    | Cancelled(info: JobInfo)
  {
    predicate Terminal() { JobFinished? || ResultsReady? || JobFailed? || Cancelled? }
  }

  type Parser = string -> Option<Progress>

  /** `percent // PROGRESS_EVENT_STEP_PERCENT`. */
  function Quarter(percent: nat): nat {
    percent / 25
  }

  predicate Crosses(p: Progress, bucket: nat) {
    Quarter(p.percent) > bucket || p.percent >= COMPLETE
  }

  /** A report is told when it reaches the next quarter of the run or its end. */
  lemma CrossesExactly(p: Progress, bucket: nat)
    ensures Crosses(p, bucket) <==> p.percent >= 25 * (bucket + 1) || p.percent >= 100
  {
  }

  function BucketAfter(lines: seq<string>, parse: Parser, bucket: nat): nat
    decreases |lines|
  {
    if lines == [] then bucket
    else
      var b := BucketAfter(lines[..|lines| - 1], parse, bucket);
      var p := parse(lines[|lines| - 1]);
      if p.Some? && Crosses(p.value, b) then Quarter(p.value.percent) else b
  }

  /** The events of a sequence of lines: one for each line that crosses into a higher quarter or reports completion. */
  function ProgressEvents(lines: seq<string>, parse: Parser, bucket: nat): seq<Event>
    decreases |lines|
  {
    if lines == [] then []
    else
      var init := lines[..|lines| - 1];
      var p := parse(lines[|lines| - 1]);
      var before := ProgressEvents(init, parse, bucket);
      if p.Some? && Crosses(p.value, BucketAfter(init, parse, bucket)) then before + [StepFinished(p.value)] else before
  }

  lemma {:induction false} ProgressConcat(a: seq<string>, b: seq<string>, parse: Parser, bucket: nat)
    ensures BucketAfter(a + b, parse, bucket) == BucketAfter(b, parse, BucketAfter(a, parse, bucket))
    ensures ProgressEvents(a + b, parse, bucket)
      == ProgressEvents(a, parse, bucket) + ProgressEvents(b, parse, BucketAfter(a, parse, bucket))
    decreases |b|
  {
    if b == [] {
      assert a + b == a;
    } else {
      var init := b[..|b| - 1];
      ProgressConcat(a, init, parse, bucket);
      assert (a + b)[..|a + b| - 1] == a + init;
    }
  }

  function CountBelow(es: seq<Event>): nat
    decreases |es|
  {
    if es == [] then 0
    else
      CountBelow(es[..|es| - 1])
      + if es[|es| - 1].StepFinished? && es[|es| - 1].progress.percent < COMPLETE then 1 else 0
  }

  lemma {:induction false} CountBelowConcat(a: seq<Event>, b: seq<Event>)
    ensures CountBelow(a + b) == CountBelow(a) + CountBelow(b)
    decreases |b|
  {
    if b == [] {
      assert a + b == a;
    } else {
      CountBelowConcat(a, b[..|b| - 1]);
      assert (a + b)[..|a + b| - 1] == a + b[..|b| - 1];
    }
  }

  /** However many lines there are, at most three events report less than completion: each enters a higher quarter. */
  lemma {:induction false} FewProgressEvents(lines: seq<string>, parse: Parser)
    ensures CountBelow(ProgressEvents(lines, parse, 0)) <= 3
    ensures CountBelow(ProgressEvents(lines, parse, 0)) <= BucketAfter(lines, parse, 0)
    decreases |lines|
  {
    if lines != [] {
      FewProgressEvents(lines[..|lines| - 1], parse);
      OneMoreLine(lines, parse);
    }
  }

  lemma OneMoreLine(lines: seq<string>, parse: Parser)
    requires lines != []
    ensures var init, p := lines[..|lines| - 1], parse(lines[|lines| - 1]);
      var n, b := CountBelow(ProgressEvents(init, parse, 0)), BucketAfter(init, parse, 0);
      if p.Some? && Crosses(p.value, b)
      then CountBelow(ProgressEvents(lines, parse, 0)) == n + (if p.value.percent < COMPLETE then 1 else 0)
           && BucketAfter(lines, parse, 0) == Quarter(p.value.percent)
      else CountBelow(ProgressEvents(lines, parse, 0)) == n && BucketAfter(lines, parse, 0) == b
  {
    var init, p := lines[..|lines| - 1], parse(lines[|lines| - 1]);
    if p.Some? && Crosses(p.value, BucketAfter(init, parse, 0)) {
      var e := [StepFinished(p.value)];
      CountBelowConcat(ProgressEvents(init, parse, 0), e);
      assert e[..0] == [];
    }
  }

  // ---------------------------------------------------------------------------
  // The follower

  datatype SlurmState = PENDING | RUNNING | COMPLETING | COMPLETED | FAILED | CANCELLED | TIMEOUT | UNKNOWN {
    predicate Terminal() { COMPLETED? || FAILED? || CANCELLED? || TIMEOUT? }
  }

  datatype JobInfo = JobInfo(state: SlurmState, exitCode: Option<int>, reason: Option<string>) {
    predicate Clean() { state.COMPLETED? && (exitCode.None? || exitCode.value == 0) }
  }

  /** What one round of the loop finds: the scheduler's answer if it gave one, the file, and whether results could be
      linked. */
  datatype Poll = Poll(info: Option<JobInfo>, file: Option<string>, linked: bool)

  datatype State = State(tail: Tail, bucket: nat, running: bool, terminal: bool, reason: Option<string>,
      interval: real, events: seq<Event>)

  datatype Timing = Timing(initial: real, max: real)

  /** The terminal group of a job. */
  function TerminalGroup(info: JobInfo, linked: bool): seq<Event> {
    if info.Clean() then [JobFinished(None), if linked then ResultsReady else JobFinished(Some(false))]
    else if info.state.CANCELLED? then [Cancelled(info)]
    else [JobFailed(info)]
  }

  function Announced(s: State, info: JobInfo, timing: Timing): State {
    if info.state.RUNNING? && !s.running then
      s.(running := true, interval := timing.initial, events := s.events + [JobRunning])
    else if info.state.PENDING? && info.reason.Some? && info.reason != s.reason then
      s.(reason := info.reason, events := s.events + [PendingReason(info.reason.value)])
    else s
  }

  function Tailed(s: State, file: Option<string>, parse: Parser): State {
    var tail := Read(s.tail, file);
    var added := tail.lines[|s.tail.lines|..];
    s.(tail := tail, bucket := BucketAfter(added, parse, s.bucket), events := s.events
      + ProgressEvents(added, parse, s.bucket))
  }

  function Min(a: real, b: real): real {
    if a < b then a else b
  }

  /** One round; after the terminal group there are no more. */
  function Round(s: State, p: Poll, parse: Parser, timing: Timing): State {
    if s.terminal then s
    else
      var after :=
        if p.info.None? then s
        else
          var t := Tailed(Announced(s, p.info.value, timing), p.file, parse);
          if p.info.value.state.Terminal()
          then t.(terminal := true, events := t.events + TerminalGroup(p.info.value, p.linked)) else t;
      if after.terminal then after else after.(interval := Min(after.interval * 2.0, timing.max))
  }

  function Rounds(s: State, ps: seq<Poll>, parse: Parser, timing: Timing): State
    decreases |ps|
  {
    if ps == [] then s else Round(Rounds(s, ps[..|ps| - 1], parse, timing), ps[|ps| - 1], parse, timing)
  }

  function Begin(timing: Timing): State {
    State(Tail(0, []), 0, false, false, None, timing.initial, [])
  }

  // ---------------------------------------------------------------------------
  // The whole trace

  function Steps(es: seq<Event>): seq<Event>
    decreases |es|
  {
    if es == [] then [] else Steps(es[..|es| - 1]) + if es[|es| - 1].StepFinished? then [es[|es| - 1]] else []
  }

  function CountRunning(es: seq<Event>): nat
    decreases |es|
  {
    if es == [] then 0 else CountRunning(es[..|es| - 1]) + if es[|es| - 1].JobRunning? then 1 else 0
  }

  function Reasons(es: seq<Event>): seq<string>
    decreases |es|
  {
    if es == [] then [] else Reasons(es[..|es| - 1]) + if es[|es| - 1].PendingReason? then [es[|es| - 1].reason] else []
  }

  lemma {:induction false} StepsConcat(a: seq<Event>, b: seq<Event>)
    ensures Steps(a + b) == Steps(a) + Steps(b)
    decreases |b|
  {
    if b == [] {
      assert a + b == a;
    } else {
      StepsConcat(a, b[..|b| - 1]);
      assert (a + b)[..|a + b| - 1] == a + b[..|b| - 1];
    }
  }

  lemma {:induction false} RunningConcat(a: seq<Event>, b: seq<Event>)
    ensures CountRunning(a + b) == CountRunning(a) + CountRunning(b)
    decreases |b|
  {
    if b == [] {
      assert a + b == a;
    } else {
      RunningConcat(a, b[..|b| - 1]);
      assert (a + b)[..|a + b| - 1] == a + b[..|b| - 1];
    }
  }

  lemma {:induction false} ReasonsConcat(a: seq<Event>, b: seq<Event>)
    ensures Reasons(a + b) == Reasons(a) + Reasons(b)
    decreases |b|
  {
    if b == [] {
      assert a + b == a;
    } else {
      ReasonsConcat(a, b[..|b| - 1]);
      assert (a + b)[..|a + b| - 1] == a + b[..|b| - 1];
    }
  }

  lemma FiltersConcat(a: seq<Event>, b: seq<Event>)
    ensures Steps(a + b) == Steps(a) + Steps(b) && CountRunning(a + b) == CountRunning(a) + CountRunning(b)
    ensures Reasons(a + b) == Reasons(a) + Reasons(b)
  {
    StepsConcat(a, b);
    RunningConcat(a, b);
    ReasonsConcat(a, b);
  }

  lemma {:induction false} ProgressIsSteps(lines: seq<string>, parse: Parser, bucket: nat)
    ensures var es := ProgressEvents(lines, parse, bucket);
      Steps(es) == es && CountRunning(es) == 0 && Reasons(es) == [] && forall e :: e in es ==> e.StepFinished?
    decreases |lines|
  {
    if lines != [] {
      var init := lines[..|lines| - 1];
      ProgressIsSteps(init, parse, bucket);
      var es, last := ProgressEvents(init, parse, bucket), ProgressEvents(lines, parse, bucket);
      if last != es { assert last[..|last| - 1] == es; }
    }
  }

  lemma OneEvent(e: Event)
    requires !e.StepFinished?
    ensures Steps([e]) == [] && CountRunning([e]) == (if e.JobRunning? then 1 else 0)
    ensures Reasons([e]) == if e.PendingReason? then [e.reason] else []
  {
    assert [e][..0] == [];
  }

  lemma GroupIsTerminal(info: JobInfo, linked: bool)
    ensures var g := TerminalGroup(info, linked); Steps(g) == [] && CountRunning(g) == 0 && Reasons(g) == []
  {
    var g := TerminalGroup(info, linked);
    OneEvent(g[0]);
    if |g| == 2 {
      assert g == [g[0]] + [g[1]];
      OneEvent(g[1]);
      FiltersConcat([g[0]], [g[1]]);
    } else {
      assert g == [g[0]];
    }
  }

  // What a run of rounds has seen

  predicate Ends(p: Poll) {
    p.info.Some? && p.info.value.state.Terminal()
  }

  /** The last round saw the job in a terminal state. */
  predicate Over(seen: seq<Poll>) {
    seen != [] && Ends(seen[|seen| - 1])
  }

  /** The rounds up to the first that sees a terminal state. */
  function Watched(ps: seq<Poll>): (seen: seq<Poll>)
    decreases |ps|
  {
    if ps == [] then []
    else
      var before := Watched(ps[..|ps| - 1]);
      if Over(before) then before else before + [ps[|ps| - 1]]
  }

  /** The files those rounds read: none while the scheduler does not answer. */
  function Files(seen: seq<Poll>): seq<Option<string>> {
    seq(|seen|, i requires 0 <= i < |seen| => if seen[i].info.Some? then seen[i].file else None)
  }

  predicate SawRunning(seen: seq<Poll>) {
    exists i :: 0 <= i < |seen| && seen[i].info.Some? && seen[i].info.value.state.RUNNING?
  }

  /** The scheduler's reasons while the job was pending. */
  function ReasonsSeen(seen: seq<Poll>): seq<string>
    decreases |seen|
  {
    if seen == [] then []
    else
      var before, info := ReasonsSeen(seen[..|seen| - 1]), seen[|seen| - 1].info;
      if info.Some? && info.value.state.PENDING? && info.value.reason.Some?
      then before + [info.value.reason.value] else before
  }

  /** A sequence without immediate repetitions. */
  function Changes(rs: seq<string>): seq<string>
    decreases |rs|
  {
    if rs == [] then []
    else
      var before := Changes(rs[..|rs| - 1]);
      if |rs| > 1 && rs[|rs| - 2] == rs[|rs| - 1] then before else before + [rs[|rs| - 1]]
  }

  function LastOf(rs: seq<string>): Option<string> {
    if rs == [] then None else Some(rs[|rs| - 1])
  }

  /** The terminal group alone is terminal, and it comes last. */
  ghost predicate GroupLast(es: seq<Event>, info: JobInfo, linked: bool) {
    exists body :: es == body + TerminalGroup(info, linked) && forall e :: e in body ==> !e.Terminal()
  }

  /** The state and its trace as a function of what was seen. */
  ghost predicate Tells(s: State, seen: seq<Poll>, parse: Parser) {
    && s.tail == ReadAll(Tail(0, []), Files(seen))
    && s.bucket == BucketAfter(s.tail.lines, parse, 0)
    && Steps(s.events) == ProgressEvents(s.tail.lines, parse, 0)
    && s.running == SawRunning(seen) && CountRunning(s.events) == (if SawRunning(seen) then 1 else 0)
    && s.reason == LastOf(ReasonsSeen(seen)) && Reasons(s.events) == Changes(ReasonsSeen(seen))
  }

  ghost predicate Finished(s: State, seen: seq<Poll>) {
    && s.terminal == Over(seen)
    && if Over(seen) then GroupLast(s.events, seen[|seen| - 1].info.value, seen[|seen| - 1].linked)
       else forall e :: e in s.events ==> !e.Terminal()
  }

  lemma {:induction false} SawSnoc(seen: seq<Poll>, p: Poll)
    ensures SawRunning(seen + [p]) <==> SawRunning(seen) || (p.info.Some? && p.info.value.state.RUNNING?)
  {
    var all := seen + [p];
    assert all[|seen|] == p;
    if SawRunning(seen) {
      var i :| 0 <= i < |seen| && seen[i].info.Some? && seen[i].info.value.state.RUNNING?;
      assert all[i] == seen[i];
    }
  }

  lemma ReasonsSnoc(seen: seq<Poll>, p: Poll)
    ensures ReasonsSeen(seen + [p]) ==
      ReasonsSeen(seen)
      + if p.info.Some? && p.info.value.state.PENDING? && p.info.value.reason.Some?
        then [p.info.value.reason.value] else []
  {
    assert (seen + [p])[..|seen|] == seen;
  }

  lemma ChangesSnoc(rs: seq<string>, r: string)
    ensures Changes(rs + [r]) == if LastOf(rs) == Some(r) then Changes(rs) else Changes(rs) + [r]
  {
    assert (rs + [r])[..|rs|] == rs;
  }

  /** The announcing half of a round: `t` is `s` with what the round announces. */
  ghost predicate Announces(s: State, t: State, seen: seq<Poll>) {
    && t.tail == s.tail && t.bucket == s.bucket && t.terminal == s.terminal && Steps(t.events) == Steps(s.events)
    && t.running == SawRunning(seen) && CountRunning(t.events) == (if SawRunning(seen) then 1 else 0)
    && t.reason == LastOf(ReasonsSeen(seen)) && Reasons(t.events) == Changes(ReasonsSeen(seen))
    && forall e :: e in t.events ==> !e.Terminal()
  }

  lemma {:induction false} AnnouncedTells(s: State, p: Poll, seen: seq<Poll>, parse: Parser, timing: Timing)
    requires Tells(s, seen, parse) && p.info.Some? && forall e :: e in s.events ==> !e.Terminal()
    ensures Announces(s, Announced(s, p.info.value, timing), seen + [p])
  {
    var info := p.info.value;
    SawSnoc(seen, p);
    ReasonsSnoc(seen, p);
    if info.state.PENDING? && info.reason.Some? {
      PendingTells(s, p, seen, parse, timing);
    } else if info.state.RUNNING? && !s.running {
      OneMore(s.events, JobRunning);
    }
  }

  lemma {:induction false} PendingTells(s: State, p: Poll, seen: seq<Poll>, parse: Parser, timing: Timing)
    requires Tells(s, seen, parse) && p.info.Some? && forall e :: e in s.events ==> !e.Terminal()
    requires p.info.value.state.PENDING? && p.info.value.reason.Some?
    ensures Announces(s, Announced(s, p.info.value, timing), seen + [p])
  {
    var reason := p.info.value.reason;
    SawSnoc(seen, p);
    ReasonsSnoc(seen, p);
    ChangesSnoc(ReasonsSeen(seen), reason.value);
    if reason != s.reason { OneMore(s.events, PendingReason(reason.value)); }
  }

  lemma OneMore(es: seq<Event>, e: Event)
    requires !e.StepFinished? && !e.Terminal() && forall x :: x in es ==> !x.Terminal()
    ensures Steps(es + [e]) == Steps(es)
      && CountRunning(es + [e]) == CountRunning(es) + (if e.JobRunning? then 1 else 0)
    ensures Reasons(es + [e]) == Reasons(es) + (if e.PendingReason? then [e.reason] else [])
    ensures forall x :: x in es + [e] ==> !x.Terminal()
  {
    OneEvent(e);
    FiltersConcat(es, [e]);
  }

  /** The tailing half. */
  lemma TailedTells(s: State, file: Option<string>, files: seq<Option<string>>, parse: Parser)
    requires s.tail == ReadAll(Tail(0, []), files) && s.bucket == BucketAfter(s.tail.lines, parse, 0)
    requires Steps(s.events) == ProgressEvents(s.tail.lines, parse, 0) && forall e :: e in s.events ==> !e.Terminal()
    ensures var t := Tailed(s, file, parse);
      && t.tail == ReadAll(Tail(0, []), files + [file]) && t.bucket == BucketAfter(t.tail.lines, parse, 0)
      && Steps(t.events) == ProgressEvents(t.tail.lines, parse, 0)
      && CountRunning(t.events) == CountRunning(s.events) && Reasons(t.events) == Reasons(s.events)
      && forall e :: e in t.events ==> !e.Terminal()
  {
    var t := Tailed(s, file, parse);
    var added := t.tail.lines[|s.tail.lines|..];
    assert (files + [file])[..|files|] == files;
    assert t.tail.lines == s.tail.lines + added;
    ProgressConcat(s.tail.lines, added, parse, 0);
    ProgressIsSteps(added, parse, s.bucket);
    FiltersConcat(s.events, ProgressEvents(added, parse, s.bucket));
  }

  lemma FilesSnoc(seen: seq<Poll>, p: Poll)
    ensures Files(seen + [p]) == Files(seen) + [if p.info.Some? then p.file else None]
  {
  }

  lemma {:induction false} SilentRoundTells(s: State, p: Poll, seen: seq<Poll>, parse: Parser)
    requires Tells(s, seen, parse) && p.info.None?
    ensures Tells(s, seen + [p], parse)
  {
    FilesSnoc(seen, p);
    SawSnoc(seen, p);
    ReasonsSnoc(seen, p);
    assert (Files(seen) + [None])[..|seen|] == Files(seen);
  }

  lemma TailedAfterAnnounced(s: State, a: State, p: Poll, seen: seq<Poll>, parse: Parser)
    requires Tells(s, seen, parse) && Announces(s, a, seen + [p]) && p.info.Some?
    ensures var t := Tailed(a, p.file, parse);
      Tells(t, seen + [p], parse) && forall e :: e in t.events ==> !e.Terminal()
  {
    FilesSnoc(seen, p);
    TailedTells(a, p.file, Files(seen), parse);
  }

  lemma EndTells(t: State, seen: seq<Poll>, parse: Parser, info: JobInfo, linked: bool)
    requires Tells(t, seen, parse) && forall e :: e in t.events ==> !e.Terminal()
    ensures var g := TerminalGroup(info, linked);
      Tells(t.(terminal := true, events := t.events + g), seen, parse) && GroupLast(t.events + g, info, linked)
  {
    GroupIsTerminal(info, linked);
    FiltersConcat(t.events, TerminalGroup(info, linked));
  }

  lemma RoundTells(s: State, p: Poll, seen: seq<Poll>, parse: Parser, timing: Timing)
    requires Tells(s, seen, parse) && Finished(s, seen) && !Over(seen)
    ensures var t := Round(s, p, parse, timing); Tells(t, seen + [p], parse) && Finished(t, seen + [p])
  {
    var all := seen + [p];
    assert all[|all| - 1] == p;
    if p.info.None? {
      SilentRoundTells(s, p, seen, parse);
    } else {
      var a := Announced(s, p.info.value, timing);
      AnnouncedTells(s, p, seen, parse, timing);
      TailedAfterAnnounced(s, a, p, seen, parse);
      EndTells(Tailed(a, p.file, parse), all, parse, p.info.value, p.linked);
    }
  }

  lemma {:induction false} RoundsTell(ps: seq<Poll>, parse: Parser, timing: Timing)
    ensures var s := Rounds(Begin(timing), ps, parse, timing); Tells(s, Watched(ps), parse) && Finished(s, Watched(ps))
    decreases |ps|
  {
    if ps != [] {
      var init := ps[..|ps| - 1];
      RoundsTell(init, parse, timing);
      if !Over(Watched(init)) {
        RoundTells(Rounds(Begin(timing), init, parse, timing), ps[|ps| - 1], Watched(init), parse, timing);
      }
    }
  }

  /** Over every run of the loop on a growing file: the progress events are a function of the text read, not of when it
      was read, and at most three of them report less than completion; there is one running event if the job was seen
      running; a pending job's reason is reported when it changes; and the trace ends in the terminal group of the first
      terminal state seen, once there was one. */
  lemma TraceOfAnyRun(ps: seq<Poll>, parse: Parser, timing: Timing)
    requires Grows(Files(Watched(ps)))
    ensures var s, seen := Rounds(Begin(timing), ps, parse, timing), Watched(ps);
      var text := Latest(Files(seen));
      && Steps(s.events) == ProgressEvents(SplitLines(text[..Whole(text)]), parse, 0)
      && CountBelow(Steps(s.events)) <= 3
      && CountRunning(s.events) == (if SawRunning(seen) then 1 else 0)
      && Reasons(s.events) == Changes(ReasonsSeen(seen))
      && Finished(s, seen)
  {
    RoundsTell(ps, parse, timing);
    TailIsScheduleFree(Files(Watched(ps)));
    FewProgressEvents(Rounds(Begin(timing), ps, parse, timing).tail.lines, parse);
  }

  /** Results are announced exactly when the job completed with no exit code or zero and its results could be linked; a
      cancelled job says so, and any other end is a failure. */
  lemma TerminalGroupExactly(info: JobInfo, linked: bool)
    requires info.state.Terminal()
    ensures var g := TerminalGroup(info, linked);
      && (ResultsReady in g <==> info.state.COMPLETED? && (info.exitCode == None || info.exitCode == Some(0)) && linked)
      && (JobFinished(None) in g <==> info.state.COMPLETED? && (info.exitCode == None || info.exitCode == Some(0)))
      && (JobFinished(Some(false)) in g <==> JobFinished(None) in g && ResultsReady !in g)
      && (Cancelled(info) in g <==> info.state.CANCELLED?)
      && (JobFailed(info) in g <==> JobFinished(None) !in g && Cancelled(info) !in g)
  {
    var g := TerminalGroup(info, linked);
    assert g[0] in g;
    if |g| == 2 { assert g[1] in g; }
  }

  /** Nothing follows the terminal group. */
  lemma {:induction false} NothingAfterEnd(s: State, ps: seq<Poll>, parse: Parser, timing: Timing)
    requires s.terminal
    ensures Rounds(s, ps, parse, timing) == s
    decreases |ps|
  {
    if ps != [] { NothingAfterEnd(s, ps[..|ps| - 1], parse, timing); }
  }

  /** The poll interval stays between its first value and its cap. */
  lemma {:induction false} IntervalBounded(ps: seq<Poll>, parse: Parser, timing: Timing)
    requires 0.0 < timing.initial <= timing.max
    ensures timing.initial <= Rounds(Begin(timing), ps, parse, timing).interval <= timing.max
    decreases |ps|
  {
    if ps != [] { IntervalBounded(ps[..|ps| - 1], parse, timing); }
  }

  // ---------------------------------------------------------------------------
  // The follower object

  /** The reader's search for the last newline. */
  method FindWhole(s: string) returns (n: nat)
    ensures n == Whole(s)
  {
    n := |s|;
    assert s[..|s|] == s;
    while n > 0 && s[n - 1] != '\n'
      invariant n <= |s| && Whole(s[..n]) == Whole(s)
    {
      assert s[..n][..n - 1] == s[..n - 1];
      n := n - 1;
    }
    assert n > 0 ==> s[..n][n - 1] == '\n';
  }

  class JobFollower {
    const parse: Parser
    const timing: Timing
    var offset: nat
    var bucket: nat
    var running: bool
    var terminal: bool
    var reason: Option<string>
    var interval: real
    var events: seq<Event>
    ghost var lines: seq<string>

    constructor (parse: Parser, timing: Timing)
      ensures Content() == Begin(timing) && this.parse == parse && this.timing == timing
    {
      this.parse, this.timing := parse, timing;
      offset, bucket, running, terminal, reason, interval, events, lines := 0, 0, false, false, None, timing.initial,
        [], [];
    }

    ghost function Content(): State
      reads this
    {
      State(Tail(offset, lines), bucket, running, terminal, reason, interval, events)
    }

    method Emit(e: Event)
      modifies this`events
      ensures events == old(events) + [e]
    {
      events := events + [e];
    }

    /** `_read_new_lines`. */
    method ReadNewLines(file: Option<string>) returns (consumed: seq<string>)
      modifies this`offset, this`lines
      ensures Tail(offset, lines) == Read(old(Tail(offset, lines)), file) && lines == old(lines) + consumed
    {
      if file.None? { return []; }
      var content := file.value;
      var start := if offset > |content| then 0 else offset;
      var n := FindWhole(content[start..]);
      offset := start + n;
      consumed := SplitLines(content[start..start + n]);
      lines := lines + consumed;
    }

    /** `_tail_progress`. */
    method TailProgress(file: Option<string>)
      modifies this
      ensures Content() == Tailed(old(Content()), file, parse)
    {
      var consumed := ReadNewLines(file);
      assert lines[|old(lines)|..] == consumed;
      EmitProgress(consumed);
    }

    method EmitProgress(consumed: seq<string>)
      modifies this`events, this`bucket
      ensures events == old(events) + ProgressEvents(consumed, parse, old(bucket))
      ensures bucket == BucketAfter(consumed, parse, old(bucket))
    {
      for i := 0 to |consumed|
        invariant events == old(events) + ProgressEvents(consumed[..i], parse, old(bucket))
        invariant bucket == BucketAfter(consumed[..i], parse, old(bucket))
      {
        assert consumed[..i + 1][..i] == consumed[..i];
        var parsed := parse(consumed[i]);
        if parsed.None? { continue; }
        if Quarter(parsed.value.percent) > bucket || parsed.value.percent >= COMPLETE {
          Emit(StepFinished(parsed.value));
          bucket := Quarter(parsed.value.percent);
        }
      }
      assert consumed[..|consumed|] == consumed;
    }

    /** `_emit_terminal`. */
    method EmitTerminal(info: JobInfo, linked: bool)
      requires !terminal
      modifies this`events, this`terminal
      ensures terminal && events == old(events) + TerminalGroup(info, linked)
    {
      terminal := true;
      if info.state.COMPLETED? && (info.exitCode.None? || info.exitCode.value == 0) {
        Emit(JobFinished(None));
        Emit(if linked then ResultsReady else JobFinished(Some(false)));
      } else {
        Emit(if info.state.CANCELLED? then Cancelled(info) else JobFailed(info));
      }
    }

    /** `_run`, for as many rounds as it is let run: stopping it is giving it no further round. */
    method Follow(polls: seq<Poll>)
      requires !terminal
      modifies this
      ensures Content() == Rounds(old(Content()), polls, parse, timing)
    {
      var i := 0;
      while i < |polls| && !terminal
        invariant i <= |polls| && Content() == Rounds(old(Content()), polls[..i], parse, timing)
      {
        assert polls[..i + 1][..i] == polls[..i];
        OneRound(polls[i]);
        i := i + 1;
      }
      if i < |polls| { RoundsStop(old(Content()), polls, i, parse, timing); }
      assert polls[..|polls|] == polls;
    }

    /** The first running report, or a pending job's reason when it changes. */
    method Announce(info: JobInfo)
      modifies this
      ensures Content() == Announced(old(Content()), info, timing)
    {
      if info.state.RUNNING? && !running {
        running, interval := true, timing.initial;
        Emit(JobRunning);
      } else if info.state.PENDING? && info.reason.Some? && info.reason != reason {
        reason := info.reason;
        Emit(PendingReason(info.reason.value));
      }
    }

    method OneRound(poll: Poll)
      requires !terminal
      modifies this
      ensures Content() == Round(old(Content()), poll, parse, timing)
    {
      if poll.info.Some? {
        var info := poll.info.value;
        Announce(info);
        TailProgress(poll.file);
        if info.state.Terminal() {
          EmitTerminal(info, poll.linked);
          return;
        }
      }
      interval := Min(interval * 2.0, timing.max);
    }
  }

  lemma {:induction false} RoundsStop(s: State, ps: seq<Poll>, i: nat, parse: Parser, timing: Timing)
    requires i <= |ps| && Rounds(s, ps[..i], parse, timing).terminal
    ensures Rounds(s, ps, parse, timing) == Rounds(s, ps[..i], parse, timing)
    decreases |ps|
  {
    if i == |ps| {
      assert ps[..i] == ps;
    } else {
      assert ps[..|ps| - 1][..i] == ps[..i];
      RoundsStop(s, ps[..|ps| - 1], i, parse, timing);
    }
  }
}
