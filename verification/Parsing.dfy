/** Attribution of calls to their innermost enclosing function, and the parallel
    parsing of many files. */
module Parsing {
  import opened Text
  import opened Sorting
  import opened Snapshots
  import opened IndexTables

  /** A raw call found in a file, its callee not yet resolved. */
  datatype RawCall = RawCall(caller: string, callee: string)

  /** A call expression: the text of its target and its line. */
  datatype CallSite = CallSite(target: string, line: int)

  ghost predicate Encloses(fn: Function, line: int) {
    fn.startLine <= line <= fn.endLine
  }

  /** The function at i encloses the line, no enclosing function spans fewer lines,
      and none listed before it spans as few. */
  ghost predicate Innermost(functions: seq<Function>, line: int, i: int) {
    && 0 <= i < |functions|
    && Encloses(functions[i], line)
    && (forall j | 0 <= j < |functions| && Encloses(functions[j], line) ::
          functions[i].endLine - functions[i].startLine <= functions[j].endLine - functions[j].startLine)
    && (forall j | 0 <= j < i && Encloses(functions[j], line) ::
          functions[i].endLine - functions[i].startLine < functions[j].endLine - functions[j].startLine)
  }

  method FindEnclosingFunction(functions: seq<Function>, line: int) returns (best: Option<nat>)
    ensures best.Some? ==> Innermost(functions, line, best.value)
    ensures best.None? ==> forall j | 0 <= j < |functions| :: !Encloses(functions[j], line)
  {
    best := None;
    var bestRange := 0x7FFF_FFFF_FFFF_FFFF;
    for i := 0 to |functions|
      invariant best.None? ==> forall j | 0 <= j < i :: !Encloses(functions[j], line)
      invariant best.Some? ==> Innermost(functions[..i], line, best.value)
      invariant best.Some? ==> bestRange == functions[best.value].endLine - functions[best.value].startLine
    {
      var fn := functions[i];
      if line < fn.startLine || line > fn.endLine {
        continue;
      }
      var r := fn.endLine - fn.startLine;
      if best.None? || r < bestRange {
        best, bestRange := Some(i), r;
      }
    }
    assert functions[..|functions|] == functions;
  }

  /** A call is kept when it has a name, a line and an enclosing function; the raw
      call then names the innermost one. */
  ghost predicate Attributes(functions: seq<Function>, site: CallSite, raw: RawCall) {
    && site.target != "" && site.line != 0
    && raw.callee == site.target
    && exists i :: Innermost(functions, site.line, i) && raw.caller == functions[i].name
  }

  ghost predicate Unattributed(functions: seq<Function>, site: CallSite) {
    site.target == "" || site.line == 0 || forall j | 0 <= j < |functions| :: !Encloses(functions[j], site.line)
  }

  /** calls lists, in order, exactly the attributed call sites. */
  ghost predicate Attribution(functions: seq<Function>, sites: seq<CallSite>, calls: seq<RawCall>) {
    if sites == [] then calls == []
    else
      var front, site := sites[..|sites| - 1], sites[|sites| - 1];
      || (Unattributed(functions, site) && Attribution(functions, front, calls))
      || (calls != [] && Attributes(functions, site, calls[|calls| - 1])
          && Attribution(functions, front, calls[..|calls| - 1]))
  }

  method AttributeCalls(functions: seq<Function>, sites: seq<CallSite>) returns (calls: seq<RawCall>)
    ensures Attribution(functions, sites, calls)
    ensures forall c <- calls :: exists i :: 0 <= i < |functions| && functions[i].name == c.caller
  {
    calls := [];
    for i := 0 to |sites|
      invariant Attribution(functions, sites[..i], calls)
      invariant forall c <- calls :: exists i :: 0 <= i < |functions| && functions[i].name == c.caller
    {
      assert sites[..i + 1][..i] == sites[..i];
      if sites[i].target == "" || sites[i].line == 0 {
        continue;
      }
      var caller := FindEnclosingFunction(functions, sites[i].line);
      if caller.None? {
        continue;
      }
      var before := calls;
      calls := calls + [RawCall(functions[caller.value].name, sites[i].target)];
      assert calls[..|calls| - 1] == before;
    }
    assert sites[..|sites|] == sites;
  }

  /** Two attributions of the same sites are equal: the order of listing decides ties. */
  lemma {:induction false} AttributionUnique(functions: seq<Function>, sites: seq<CallSite>, a: seq<RawCall>,
                                             b: seq<RawCall>)
    requires Attribution(functions, sites, a) && Attribution(functions, sites, b)
    ensures a == b
  {
    if sites != [] {
      var front, site := sites[..|sites| - 1], sites[|sites| - 1];
      if Unattributed(functions, site) {
        AttributionUnique(functions, front, a, b);
      } else {
        AttributionUnique(functions, front, a[..|a| - 1], b[..|b| - 1]);
        assert a == a[..|a| - 1] + [a[|a| - 1]] && b == b[..|b| - 1] + [b[|b| - 1]];
      }
    }
  }

  /** What the parser makes of one file. */
  datatype ParseOutcome =
    | Unsupported
    | Failed(cause: string)
    | Parsed(functions: seq<Function>, calls: seq<RawCall>)

  datatype ParsedFile = ParsedFile(path: Path, functions: seq<Function>, calls: seq<RawCall>)

  /** One message on the result channel. */
  datatype ParseMessage = Skip | Failure(text: string) | Success(file: ParsedFile)

  const PARSE_ERROR := "parse error: "

  const CANCELLED := "context canceled"

  function ParseErrorText(path: Path, cause: string): string {
    PARSE_ERROR + path + ": " + cause
  }

  /** The path a failure is counted under: the text up to the first ": ". */
  function ErroredPath(text: string): Option<Path> {
    if HasPrefix(text, PARSE_ERROR) then
      var path := TrimPrefix(text, PARSE_ERROR);
      var i := Index(path, ": ");
      if i > 0 then Some(path[..i]) else None
    else None
  }

  lemma {:induction false} IndexOfDelimiter(path: string, cause: string)
    ensures !Contains(path, ": ") ==> Index(path + ": " + cause, ": ") == |path|
    ensures Contains(path, ": ") ==> 0 <= Index(path + ": " + cause, ": ") < |path|
  {
    var s := path + ": " + cause;
    if path == "" {
      assert ": " <= s;
    } else {
      assert s[1..] == path[1..] + ": " + cause;
      IndexOfDelimiter(path[1..], cause);
      assert ": " <= s <==> s[0] == ':' && s[1] == ' ';
      assert ": " <= path <==> |path| >= 2 && path[0] == ':' && path[1] == ' ';
    }
  }

  /** The failing path is recovered exactly when it is not empty and has no ": " in it. */
  lemma RecoveredPath(path: Path, cause: string)
    ensures ErroredPath(ParseErrorText(path, cause)) == Some(path) <==> path != "" && !Contains(path, ": ")
  {
    var text := ParseErrorText(path, cause);
    assert text == PARSE_ERROR + (path + ": " + cause);
    assert TrimPrefix(text, PARSE_ERROR) == path + ": " + cause;
    IndexOfDelimiter(path, cause);
    assert (path + ": " + cause)[..|path|] == path;
  }

  function MessageFor(f: FileSnapshot, outcomes: map<Path, ParseOutcome>): ParseMessage
    requires f.path in outcomes
  {
    match outcomes[f.path]
    case Unsupported => Skip
    case Failed(cause) => Failure(ParseErrorText(f.path, cause))
    case Parsed(functions, calls) => Success(ParsedFile(f.path, functions, calls))
  }

  ghost predicate Covers(outcomes: map<Path, ParseOutcome>, files: seq<FileSnapshot>) {
    forall f <- files :: f.path in outcomes
  }

  /** Scans list files in strictly ascending order of their non-empty paths. */
  ghost predicate Ascending(files: seq<FileSnapshot>) {
    && (forall i, j | 0 <= i < j < |files| :: StringLeq(files[i].path, files[j].path) && files[i].path != files[j].path)
    && (forall f <- files :: f.path != "")
  }

  /** The parsed files, in the order of the scan. */
  function ParsedFiles(files: seq<FileSnapshot>, outcomes: map<Path, ParseOutcome>): seq<ParsedFile>
    requires Covers(outcomes, files)
  {
    if files == [] then []
    else
      var m := MessageFor(files[|files| - 1], outcomes);
      ParsedFiles(files[..|files| - 1], outcomes) + if m.Success? then [m.file] else []
  }

  function FailureTexts(files: seq<FileSnapshot>, outcomes: map<Path, ParseOutcome>): seq<string>
    requires Covers(outcomes, files)
  {
    if files == [] then []
    else
      var m := MessageFor(files[|files| - 1], outcomes);
      FailureTexts(files[..|files| - 1], outcomes) + if m.Failure? then [m.text] else []
  }

  function Messages(files: seq<FileSnapshot>, outcomes: map<Path, ParseOutcome>): seq<ParseMessage>
    requires Covers(outcomes, files)
  {
    seq(|files|, i requires 0 <= i < |files| => MessageFor(files[i], outcomes))
  }

  function Successes(messages: seq<ParseMessage>): seq<ParsedFile> {
    if messages == [] then []
    else
      var m := messages[|messages| - 1];
      Successes(messages[..|messages| - 1]) + if m.Success? then [m.file] else []
  }

  function Failures(messages: seq<ParseMessage>): seq<string> {
    if messages == [] then []
    else
      var m := messages[|messages| - 1];
      Failures(messages[..|messages| - 1]) + if m.Failure? then [m.text] else []
  }

  lemma {:induction false} CountSuccesses(messages: seq<ParseMessage>, file: ParsedFile, text: string)
    ensures multiset(Successes(messages))[file] == multiset(messages)[Success(file)]
    ensures multiset(Failures(messages))[text] == multiset(messages)[Failure(text)]
  {
    if messages != [] {
      var front, m := messages[..|messages| - 1], messages[|messages| - 1];
      CountSuccesses(front, file, text);
      MultisetFront(messages);
      assert multiset(Successes(messages)) == multiset(Successes(front)) + if m.Success? then multiset{m.file}
             else multiset{};
      assert multiset(Failures(messages)) == multiset(Failures(front)) + if m.Failure? then multiset{m.text}
             else multiset{};
    }
  }

  /** What is collected does not depend on the order the results arrived in. */
  lemma CollectedAnyOrder(received: seq<ParseMessage>, sent: seq<ParseMessage>)
    requires multiset(received) == multiset(sent)
    ensures multiset(Successes(received)) == multiset(Successes(sent))
    ensures multiset(Failures(received)) == multiset(Failures(sent))
  {
    forall file ensures multiset(Successes(received))[file] == multiset(Successes(sent))[file] {
      CountSuccesses(received, file, "");
      CountSuccesses(sent, file, "");
    }
    var noFile := ParsedFile("", [], []);
    forall text ensures multiset(Failures(received))[text] == multiset(Failures(sent))[text] {
      CountSuccesses(received, noFile, text);
      CountSuccesses(sent, noFile, text);
    }
  }

  lemma {:induction false} CollectedInOrder(files: seq<FileSnapshot>, outcomes: map<Path, ParseOutcome>)
    requires Covers(outcomes, files)
    ensures Successes(Messages(files, outcomes)) == ParsedFiles(files, outcomes)
    ensures Failures(Messages(files, outcomes)) == FailureTexts(files, outcomes)
  {
    if files != [] {
      var front := files[..|files| - 1];
      CollectedInOrder(front, outcomes);
      assert Messages(files, outcomes)[..|files| - 1] == Messages(front, outcomes);
    }
  }

  ghost predicate AscendingFiles(parsed: seq<ParsedFile>) {
    forall i, j | 0 <= i < j < |parsed| :: StringLeq(parsed[i].path, parsed[j].path) && parsed[i].path != parsed[j].path
  }

  lemma {:induction false} ParsedAscending(files: seq<FileSnapshot>, outcomes: map<Path, ParseOutcome>)
    requires Covers(outcomes, files) && Ascending(files)
    ensures AscendingFiles(ParsedFiles(files, outcomes))
    ensures forall pf <- ParsedFiles(files, outcomes) :: exists f :: f in files && f.path == pf.path
  {
    if files != [] {
      var front, last := files[..|files| - 1], files[|files| - 1];
      ParsedAscending(front, outcomes);
      assert files == front + [last];
      forall pf | pf in ParsedFiles(front, outcomes) ensures StringLeq(pf.path, last.path) && pf.path != last.path {
        var f :| f in front && f.path == pf.path;
        var i :| 0 <= i < |front| && front[i] == f;
        assert files[i] == f;
      }
    }
  }

  predicate PathLeq(a: ParsedFile, b: ParsedFile) {
    StringLeq(a.path, b.path)
  }

  /** Any arrangement sorted by path is the ascending one. */
  lemma {:induction false} SortedByPathUnique(s: seq<ParsedFile>, t: seq<ParsedFile>)
    requires Sorted(s, PathLeq) && AscendingFiles(t) && multiset(s) == multiset(t)
    ensures s == t
  {
    hide Sorted;
    SameLength(s, t);
    if s != [] {
      SameFirstFile(s, t);
      MultisetTail(s);
      MultisetTail(t);
      SortedTail(s, PathLeq);
      SortedByPathUnique(s[1..], t[1..]);
      assert s == [s[0]] + s[1..] && t == [t[0]] + t[1..];
    }
  }

  lemma SameFirstFile(s: seq<ParsedFile>, t: seq<ParsedFile>)
    requires s != [] && t != []
    requires Sorted(s, PathLeq) && AscendingFiles(t) && multiset(s) == multiset(t)
    ensures s[0] == t[0]
  {
    assert t[0] in multiset(s) && s[0] in multiset(t);
    var i :| 0 <= i < |t| && t[i] == s[0];
    var j :| 0 <= j < |s| && s[j] == t[0];
    if i > 0 && j > 0 {
      assert PathLeq(s[0], s[j]);
      StringLeqTotal(s[0].path, t[0].path);
    }
  }

  function ErroredPaths(texts: seq<string>): set<Path> {
    set t | t in texts && ErroredPath(t).Some? :: ErroredPath(t).value
  }

  lemma ErroredPathsOfOneMore(texts: seq<string>, text: string)
    ensures ErroredPaths(texts + [text]) ==
            ErroredPaths(texts) + if ErroredPath(text).Some? then {ErroredPath(text).value} else {}
  {
    assert forall t :: t in texts + [text] <==> t in texts || t == text;
  }

  lemma MessagesWithout(files: seq<FileSnapshot>, k: int, outcomes: map<Path, ParseOutcome>)
    requires Covers(outcomes, files) && 0 <= k < |files|
    ensures multiset(Messages(files, outcomes)) ==
            multiset(Messages(files[..k] + files[k + 1..], outcomes)) + multiset{MessageFor(files[k], outcomes)}
  {
    var all := Messages(files, outcomes);
    assert Messages(files[..k] + files[k + 1..], outcomes) == all[..k] + all[k + 1..];
    assert all == all[..k] + [all[k]] + all[k + 1..];
  }

  /** Messages received, and those still owed by the running workers, are exactly
      the messages of the launched files, plus one for a cancelled launch. */
  ghost predicate Accounted(files: seq<FileSnapshot>, outcomes: map<Path, ParseOutcome>, launched: nat,
                            outCh: seq<ParseMessage>, running: seq<FileSnapshot>, stopped: bool)
    requires Covers(outcomes, files) && launched <= |files|
  {
    && Covers(outcomes, running)
    && multiset(outCh) + multiset(Messages(running, outcomes)) ==
       multiset(Messages(files[..launched], outcomes)) + if stopped then multiset{Failure(CANCELLED)} else multiset{}
  }

  lemma ChannelLoad(files: seq<FileSnapshot>, outcomes: map<Path, ParseOutcome>, launched: nat,
                    outCh: seq<ParseMessage>, running: seq<FileSnapshot>, stopped: bool)
    requires Covers(outcomes, files) && launched <= |files|
    requires Accounted(files, outcomes, launched, outCh, running, stopped)
    ensures |outCh| + |running| == launched + if stopped then 1 else 0
  {
    var before := multiset(outCh) + multiset(Messages(running, outcomes));
    assert |before| == |outCh| + |running|;
  }

  lemma AccountLaunch(files: seq<FileSnapshot>, outcomes: map<Path, ParseOutcome>, launched: nat,
                      outCh: seq<ParseMessage>, running: seq<FileSnapshot>)
    requires Covers(outcomes, files) && launched < |files|
    requires Accounted(files, outcomes, launched, outCh, running, false)
    ensures Accounted(files, outcomes, launched + 1, outCh, running + [files[launched]], false)
  {
    var m := MessageFor(files[launched], outcomes);
    assert Messages(running + [files[launched]], outcomes) == Messages(running, outcomes) + [m];
    assert Messages(files[..launched + 1], outcomes) == Messages(files[..launched], outcomes) + [m];
    var owed, sent := multiset(Messages(running, outcomes)), multiset(Messages(files[..launched], outcomes));
    assert multiset(outCh) + owed == sent;
    assert multiset(outCh) + (owed + multiset{m}) == sent + multiset{m};
  }

  lemma AccountStop(files: seq<FileSnapshot>, outcomes: map<Path, ParseOutcome>, launched: nat,
                    outCh: seq<ParseMessage>, running: seq<FileSnapshot>)
    requires Covers(outcomes, files) && launched <= |files|
    requires Accounted(files, outcomes, launched, outCh, running, false)
    ensures Accounted(files, outcomes, launched, outCh + [Failure(CANCELLED)], running, true)
  {
    var owed, sent := multiset(Messages(running, outcomes)), multiset(Messages(files[..launched], outcomes));
    assert multiset(outCh) + owed == sent;
    assert (multiset(outCh) + multiset{Failure(CANCELLED)}) + owed == sent + multiset{Failure(CANCELLED)};
  }

  lemma AccountFinish(files: seq<FileSnapshot>, outcomes: map<Path, ParseOutcome>, launched: nat,
                      outCh: seq<ParseMessage>, running: seq<FileSnapshot>, stopped: bool, k: int)
    requires Covers(outcomes, files) && launched <= |files| && 0 <= k < |running|
    requires Accounted(files, outcomes, launched, outCh, running, stopped)
    ensures Accounted(files, outcomes, launched, outCh + [MessageFor(running[k], outcomes)], running[..k] +
            running[k + 1..], stopped)
  {
    MessagesWithout(running, k, outcomes);
  }

  /** Files are parsed by at most concurrency workers finishing in any order; a
      cancelled context stops the launching after the first launched files. The
      result channel holds |files| messages, and no send finds it full. */
  method RunParsers(files: seq<FileSnapshot>, outcomes: map<Path, ParseOutcome>, concurrency: nat)
    returns (outCh: seq<ParseMessage>, launched: nat)
    requires Covers(outcomes, files) && concurrency > 0
    ensures launched <= |files|
    ensures Accounted(files, outcomes, launched, outCh, [], launched < |files|)
    ensures |outCh| <= |files|
  {
    var running: seq<FileSnapshot>, stopped := [], false;
    outCh, launched := [], 0;
    while (launched < |files| && !stopped) || running != []
      invariant launched <= |files| && (stopped ==> launched < |files|)
      invariant |running| <= concurrency
      invariant Accounted(files, outcomes, launched, outCh, running, stopped)
      decreases 2 * (|files| - launched) + |running| + if stopped then 0 else 1
    {
      ChannelLoad(files, outcomes, launched, outCh, running, stopped);
      var launch := *;
      var cancelled := *;
      if launched < |files| && !stopped && cancelled {
        assert |outCh| < |files|;
        AccountStop(files, outcomes, launched, outCh, running);
        outCh := outCh + [Failure(CANCELLED)];
        stopped := true;
      } else if launched < |files| && !stopped && (running == [] || (launch && |running| < concurrency)) {
        AccountLaunch(files, outcomes, launched, outCh, running);
        running := running + [files[launched]];
        launched := launched + 1;
      } else {
        assert |outCh| < |files|;
        var k :| 0 <= k < |running|;
        AccountFinish(files, outcomes, launched, outCh, running, stopped, k);
        outCh := outCh + [MessageFor(running[k], outcomes)];
        running := running[..k] + running[k + 1..];
      }
    }
    ChannelLoad(files, outcomes, launched, outCh, running, stopped);
  }

  method CollectResults(outCh: seq<ParseMessage>)
    returns (parsed: seq<ParsedFile>, errors: seq<string>, erroredFiles: set<Path>)
    ensures parsed == Successes(outCh) && errors == Failures(outCh)
    ensures erroredFiles == ErroredPaths(errors)
  {
    parsed, errors, erroredFiles := [], [], {};
    for i := 0 to |outCh|
      invariant parsed == Successes(outCh[..i]) && errors == Failures(outCh[..i])
      invariant erroredFiles == ErroredPaths(errors)
    {
      assert outCh[..i + 1][..i] == outCh[..i];
      match outCh[i]
      case Failure(text) =>
        ErroredPathsOfOneMore(errors, text);
        errors := errors + [text];
        if HasPrefix(text, PARSE_ERROR) {
          var path := TrimPrefix(text, PARSE_ERROR);
          var j := Index(path, ": ");
          if j > 0 {
            erroredFiles := erroredFiles + {path[..j]};
          }
        }
      case Success(file) =>
        parsed := parsed + [file];
      case Skip =>
    }
    assert outCh[..|outCh|] == outCh;
  }

  method ParseFiles(files: seq<FileSnapshot>, outcomes: map<Path, ParseOutcome>, concurrency: nat)
    returns (parsed: seq<ParsedFile>, errors: seq<string>, erroredFiles: set<Path>, launched: nat)
    requires Ascending(files) && Covers(outcomes, files) && concurrency > 0
    ensures launched <= |files|
    ensures parsed == ParsedFiles(files[..launched], outcomes)
    ensures multiset(errors) == multiset(FailureTexts(files[..launched], outcomes))
                                + if launched < |files| then multiset{CANCELLED} else multiset{}
    ensures erroredFiles == ErroredPaths(FailureTexts(files[..launched], outcomes))
  {
    hide Successes, Failures, ParsedFiles, FailureTexts, Accounted, ErroredPaths, Sort, Ascending;
    var outCh;
    outCh, launched := RunParsers(files, outcomes, concurrency);
    parsed, errors, erroredFiles := CollectResults(outCh);
    Collected(files, outcomes, outCh, launched);
    parsed := Sort(parsed, PathLeq);
  }

  lemma Collected(files: seq<FileSnapshot>, outcomes: map<Path, ParseOutcome>, outCh: seq<ParseMessage>, launched: nat)
    requires Ascending(files) && Covers(outcomes, files) && launched <= |files|
    requires Accounted(files, outcomes, launched, outCh, [], launched < |files|)
    ensures Sort(Successes(outCh), PathLeq) == ParsedFiles(files[..launched], outcomes)
    ensures multiset(Failures(outCh)) == multiset(FailureTexts(files[..launched], outcomes))
                                         + if launched < |files| then multiset{CANCELLED} else multiset{}
    ensures ErroredPaths(Failures(outCh)) == ErroredPaths(FailureTexts(files[..launched], outcomes))
  {
    hide Successes, Failures, ParsedFiles, FailureTexts, ErroredPaths, Sort;
    var first := files[..launched];
    assert Ascending(first) by { assert forall f <- first :: f in files; }
    CollectedLaunched(first, outcomes, outCh, launched < |files|);
    ErroredWhenCancelled(Failures(outCh), FailureTexts(first, outcomes), launched < |files|);
    SortedResults(Successes(outCh), first, outcomes);
  }

  lemma SortedResults(parsed: seq<ParsedFile>, files: seq<FileSnapshot>, outcomes: map<Path, ParseOutcome>)
    requires Covers(outcomes, files) && Ascending(files)
    requires multiset(parsed) == multiset(ParsedFiles(files, outcomes))
    ensures Sort(parsed, PathLeq) == ParsedFiles(files, outcomes)
  {
    PathPreorder();
    SortSorts(parsed, PathLeq);
    ParsedAscending(files, outcomes);
    SortedByPathUnique(Sort(parsed, PathLeq), ParsedFiles(files, outcomes));
  }

  lemma PathPreorder()
    ensures TotalPreorder(PathLeq)
  {
    forall a: ParsedFile, b: ParsedFile ensures PathLeq(a, b) || PathLeq(b, a) {
      StringLeqTotal(a.path, b.path);
    }
    forall a: ParsedFile, b: ParsedFile, c: ParsedFile | PathLeq(a, b) && PathLeq(b, c) ensures PathLeq(a, c) {
      StringLeqTransitive(a.path, b.path, c.path);
    }
  }

  lemma CollectedLaunched(files: seq<FileSnapshot>, outcomes: map<Path, ParseOutcome>, outCh: seq<ParseMessage>,
                          stopped: bool)
    requires Covers(outcomes, files)
    requires multiset(outCh) == multiset(Messages(files, outcomes)) + if stopped then multiset{Failure(CANCELLED)}
             else multiset{}
    ensures multiset(Successes(outCh)) == multiset(ParsedFiles(files, outcomes))
    ensures multiset(Failures(outCh)) == multiset(FailureTexts(files, outcomes)) + if stopped then multiset{CANCELLED}
            else multiset{}
  {
    var messages := Messages(files, outcomes);
    var sent := messages + if stopped then [Failure(CANCELLED)] else [];
    CollectedInOrder(files, outcomes);
    CollectedAnyOrder(outCh, sent);
    assert sent == if stopped then messages + [Failure(CANCELLED)] else messages;
    assert stopped ==> sent[..|sent| - 1] == messages;
  }

  lemma ErroredWhenCancelled(errors: seq<string>, texts: seq<string>, stopped: bool)
    requires multiset(errors) == multiset(texts) + if stopped then multiset{CANCELLED} else multiset{}
    ensures ErroredPaths(errors) == ErroredPaths(texts)
  {
    assert !HasPrefix(CANCELLED, PARSE_ERROR) by { assert CANCELLED[0] != PARSE_ERROR[0]; }
    forall t ensures t in errors <==> t in texts || (stopped && t == CANCELLED) {
      assert t in multiset(errors) <==> t in multiset(texts) || (stopped && t == CANCELLED);
    }
  }

  /** Absent cancellation each file is accounted for exactly once. */
  lemma {:induction false} EveryFileOnce(files: seq<FileSnapshot>, outcomes: map<Path, ParseOutcome>)
    requires Covers(outcomes, files)
    ensures |ParsedFiles(files, outcomes)| + |FailureTexts(files, outcomes)|
            + multiset(Messages(files, outcomes))[Skip] == |files|
  {
    if files != [] {
      var front := files[..|files| - 1];
      EveryFileOnce(front, outcomes);
      assert Messages(files, outcomes) == Messages(front, outcomes) + [MessageFor(files[|files| - 1], outcomes)];
    }
  }
}
