/** Building, running and testing from the extension (src/meson/runners.ts): the progress
    tracking of a build, its exit check, how the target to build or run is chosen, and the
    command the test runner uses. Processes, tasks, the progress notification and the
    output channel are modelled by what is sent to them. */
module Runners {
  import opened Seqs
  import opened Paths
  import opened MesonTypes
  import Introspection

  // ---------------------------------------------------------------------------------------
  // Progress lines

  /** What `^\[(\d+)\/(\d+)\] (.*)` captures: the steps done, the steps in all, and the text
      of the line. */
  datatype Progress = Progress(done: nat, total: nat, message: string)

  /** A JavaScript line terminator, which `.` does not match. */
  predicate IsLineTerminator(c: char)
  {
    c == '\n' || c == '\r' || c == '\U{2028}' || c == '\U{2029}'
  }

  /** What `(.*)` takes: the text up to the first line terminator. */
  function LineText(s: string): (r: string)
    ensures |r| <= |s| && r == s[..|r|]
    ensures forall i :: 0 <= i < |r| ==> !IsLineTerminator(r[i])
    ensures |r| < |s| ==> IsLineTerminator(s[|r|])
  {
    if s == [] || IsLineTerminator(s[0]) then [] else [s[0]] + LineText(s[1..])
  }

  /** The three captured strings of a progress line: the two numerals and the rest. */
  datatype Parts = Parts(done: string, total: string, rest: string)

  function ProgressParts(msg: string): Option<Parts>
  {
    if msg == [] || msg[0] != '[' then None
    else
      var s := msg[1..];
      var a := Introspection.DigitRun(s);
      if a == 0 || a == |s| || s[a] != '/' then None else ProgressTotal(s[..a], s[a + 1..])
  }

  /** The rest of the pattern once `[<digits>/` is taken. */
  function ProgressTotal(done: string, t: string): Option<Parts>
  {
    var b := Introspection.DigitRun(t);
    if b == 0 || b + 1 >= |t| || t[b] != ']' || t[b + 1] != ' ' then None
    else Some(Parts(done, t[..b], t[b + 2..]))
  }

  /** The match of the progress pattern on a line of the build's output. */
  function ProgressLine(msg: string): Option<Progress>
  {
    match ProgressParts(msg)
    case None => None
    case Some(parts) => Some(Progress(Introspection.DigitsValue(parts.done), Introspection.DigitsValue(parts.total), LineText(parts.rest)))
  }

  /** A recognised line is exactly `[<digits>/<digits>] ` followed by the rest of the line. */
  lemma ProgressPartsShape(msg: string)
    ensures ProgressParts(msg).Some? ==>
      var p := ProgressParts(msg).value;
      Introspection.IsNumeral(p.done) && Introspection.IsNumeral(p.total) &&
      msg == "[" + (p.done + ("/" + (p.total + ("] " + p.rest))))
  {
    if ProgressParts(msg).Some? {
      ProgressPartsJoin(msg);
    }
  }

  lemma ProgressPartsJoin(msg: string)
    requires ProgressParts(msg).Some?
    ensures var p := ProgressParts(msg).value;
      msg == "[" + (p.done + ("/" + (p.total + ("] " + p.rest))))
  {
    var s := msg[1..];
    var a := Introspection.DigitRun(s);
    var t := s[a + 1..];
    ProgressPartsUnfold(msg);
    ProgressTotalJoin(s[..a], t);
    SplitAt(s, a, "/");
    OpenBracket(msg);
  }

  /** The first stage of the pattern hands the text after `[<digits>/` to the second. */
  lemma ProgressPartsUnfold(msg: string)
    requires ProgressParts(msg).Some?
    ensures var s := msg[1..]; var a := Introspection.DigitRun(s);
      && a + 1 <= |s| && s[a..a + 1] == "/"
      && ProgressParts(msg) == ProgressTotal(s[..a], s[a + 1..])
  {
  }

  lemma OpenBracket(msg: string)
    requires ProgressParts(msg).Some?
    ensures msg == "[" + msg[1..]
  {
    assert msg == [msg[0]] + msg[1..];
  }

  lemma ProgressTotalJoin(done: string, t: string)
    requires ProgressTotal(done, t).Some?
    ensures var p := ProgressTotal(done, t).value;
      p.done == done && t == p.total + ("] " + p.rest)
  {
    var b := Introspection.DigitRun(t);
    SplitAt(t, b, "] ");
  }

  /** A string is its part before a separator, the separator and its part after. */
  lemma SplitAt(s: string, k: nat, sep: string)
    requires k + |sep| <= |s| && s[k..k + |sep|] == sep
    ensures s == s[..k] + (sep + s[k + |sep|..])
  {
  }

  /** A numeral followed by a separator that is not a digit. */
  lemma NumeralThen(d: string, sep: string, t: string)
    requires Introspection.IsNumeral(d) && sep != [] && !Introspection.IsDigit(sep[0])
    ensures Introspection.DigitRun(d + (sep + t)) == |d|
    ensures (d + (sep + t))[..|d|] == d && (d + (sep + t))[|d|..] == sep + t
  {
    Introspection.DigitRunOfNumeral(d, sep + t);
  }

  /** Every line of that form is recognised, with its numbers and its text. */
  lemma ProgressLineOf(d1: string, d2: string, rest: string)
    requires Introspection.IsNumeral(d1) && Introspection.IsNumeral(d2)
    ensures ProgressLine("[" + (d1 + ("/" + (d2 + ("] " + rest))))) ==
      Some(Progress(Introspection.DigitsValue(d1), Introspection.DigitsValue(d2), LineText(rest)))
  {
    ProgressPartsOf(d1, d2, rest);
  }

  lemma ProgressPartsOf(d1: string, d2: string, rest: string)
    requires Introspection.IsNumeral(d1) && Introspection.IsNumeral(d2)
    ensures ProgressParts("[" + (d1 + ("/" + (d2 + ("] " + rest))))) == Some(Parts(d1, d2, rest))
  {
    var t := d2 + ("] " + rest);
    var s := d1 + ("/" + t);
    assert ("[" + s)[1..] == s;
    NumeralThen(d1, "/", t);
    assert s[|d1| + 1..] == t;
    ProgressTotalOf(d1, d2, rest);
  }

  lemma ProgressTotalOf(d1: string, d2: string, rest: string)
    requires Introspection.IsNumeral(d2)
    ensures ProgressTotal(d1, d2 + ("] " + rest)) == Some(Parts(d1, d2, rest))
  {
    var t := d2 + ("] " + rest);
    NumeralThen(d2, "] ", rest);
    assert t[|d2| + 2..] == rest;
  }

  /** A line that does not start with "[" is never a progress line. */
  lemma PlainLineIsNotProgress(msg: string)
    requires msg == [] || msg[0] != '['
    ensures ProgressLine(msg).None?
  {
  }

  /** JavaScript divides by zero without failing; the model asks for a positive total. */
  predicate HasTotal(msg: string)
  {
    ProgressLine(msg).None? || ProgressLine(msg).value.total > 0
  }

  predicate AllHaveTotal(lines: seq<string>)
  {
    forall i :: 0 <= i < |lines| ==> HasTotal(lines[i])
  }

  /** `100 * done / total`. */
  function Percentage(p: Progress): real
    requires p.total > 0
  {
    (100 * p.done) as real / p.total as real
  }

  /** The percentage remembered after the lines seen so far: that of the last recognised
      line, or 0 before any. */
  function LastPercentage(lines: seq<string>): real
    requires AllHaveTotal(lines)
  {
    if lines == [] then 0.0
    else
      var msg := lines[|lines| - 1];
      match ProgressLine(msg)
      case Some(p) => Percentage(p)
      case None => LastPercentage(lines[..|lines| - 1])
  }

  /** A progress report: the increment and the message. */
  datatype Report = Report(increment: real, message: string)

  /** What one line reports, given the remembered percentage: the rise since then, with the
      line's text, when there is a rise. */
  function StepReport(previous: real, msg: string): (r: seq<Report>)
    requires HasTotal(msg)
    ensures |r| <= 1
    ensures forall i :: 0 <= i < |r| ==> r[i].increment > 0.0
    ensures r != [] <==> ProgressLine(msg).Some? && Percentage(ProgressLine(msg).value) > previous
    ensures r != [] ==> r[0] == Report(Percentage(ProgressLine(msg).value) - previous, ProgressLine(msg).value.message)
  {
    match ProgressLine(msg)
    case Some(p) =>
      var increment := Percentage(p) - previous;
      if increment > 0.0 then [Report(increment, p.message)] else []
    case None => []
  }

  /** Everything the build reports over the lines seen so far. */
  function Reports(lines: seq<string>): seq<Report>
    requires AllHaveTotal(lines)
  {
    if lines == [] then []
    else
      var n := |lines| - 1;
      Reports(lines[..n]) + StepReport(LastPercentage(lines[..n]), lines[n])
  }

  /** Every reported increment is positive, and no more reports are made than there are
      lines. */
  lemma {:induction false} ReportsArePositive(lines: seq<string>)
    requires AllHaveTotal(lines)
    ensures |Reports(lines)| <= |lines|
    ensures forall i :: 0 <= i < |Reports(lines)| ==> Reports(lines)[i].increment > 0.0
  {
    if lines != [] {
      var n := |lines| - 1;
      ReportsArePositive(lines[..n]);
      var step := StepReport(LastPercentage(lines[..n]), lines[n]);
      assert forall i :: 0 <= i < |step| ==> step[i].increment > 0.0;
    }
  }

  /** While the step counts only grow, the reports add up to the last percentage: the bar
      stands where the build is. */
  predicate Rising(lines: seq<string>)
    requires AllHaveTotal(lines)
  {
    forall i :: 0 < i <= |lines| ==> LastPercentage(lines[..i - 1]) <= LastPercentage(lines[..i])
  }

  function SumIncrements(rs: seq<Report>): real
  {
    if rs == [] then 0.0 else SumIncrements(rs[..|rs| - 1]) + rs[|rs| - 1].increment
  }

  lemma {:induction false} SumIncrementsAppend(a: seq<Report>, b: seq<Report>)
    ensures SumIncrements(a + b) == SumIncrements(a) + SumIncrements(b)
  {
    if b != [] {
      var n := |b| - 1;
      assert (a + b)[..|a + b| - 1] == a + b[..n];
      SumIncrementsAppend(a, b[..n]);
    } else {
      assert a + b == a;
    }
  }

  lemma {:induction false} RisingReportsSum(lines: seq<string>)
    requires AllHaveTotal(lines) && Rising(lines)
    ensures SumIncrements(Reports(lines)) == LastPercentage(lines)
  {
    if lines != [] {
      var n := |lines| - 1;
      var prefix := lines[..n];
      RisingPrefix(lines);
      RisingReportsSum(prefix);
      var step := StepReport(LastPercentage(prefix), lines[n]);
      SumIncrementsAppend(Reports(prefix), step);
      assert LastPercentage(lines[..n]) <= LastPercentage(lines[..n + 1]);
      assert lines[..n + 1] == lines;
      StepSum(lines);
    }
  }

  /** A line's report, if any, is the rise to the new remembered percentage. */
  lemma StepSum(lines: seq<string>)
    requires lines != [] && AllHaveTotal(lines)
    requires LastPercentage(lines[..|lines| - 1]) <= LastPercentage(lines)
    ensures var previous := LastPercentage(lines[..|lines| - 1]);
      previous + SumIncrements(StepReport(previous, lines[|lines| - 1])) == LastPercentage(lines)
  {
    var previous := LastPercentage(lines[..|lines| - 1]);
    var step := StepReport(previous, lines[|lines| - 1]);
    if step != [] {
      assert SumIncrements(step) == SumIncrements([]) + step[0].increment;
    }
  }

  lemma RisingPrefix(lines: seq<string>)
    requires lines != [] && AllHaveTotal(lines) && Rising(lines)
    ensures AllHaveTotal(lines[..|lines| - 1]) && Rising(lines[..|lines| - 1])
  {
    var prefix := lines[..|lines| - 1];
    forall i | 0 < i <= |prefix|
      ensures LastPercentage(prefix[..i - 1]) <= LastPercentage(prefix[..i])
    {
      assert prefix[..i - 1] == lines[..i - 1] && prefix[..i] == lines[..i];
    }
  }

  /** One more line: the remembered percentage and the reports after it. */
  lemma LinesSnoc(lines: seq<string>, msg: string)
    requires AllHaveTotal(lines) && HasTotal(msg)
    ensures AllHaveTotal(lines + [msg])
    ensures LastPercentage(lines + [msg]) ==
      if ProgressLine(msg).Some? then Percentage(ProgressLine(msg).value) else LastPercentage(lines)
    ensures Reports(lines + [msg]) == Reports(lines) + StepReport(LastPercentage(lines), msg)
  {
    var next := lines + [msg];
    assert next[..|next| - 1] == lines && next[|next| - 1] == msg;
  }

  /** The state of the `onLine` callback of `runMesonBuild`: the remembered percentage, the
      reports sent to the progress notification, the lines sent to the output channel, and
      whether the channel has been shown. */
  class ProgressTracker {
    var oldPercentage: real
    var reports: seq<Report>
    var output: seq<string>
    var shown: bool

    /** The remembered percentage and the reports are those of the lines seen so far. */
    ghost predicate Valid()
      reads this
    {
      && AllHaveTotal(output)
      && oldPercentage == LastPercentage(output)
      && reports == Reports(output)
    }

    constructor()
      ensures Valid()
      ensures oldPercentage == 0.0 && reports == [] && output == [] && !shown
    {
      oldPercentage := 0.0;
      reports := [];
      output := [];
      shown := false;
    }

    /** One line of the build's output: a progress line sets the remembered percentage, and
        reports the rise since the last one if there is one; every line goes to the output
        channel, which an error line shows. */
    method OnLine(msg: string, isError: bool)
      requires Valid() && HasTotal(msg)
      modifies this
      ensures Valid()
      ensures output == old(output) + [msg]
      ensures shown == (old(shown) || isError)
      ensures ProgressLine(msg).Some? ==> oldPercentage == Percentage(ProgressLine(msg).value)
      ensures ProgressLine(msg).None? ==> oldPercentage == old(oldPercentage)
      ensures reports == old(reports) + StepReport(old(oldPercentage), msg)
    {
      LinesSnoc(output, msg);
      var percentage, sent := oldPercentage, reports;
      var m := ProgressLine(msg);
      if m.Some? {
        percentage := Percentage(m.value);
        var increment := percentage - oldPercentage;
        if increment > 0.0 {
          sent := sent + [Report(increment, m.value.message)];
        }
      }
      assert sent == reports + StepReport(oldPercentage, msg);
      oldPercentage, reports, output := percentage, sent, output + [msg];
      if isError {
        shown := true;
      }
    }
  }

  // ---------------------------------------------------------------------------------------
  // The end of a build

  const BuildFailed := "Build failed. See Meson Build output for more details."

  /** The stream's exit code (`None` for a process ended by a signal, whose code is null):
      anything but 0 is an error. */
  function BuildOutcome(code: Option<int>): (r: Result<(), string>)
    ensures r.Ok? <==> code == Some(0)
    ensures r.Err? ==> r.error == BuildFailed
  {
    if code != Some(0) then Err(BuildFailed) else Ok(())
  }

  // ---------------------------------------------------------------------------------------
  // Choosing the target

  /** A `TargetLike` argument: a tree node wrapping a target, or a target record. */
  datatype TargetLike = TargetNodeArg(target: Target) | PlainTarget(target: Target)

  /** A JavaScript string result that may be `null` or `undefined`. */
  datatype JsString = Null | Undefined | Str(s: string)

  /** `getTargetName` of src/utils: an uninterpreted, deterministic function. */
  type TargetNamer = Target -> string

  /** `resolveTargetName`: with no argument, the active target's name, or "all" when that is
      accepted, or `null`; with a tree node, its target's name; with a target record, the
      function falls off its end. */
  function ResolveTargetName(target: Option<TargetLike>, active: Option<Target>, acceptAll: bool,
                             targetName: TargetNamer): JsString
  {
    if target.None? then
      if active.None? then (if acceptAll then Str("all") else Null)
      else Str(targetName(active.value))
    else if target.value.TargetNodeArg? then Str(targetName(target.value.target))
    else Undefined
  }

  /** The name is `null` exactly with nothing to build and "all" not accepted, `undefined`
      exactly for a target record, and otherwise the name of the node's target, of the
      active target, or "all". */
  lemma ResolveTargetNameCases(target: Option<TargetLike>, active: Option<Target>, acceptAll: bool,
                               targetName: TargetNamer)
    ensures ResolveTargetName(target, active, acceptAll, targetName).Null? <==>
      target.None? && active.None? && !acceptAll
    ensures ResolveTargetName(target, active, acceptAll, targetName).Undefined? <==>
      target.Some? && target.value.PlainTarget?
    ensures ResolveTargetName(target, active, acceptAll, targetName).Str? ==>
      var name := ResolveTargetName(target, active, acceptAll, targetName).s;
      || (target.Some? && name == targetName(target.value.target))
      || (target.None? && active.Some? && name == targetName(active.value))
      || (target.None? && active.None? && acceptAll && name == "all")
    ensures target.Some? && target.value.TargetNodeArg? ==>
      ResolveTargetName(target, active, acceptAll, targetName) == Str(targetName(target.value.target))
  {
  }

  /** How a template literal prints a name. */
  function Interpolate(s: JsString): string
  {
    match s
    case Null => "null"
    case Undefined => "undefined"
    case Str(x) => x
  }

  /** The command `runMesonBuild` streams: `<ninjaPath> <name>` in the build directory. */
  function BuildCommand(ninjaPath: string, target: Option<TargetLike>, active: Option<Target>,
                        targetName: TargetNamer): string
  {
    ninjaPath + " " + Interpolate(ResolveTargetName(target, active, true, targetName))
  }

  /** With "all" accepted the name is never `null`: no argument and no active target builds
      "all"; a target record, though, is built by the name "undefined". */
  lemma BuildCommandCases(ninjaPath: string, target: Option<TargetLike>, active: Option<Target>,
                          targetName: TargetNamer)
    ensures ResolveTargetName(target, active, true, targetName) != Null
    ensures target.None? && active.None? ==> BuildCommand(ninjaPath, target, active, targetName) == ninjaPath + " all"
    ensures target.Some? && target.value.PlainTarget? ==>
      BuildCommand(ninjaPath, target, active, targetName) == ninjaPath + " undefined"
  {
  }

  /** The value of `resolveTargetPath`. */
  datatype TargetPath = NullPath | UndefinedPath | FilePath(path: Path)

  /** `filename[0]`: the first output file, `undefined` for an empty list. */
  function FirstFile(f: FileNames): TargetPath
    requires f.FileList?
  {
    if f.paths == [] then UndefinedPath else FilePath(f.paths[0])
  }

  /** `resolveTargetPath`: the first output file of the active target when there is no
      argument, of the node's target for a tree node, `null` without either, and
      `undefined` for a target record. Targets from introspection carry a list of files. */
  function ResolveTargetPath(target: Option<TargetLike>, active: Option<Target>): TargetPath
    requires target.Some? ==> target.value.target.filename.FileList?
    requires active.Some? ==> active.value.filename.FileList?
  {
    if target.None? then
      if active.None? then NullPath else FirstFile(active.value.filename)
    else if target.value.TargetNodeArg? then FirstFile(target.value.target.filename)
    else UndefinedPath
  }

  /** What `runMesonTarget` does: nothing, or run the program as a task in the build
      directory. */
  datatype RunAction = NoRun | RunProgram(program: Path, cwd: Path)

  function RunMesonTarget(build: Path, target: Option<TargetLike>, active: Option<Target>): RunAction
    requires target.Some? ==> target.value.target.filename.FileList?
    requires active.Some? ==> active.value.filename.FileList?
  {
    var targetPath := ResolveTargetPath(target, active);
    if !targetPath.FilePath? then NoRun else RunProgram(targetPath.path, build)
  }

  /** A program runs exactly when the chosen target has an output file, and it is the first
      output file of the node's target or, without an argument, of the active target. */
  lemma RunMesonTargetRuns(build: Path, target: Option<TargetLike>, active: Option<Target>)
    requires target.Some? ==> target.value.target.filename.FileList?
    requires active.Some? ==> active.value.filename.FileList?
    ensures RunMesonTarget(build, target, active).RunProgram? <==>
      || (target.None? && active.Some? && active.value.filename.paths != [])
      || (target.Some? && target.value.TargetNodeArg? && target.value.target.filename.paths != [])
    ensures RunMesonTarget(build, target, active).RunProgram? ==>
      var run := RunMesonTarget(build, target, active);
      && run.cwd == build
      && run.program == (if target.None? then active.value.filename.paths[0] else target.value.target.filename.paths[0])
    ensures target.None? && active.None? ==> RunMesonTarget(build, target, active) == NoRun
  {
  }

  // ---------------------------------------------------------------------------------------
  // Tests

  /** A `TestLike` argument: the tests root node, a test node, or a test record. */
  datatype TestLike = TestRootArg(tests: seq<Test>) | TestNodeArg(test: Test) | PlainTest(test: Test)

  /** The task `runMesonTests` runs: every test through ninja, or one test by name through
      Meson, in the build directory. */
  datatype TestTask = AllTests(ninjaPath: string, cwd: Path) | NamedTest(mesonPath: string, name: string, cwd: Path)

  function TestCommandLine(task: TestTask): string
  {
    match task
    case AllTests(ninjaPath, _) => ninjaPath + " test"
    case NamedTest(mesonPath, name, _) => mesonPath + " test " + name
  }

  function RunMesonTests(build: Path, test: Option<TestLike>, mesonPath: string, ninjaPath: string): TestTask
  {
    if test.Some? && !test.value.TestRootArg? then
      var t := test.value.test;
      NamedTest(mesonPath, t.name, build)
    else AllTests(ninjaPath, build)
  }

  /** All tests run exactly without an argument or for the root node; otherwise the one
      test, by its own name whether it came wrapped in a node or not. */
  lemma RunMesonTestsChoice(build: Path, test: Option<TestLike>, mesonPath: string, ninjaPath: string)
    ensures RunMesonTests(build, test, mesonPath, ninjaPath).AllTests? <==> test.None? || test.value.TestRootArg?
    ensures RunMesonTests(build, test, mesonPath, ninjaPath).cwd == build
    ensures RunMesonTests(build, test, mesonPath, ninjaPath).AllTests? ==>
      TestCommandLine(RunMesonTests(build, test, mesonPath, ninjaPath)) == ninjaPath + " test"
    ensures RunMesonTests(build, test, mesonPath, ninjaPath).NamedTest? ==>
      TestCommandLine(RunMesonTests(build, test, mesonPath, ninjaPath)) == mesonPath + " test " + test.value.test.name
    ensures forall t :: RunMesonTests(build, Some(TestNodeArg(t)), mesonPath, ninjaPath) ==
                        RunMesonTests(build, Some(PlainTest(t)), mesonPath, ninjaPath)
  {
  }
}
