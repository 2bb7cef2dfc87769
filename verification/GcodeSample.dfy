/** A small print under the production policy, which the scanner accepts. */
module GcodeSample {
  import opened Wrappers
  import opened GcodePolicy
  import opened GcodeReader
  import opened GcodeSafety
  import opened GcodeLifecycle
  import opened Lines

  /** The fields of mainline/policy/gcode-policy.json that the scanner uses. */
  const PRODUCTION_POLICY := Policy(
    536870912, 16384, 5000000, 256, 4096, 2048, 65536, 10000,
    20.0, 30.0, 10.0, 300.0, 100.0, 600.0, 12000.0, 3.0, 0.75, 5.0, 100.0, 0.2, 1.75,
    AxisLimit(-2.0, 302.0), AxisLimit(-6.0, 302.0), AxisLimit(-5.0, 370.0),
    map[StepperX := 1.1, StepperY := 1.5, StepperZ := 0.75, Extruder := 1.0])

  function Corner(x: real, y: real): Point { Point(Value(x), Value(y)) }

  const TRIANGLE := ObjectDefinition(true, NoCenter,
    Points([Corner(100.0, 100.0), Corner(110.0, 100.0), Corner(100.0, 110.0)]))

  function Draw(x: real, y: real, e: EWord): Command {
    Move(false, Absent, Value(x), Value(y), Absent, e, [])
  }

  function Filament(e: real): Command { Move(false, Absent, Absent, Absent, Absent, E(e, true), []) }

  /** One object; then, with relative extrusion, a travel, a bead, a retraction and its recovery. */
  const PRINT: seq<Entry> := [
    Entry.Line(DefineObject(TRIANGLE)),
    Entry.Line(StartPrint(Value(60.0), Value(210.0))),
    Entry.Line(RelativeExtruder),
    Entry.Line(Draw(100.0, 100.0, NoE)),
    Entry.Line(Draw(110.0, 100.0, E(0.3, true))),
    Entry.Line(Filament(-0.8)),
    Entry.Line(Filament(0.8)),
    Entry.Line(EndPrint)]

  /** The scanner after the first lines of it. */
  const DEFINED := INITIAL.(objects := 1, objectPoints := 3, objectXMin := Some(100.0), objectYMin := Some(100.0))
  const STARTED := DEFINED.(start := Some(2))
  const RELATIVE := STARTED.(motion := INITIAL_MOTION.(place := INITIAL_MOTION.place.(absoluteExtruder := false)))

  function Standing(x: real, e: real, account: Account): Scan {
    RELATIVE.(motion := Motion(Place(true, false, Some(x), Some(100.0), None, e), account))
  }

  const DEPOSITED := INITIAL_ACCOUNT.(moving := 0.3)
  const RETRACTED := Standing(110.0, -0.5, DEPOSITED.(credit := 0.8, segments := 1))

  /** One more clean line. */
  lemma CleanAppend(p: Policy, es: seq<Entry>, s: Scan, c: Command, s': Scan)
    requires ReportedBy(p, es) == [] && ScanOf(p, es) == s && s.end.None?
    requires Step(p, s, |es| + 1, c) == (s', true)
    ensures ReportedBy(p, es + [Entry.Line(c)]) == [] && ScanOf(p, es + [Entry.Line(c)]) == s'
  {
    assert (es + [Entry.Line(c)])[..|es|] == es;
  }

  lemma DefineStep()
    ensures Step(PRODUCTION_POLICY, INITIAL, 1, DefineObject(TRIANGLE)) == (DEFINED, true)
  {
    var points := TRIANGLE.polygon.points;
    assert points[..2][..1] == points[..1] && points[..2][1] == points[1] && points[..1][0] == points[0];
    assert MinX(points[..1]) == 100.0 && MinY(points[..1]) == 100.0;
    assert MinX(points[..2]) == 100.0 && MinY(points[..2]) == 100.0;
    assert MinX(points) == 100.0 && MinY(points) == 100.0;
  }

  lemma StartStep()
    ensures Step(PRODUCTION_POLICY, DEFINED, 2, StartPrint(Value(60.0), Value(210.0))) == (STARTED, true)
  {
  }

  lemma RelativeStep()
    ensures STARTED.end.None? && Step(PRODUCTION_POLICY, STARTED, 3, RelativeExtruder) == (RELATIVE, true)
  {
  }

  lemma TravelStep()
    ensures Step(PRODUCTION_POLICY, RELATIVE, 4, Draw(100.0, 100.0, NoE)) ==
            (Standing(100.0, 0.0, INITIAL_ACCOUNT), true)
  {
  }

  lemma BeadStep()
    ensures Step(PRODUCTION_POLICY, Standing(100.0, 0.0, INITIAL_ACCOUNT), 5, Draw(110.0, 100.0, E(0.3, true))) ==
            (Standing(110.0, 0.3, DEPOSITED), true)
  {
    var volume := 0.3 * PRODUCTION_POLICY.FilamentArea();
    assert 0.0 < volume < 1.0;
    assert Square(volume) <= 1.0;
    assert CrossSectionOk(PRODUCTION_POLICY, 0.3, 100.0);
  }

  lemma RetractStep()
    ensures Step(PRODUCTION_POLICY, Standing(110.0, 0.3, DEPOSITED), 6, Filament(-0.8)) == (RETRACTED, true)
  {
  }

  lemma RecoverStep()
    ensures Step(PRODUCTION_POLICY, RETRACTED, 7, Filament(0.8)) == (Standing(110.0, 0.3, DEPOSITED), true)
  {
  }

  /** The first k lines are clean and lead to s. */
  ghost predicate CleanTo(p: Policy, es: seq<Entry>, k: nat, s: Scan) {
    k <= |es| && ReportedBy(p, es[..k]) == [] && ScanOf(p, es[..k]) == s
  }

  lemma NextIsClean(p: Policy, es: seq<Entry>, k: nat, s: Scan, c: Command, s': Scan)
    requires k < |es| && es[k] == Entry.Line(c) && s.end.None? && CleanTo(p, es, k, s)
    requires Step(p, s, k + 1, c) == (s', true)
    ensures CleanTo(p, es, k + 1, s')
  {
    CleanAppend(p, es[..k], s, c, s');
    assert es[..k] + [es[k]] == es[..k + 1];
  }

  lemma CleanTo1()
    ensures CleanTo(PRODUCTION_POLICY, PRINT, 1, DEFINED)
  {
    DefineStep();
    NextIsClean(PRODUCTION_POLICY, PRINT, 0, INITIAL, DefineObject(TRIANGLE), DEFINED);
  }

  lemma CleanTo2()
    ensures CleanTo(PRODUCTION_POLICY, PRINT, 2, STARTED)
  {
    CleanTo1();
    StartStep();
    NextIsClean(PRODUCTION_POLICY, PRINT, 1, DEFINED, StartPrint(Value(60.0), Value(210.0)), STARTED);
  }

  lemma CleanTo3()
    ensures CleanTo(PRODUCTION_POLICY, PRINT, 3, RELATIVE)
  {
    CleanTo2();
    RelativeStep();
    NextIsClean(PRODUCTION_POLICY, PRINT, 2, STARTED, RelativeExtruder, RELATIVE);
  }

  lemma CleanTo4()
    ensures CleanTo(PRODUCTION_POLICY, PRINT, 4, Standing(100.0, 0.0, INITIAL_ACCOUNT))
  {
    CleanTo3();
    TravelStep();
    NextIsClean(PRODUCTION_POLICY, PRINT, 3, RELATIVE, Draw(100.0, 100.0, NoE), Standing(100.0, 0.0, INITIAL_ACCOUNT));
  }

  lemma CleanTo5()
    ensures CleanTo(PRODUCTION_POLICY, PRINT, 5, Standing(110.0, 0.3, DEPOSITED))
  {
    CleanTo4();
    BeadStep();
    NextIsClean(PRODUCTION_POLICY, PRINT, 4, Standing(100.0, 0.0, INITIAL_ACCOUNT), Draw(110.0, 100.0, E(0.3, true)),
                Standing(110.0, 0.3, DEPOSITED));
  }

  lemma CleanTo6()
    ensures CleanTo(PRODUCTION_POLICY, PRINT, 6, RETRACTED)
  {
    CleanTo5();
    RetractStep();
    NextIsClean(PRODUCTION_POLICY, PRINT, 5, Standing(110.0, 0.3, DEPOSITED), Filament(-0.8), RETRACTED);
  }

  lemma CleanTo7()
    ensures CleanTo(PRODUCTION_POLICY, PRINT, 7, Standing(110.0, 0.3, DEPOSITED))
  {
    CleanTo6();
    RecoverStep();
    NextIsClean(PRODUCTION_POLICY, PRINT, 6, RETRACTED, Filament(0.8), Standing(110.0, 0.3, DEPOSITED));
  }

  lemma PrintIsClean()
    ensures CleanTo(PRODUCTION_POLICY, PRINT, 8, Standing(110.0, 0.3, DEPOSITED).(end := Some(8)))
  {
    CleanTo7();
    NextIsClean(PRODUCTION_POLICY, PRINT, 7, Standing(110.0, 0.3, DEPOSITED), EndPrint,
                Standing(110.0, 0.3, DEPOSITED).(end := Some(8)));
  }

  /** A file of numbered lines, and a parser that knows them. */
  function LineNumber(i: nat): seq<byte>
    requires i < 8
  {
    [i as byte, NEWLINE]
  }

  const SAMPLE_LINES: seq<seq<byte>> := seq(8, i requires 0 <= i < 8 => LineNumber(i))

  const SAMPLE_PARSER: Parser := raw => if |raw| > 0 && raw[0] as int < 8 then PRINT[raw[0] as int] else BadSyntax

  lemma SampleSplits()
    ensures SplitLines(Join(SAMPLE_LINES), NEWLINE) == SAMPLE_LINES && |Join(SAMPLE_LINES)| == 16
  {
    assert AreLines(SAMPLE_LINES, NEWLINE);
    JoinSplits(SAMPLE_LINES, NEWLINE);
    JoinLength(SAMPLE_LINES);
  }

  lemma SampleParses()
    ensures Entries(PRODUCTION_POLICY, SAMPLE_PARSER, SAMPLE_LINES) == PRINT
  {
    var es := Entries(PRODUCTION_POLICY, SAMPLE_PARSER, SAMPLE_LINES);
    forall i | 0 <= i < 8 ensures es[i] == PRINT[i] {
      assert SAMPLE_LINES[i] == LineNumber(i);
    }
  }

  /** There are accepted files: the production policy is valid, and this one is admissible. */
  lemma SampleIsAdmissible()
    ensures PRODUCTION_POLICY.Validate()
    ensures Admissible(PRODUCTION_POLICY, SAMPLE_PARSER, Join(SAMPLE_LINES))
    ensures Checked(PRODUCTION_POLICY, SAMPLE_PARSER, Join(SAMPLE_LINES)) == PRINT
  {
    SampleSplits();
    SampleParses();
    PrintIsClean();
    assert PRINT[..8] == PRINT;
  }

  lemma {:induction false} JoinLength(lines: seq<seq<byte>>)
    requires forall i :: 0 <= i < |lines| ==> |lines[i]| == 2
    ensures |Join(lines)| == 2 * |lines|
  {
    if lines != [] {
      JoinLength(lines[1..]);
    }
  }
}
