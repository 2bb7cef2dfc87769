/** The order of commands in an accepted file, and where its objects lie. */
module GcodeLifecycle {
  import opened Wrappers
  import opened GcodePolicy
  import opened GcodeReader
  import opened GcodeSafety

  predicate IsStart(e: Entry) { e.Line? && e.c.StartPrint? }
  predicate IsEnd(e: Entry) { e.Line? && e.c.EndPrint? }
  predicate IsObject(e: Entry) { e.Line? && e.c.DefineObject? }

  predicate BeforeStart(e: Entry) { e.Blank? || (e.Line? && AllowedBeforeStart(e.c) && !e.c.StartPrint?) }
  predicate Body(e: Entry) { e.Blank? || (e.Line? && !IsStart(e) && !IsEnd(e) && !IsObject(e) && !e.c.Refused?) }
  predicate AfterEnd(e: Entry) { e.Blank? || (e.Line? && e.c.Finish?) }

  /** Line n is the only START_PRINT; nothing but preparation before it. */
  predicate StartsAt(es: seq<Entry>, n: nat) {
    && 1 <= n <= |es| && IsStart(es[n - 1])
    && forall i :: 0 <= i < n - 1 ==> BeforeStart(es[i])
  }

  /** Lines n..m are the body. */
  predicate BodyIs(es: seq<Entry>, n: nat, m: nat)
    requires m <= |es|
  {
    forall i :: n <= i < m ==> Body(es[i])
  }

  /** Line m is the only END_PRINT; only M400 follows. */
  predicate EndsAt(es: seq<Entry>, m: nat) {
    && 1 <= m <= |es| && IsEnd(es[m - 1])
    && forall i :: m <= i < |es| ==> AfterEnd(es[i])
  }

  ghost predicate Ordered(es: seq<Entry>, s: Scan) {
    match s.start
    case None => s.end.None? && forall i :: 0 <= i < |es| ==> BeforeStart(es[i])
    case Some(n) =>
      StartsAt(es, n) &&
      match s.end
      case None => BodyIs(es, n, |es|)
      case Some(m) => n < m && EndsAt(es, m) && BodyIs(es, n, m - 1)
  }

  predicate ObjectsFrom(es: seq<Entry>, x: real, y: real) {
    forall i :: 0 <= i < |es| && IsObject(es[i]) ==>
      ObjectFrom(es[i].c.definition, x, y)
  }

  predicate ObjectFrom(o: ObjectDefinition, x: real, y: real) {
    o.polygon.Points? && AllXFrom(o.polygon.points, x) && AllYFrom(o.polygon.points, y)
  }

  ghost predicate Measured(es: seq<Entry>, s: Scan) {
    && (s.objectXMin.Some? <==> s.objects > 0) && (s.objectYMin.Some? <==> s.objects > 0)
    && (s.objects > 0 ==> (exists i :: 0 <= i < |es| && IsObject(es[i])))
    && (s.objects > 0 ==> ObjectsFrom(es, s.objectXMin.value, s.objectYMin.value))
    && (s.objects == 0 ==> forall i :: 0 <= i < |es| ==> !IsObject(es[i]))
  }

  ghost predicate Lifecycle(p: Policy, es: seq<Entry>, s: Scan) {
    Ordered(es, s) && Measured(es, s) && (s.start.Some? ==> s.objects > 0 && HasLane(p, s))
  }

  lemma OrderedStep(p: Policy, es: seq<Entry>, s: Scan, e: Entry)
    requires Ordered(es, s) && Reported(p, s, |es| + 1, e) == []
    ensures Ordered(es + [e], Next(p, s, |es| + 1, e))
  {
    var es' := es + [e];
    assert forall i :: 0 <= i < |es| ==> es'[i] == es[i];
    assert es'[|es|] == e;
  }

  /** Measuring one more object lowers the minima to it and keeps the earlier bounds. */
  lemma MeasuredStep(p: Policy, es: seq<Entry>, s: Scan, e: Entry)
    requires Measured(es, s) && Reported(p, s, |es| + 1, e) == []
    ensures Measured(es + [e], Next(p, s, |es| + 1, e))
  {
    var es' := es + [e];
    var s' := Next(p, s, |es| + 1, e);
    assert forall i :: 0 <= i < |es| ==> es'[i] == es[i];
    if IsObject(e) {
      var o := e.c.definition;
      var shape := ShapeOf(p, o).value;
      assert IsObject(es'[|es|]);
      forall i | 0 <= i < |es'| && IsObject(es'[i])
        ensures ObjectFrom(es'[i].c.definition, s'.objectXMin.value, s'.objectYMin.value)
      {
        if i < |es| {
          FromLower(es[i].c.definition, s.objectXMin.value, s.objectYMin.value,
                    s'.objectXMin.value, s'.objectYMin.value);
        } else {
          FromLower(o, shape.minimumX, shape.minimumY, s'.objectXMin.value, s'.objectYMin.value);
        }
      }
    } else {
      assert s'.objects == s.objects && s'.objectXMin == s.objectXMin && s'.objectYMin == s.objectYMin;
    }
  }

  lemma FromLower(o: ObjectDefinition, x: real, y: real, x': real, y': real)
    requires ObjectFrom(o, x, y) && x' <= x && y' <= y
    ensures ObjectFrom(o, x', y')
  {
  }

  lemma LaneStep(p: Policy, s: Scan, line: nat, e: Entry)
    requires s.start.Some? ==> s.objects > 0 && HasLane(p, s)
    requires Reported(p, s, line, e) == []
    ensures
      var s' := Next(p, s, line, e);
      s'.start.Some? ==> s'.objects > 0 && HasLane(p, s')
  {
  }

  lemma {:induction false} CleanLifecycle(p: Policy, es: seq<Entry>)
    requires ReportedBy(p, es) == []
    ensures Lifecycle(p, es, ScanOf(p, es))
  {
    if es != [] {
      CleanLast(p, es);
      var before, e := es[..|es| - 1], es[|es| - 1];
      CleanLifecycle(p, before);
      assert es == before + [e];
      OrderedStep(p, before, ScanOf(p, before), e);
      MeasuredStep(p, before, ScanOf(p, before), e);
      LaneStep(p, ScanOf(p, before), |es|, e);
    }
  }

  /** Some bounded purge lane is free of every object vertex. */
  predicate LaneFree(p: Policy, es: seq<Entry>) {
    || (p.PurgeLength() <= p.x.maximum && forall i :: 0 <= i < |es| && IsObject(es[i]) ==>
          es[i].c.definition.polygon.Points? && AllYFrom(es[i].c.definition.polygon.points, p.kampPurgeMargin))
    || (p.PurgeLength() <= p.y.maximum && forall i :: 0 <= i < |es| && IsObject(es[i]) ==>
          es[i].c.definition.polygon.Points? && AllXFrom(es[i].c.definition.polygon.points, p.kampPurgeMargin))
  }

  /** An accepted file is preparation with at least one object, START_PRINT, a body, END_PRINT,
      and M400 only; all its objects leave one purge lane free. */
  lemma AcceptedLifecycle(p: Policy, parse: Parser, data: seq<byte>)
    requires Admissible(p, parse, data)
    ensures
      var es := Checked(p, parse, data);
      exists n: nat, m: nat :: n < m <= |es| && StartsAt(es, n) && BodyIs(es, n, m - 1) && EndsAt(es, m)
    ensures
      var es := Checked(p, parse, data);
      (exists i :: 0 <= i < |es| && IsObject(es[i])) && LaneFree(p, es)
  {
    AdmissibleIsClean(p, parse, data);
    var es := Checked(p, parse, data);
    CleanLifecycle(p, es);
    LaneFromMinima(p, es, ScanOf(p, es));
  }

  lemma LaneFromMinima(p: Policy, es: seq<Entry>, s: Scan)
    requires s.objects > 0 && Measured(es, s) && HasLane(p, s)
    ensures LaneFree(p, es)
  {
    forall i | 0 <= i < |es| && IsObject(es[i])
      ensures ObjectFrom(es[i].c.definition, s.objectXMin.value, s.objectYMin.value)
    {
    }
  }

  // ------------------------------------------------------ settings and counts

  /** A number that is given is finite and lies in the range. */
  predicate GivenIn(n: Number, low: real, high: real) { n.Absent? || (n.Value? && low <= n.v <= high) }

  /** The centre, if given, and at least three vertices, all over the bed. */
  predicate InsideBed(p: Policy, o: ObjectDefinition) {
    && (o.center.Center? ==> p.x.Contains(o.center.x) && p.y.Contains(o.center.y))
    && o.polygon.Points? && |o.polygon.points| >= 3
    && forall i :: 0 <= i < |o.polygon.points| ==> PointOk(p, o.polygon.points[i])
  }

  /** A setting leaves the machine within the ceilings. */
  predicate SettingOk(p: Policy, c: Command) {
    match c
    case StartPrint(bed, nozzle) =>
      bed.Value? && 0.0 <= bed.v <= p.bedTempMax && nozzle.Value? && 150.0 <= nozzle.v <= p.nozzleTempMax
    case NozzleTarget(s, r) => if s.Absent? then GivenIn(r, 0.0, p.nozzleTempMax) else GivenIn(s, 0.0, p.nozzleTempMax)
    case BedTarget(s, r) => if s.Absent? then GivenIn(r, 0.0, p.bedTempMax) else GivenIn(s, 0.0, p.bedTempMax)
    case VelocityLimit(velocity, accel, corner, ratio, decel) =>
      && GivenIn(velocity, 0.0, p.maxVelocity) && GivenIn(accel, 0.0, p.maxAccel)
      && GivenIn(corner, 0.0, p.maxSquareCornerVelocity) && GivenIn(ratio, p.minimumCruiseRatioFloor, 1.0)
      && (decel.Absent? || (decel.Value? && CruiseKept(p, decel.v, if accel.Value? then accel.v else p.maxAccel)))
    case AccelLimit(s, q, t) =>
      GivenIn(s, 0.0, p.maxAccel) && GivenIn(q, 0.0, p.maxAccel) && GivenIn(t, 0.0, p.maxAccel)
    case TmcCurrent(stepper, current, hold) =>
      && stepper.Some? && stepper.value in p.tmcCurrentMax
      && GivenIn(current, 0.0, p.tmcCurrentMax[stepper.value]) && GivenIn(hold, 0.0, p.tmcCurrentMax[stepper.value])
    case PressureAdvance(_, stock, advance) => stock && advance.Value? && 0.0 <= advance.v <= p.maxPressureAdvance
    case DefineObject(o) => InsideBed(p, o)
    case Percentage(n) => n.Value? && 0.0 < n.v <= 100.0
    case Fan(n) => GivenIn(n, 0.0, 255.0)
    case Dwell(ms, s) => !ms.Garbage? && !s.Garbage? && OrZero(ms) + 1000.0 * OrZero(s) <= 60000.0
    case _ => true
  }

  /** The legacy limit d implies the cruise ratio 1 - d / a, which may not fall below the floor. */
  predicate CruiseKept(p: Policy, d: real, a: real) {
    p.minimumCruiseRatioFloor > 0.0 ==> d <= (1.0 - p.minimumCruiseRatioFloor) * a
  }

  lemma ImpliedRatio(p: Policy, d: real, a: real)
    requires a > 0.0 && 1.0 - Min(1.0, d / a) >= p.minimumCruiseRatioFloor
    ensures CruiseKept(p, d, a)
  {
    if p.minimumCruiseRatioFloor > 0.0 {
      DivideBy(d, 1.0 - p.minimumCruiseRatioFloor, a);
    }
  }

  lemma SettingStep(p: Policy, s: Scan, line: nat, c: Command)
    requires p.Validate() && Step(p, s, line, c).1
    ensures SettingOk(p, c)
  {
    if c.VelocityLimit? && c.accelToDecel.Value? {
      ImpliedRatio(p, c.accelToDecel.v, if c.accel.Value? then c.accel.v else p.maxAccel);
    }
  }

  /** No line of an accepted file raises a limit above its ceiling. */
  lemma AcceptedSettings(p: Policy, parse: Parser, data: seq<byte>, k: nat)
    requires p.Validate() && Admissible(p, parse, data) && k < |Checked(p, parse, data)|
    ensures Checked(p, parse, data)[k].Line? ==> SettingOk(p, Checked(p, parse, data)[k].c)
  {
    var es := Checked(p, parse, data);
    assert ReportedBy(p, es) == [] by { AdmissibleIsClean(p, parse, data); }
    CleanSettings(p, es, k);
  }

  lemma CleanSettings(p: Policy, es: seq<Entry>, k: nat)
    requires p.Validate() && ReportedBy(p, es) == [] && k < |es|
    ensures es[k].Line? ==> SettingOk(p, es[k].c)
  {
    CleanPrefix(p, es, k + 1);
    CleanLast(p, es[..k + 1]);
    assert es[..k + 1][..k] == es[..k];
    if es[k].Line? { SettingStep(p, ScanOf(p, es[..k]), k + 1, es[k].c); }
  }

  function ObjectsIn(es: seq<Entry>): nat {
    if es == [] then 0 else ObjectsIn(es[..|es| - 1]) + if IsObject(es[|es| - 1]) then 1 else 0
  }

  function PointsIn(es: seq<Entry>): nat {
    if es == [] then 0
    else
      var last := es[|es| - 1];
      PointsIn(es[..|es| - 1]) +
      if IsObject(last) && last.c.definition.polygon.Points? then |last.c.definition.polygon.points| else 0
  }

  function FramesIn(es: seq<Entry>): nat {
    if es == [] then 0
    else FramesIn(es[..|es| - 1]) + if es[|es| - 1].Line? && es[|es| - 1].c.TakeFrame? then 1 else 0
  }

  /** The reported counts are the numbers of definitions, polygon points and frames. */
  lemma {:induction false} CleanCounts(p: Policy, es: seq<Entry>)
    requires ReportedBy(p, es) == []
    ensures
      var s := ScanOf(p, es);
      && s.objects == ObjectsIn(es) <= p.maxObjects
      && s.objectPoints == PointsIn(es) <= p.maxTotalObjectPoints
      && s.frames == FramesIn(es) <= p.maxTimelapseFrames
  {
    if es != [] {
      CleanLast(p, es);
      CleanCounts(p, es[..|es| - 1]);
    }
  }
}
