/** The per-line rules of the G-code admission scanner (t300_mainline/gcode_policy.py).
    Lines arrive already tokenised; numbers are exact reals. */
module GcodePolicy {
  import opened Wrappers

  // The constants of lines 32-43.
  const E_QUANTUM_MM := 0.00001
  const E_HALF_QUANTUM_MM := E_QUANTUM_MM / 2.0
  const MAX_RETRACTION_SEGMENTS: nat := 64
  const MAX_ROUNDING_FRACTION := 0.00001
  const ZERO_LENGTH_PATH_E_MM := 0.0001
  const PI := 3.141592653589793

  datatype AxisLimit = AxisLimit(minimum: real, maximum: real)
  {
    predicate Contains(v: real) { minimum <= v <= maximum }
  }

  datatype Stepper = StepperX | StepperY | StepperZ | Extruder

  datatype Policy = Policy(
    maxFileBytes: nat, maxLineBytes: nat, maxLines: nat, maxFindings: nat,
    maxObjects: nat, maxPolygonPoints: nat, maxTotalObjectPoints: nat, maxTimelapseFrames: nat,
    kampPurgeMargin: real, kampPurgeAmount: real, kampBreakawayDistance: real,
    nozzleTempMax: real, bedTempMax: real,
    maxVelocity: real, maxAccel: real, maxSquareCornerVelocity: real, minimumCruiseRatioFloor: real,
    maxExtrudeCrossSection: real, maxExtrudeOnlyDistance: real, maxPressureAdvance: real,
    filamentDiameter: real,
    x: AxisLimit, y: AxisLimit, z: AxisLimit,
    tmcCurrentMax: map<Stepper, real>)
  {
    /** What validate demands of the fields the scanner uses. */
    predicate Validate() {
      && 0 < maxFileBytes && 128 <= maxLineBytes && 0 < maxLines && 2 <= maxFindings
      && 0 < maxObjects && 0 < maxPolygonPoints <= maxTotalObjectPoints && 0 < maxTimelapseFrames
      && 0.0 < kampPurgeMargin && 0.0 < kampPurgeAmount && 0.0 < kampBreakawayDistance
      && 0.0 < nozzleTempMax && 0.0 < bedTempMax && 0.0 < maxVelocity && 0.0 < maxAccel
      && 0.0 <= maxSquareCornerVelocity && 0.0 <= minimumCruiseRatioFloor < 1.0
      && 0.0 < maxExtrudeCrossSection && 0.0 < maxExtrudeOnlyDistance
      && 0.0 <= maxPressureAdvance <= 0.2 && 0.0 < filamentDiameter
      && x.minimum < x.maximum && y.minimum < y.maximum && z.minimum < z.maximum
      && (PurgeLength() <= x.maximum || PurgeLength() <= y.maximum)
      && tmcCurrentMax.Keys == {StepperX, StepperY, StepperZ, Extruder}
      && forall s :: s in tmcCurrentMax ==> 0.0 < tmcCurrentMax[s]
    }

    function PurgeLength(): real { kampPurgeAmount + kampBreakawayDistance }

    function FilamentArea(): real {
      PI * (filamentDiameter / 2.0) * (filamentDiameter / 2.0)
    }
  }

  /** A numeric parameter: not given, given but not one finite number, or a value. */
  datatype Number = Absent | Garbage | Value(v: real)

  /** An E word also remembers whether it was written with at most five decimals. */
  datatype EWord = NoE | BadE | E(v: real, fiveDecimals: bool)

  datatype Point = BadPoint | Point(x: Number, y: Number)
  datatype Polygon = NoPolygon | NotAList | Points(points: seq<Point>)
  datatype Center = NoCenter | BadCenter | Center(x: real, y: real)
  datatype ObjectDefinition = ObjectDefinition(nameOk: bool, center: Center, polygon: Polygon)

  /** What a measured object contributes: its point count and its smallest coordinates. */
  datatype Shape = Shape(points: nat, minimumX: real, minimumY: real)

  datatype Command =
    | Refused                    // forbidden, or on neither allowlist
    | StartPrint(bed: Number, nozzle: Number)
    | EndPrint
    | DefineObject(definition: ObjectDefinition)
    | TakeFrame
    | NozzleTarget(s: Number, r: Number)                    // M104, M109
    | BedTarget(s: Number, r: Number)                       // M140, M190
    | VelocityLimit(velocity: Number, accel: Number, corner: Number, ratio: Number, accelToDecel: Number)
    | AccelLimit(s: Number, p: Number, t: Number)           // M204
    | TmcCurrent(stepper: Option<Stepper>, current: Number, hold: Number)
    | PressureAdvance(keysOk: bool, stockExtruder: bool, advance: Number)
    | Percentage(s: Number)                                 // M220, M221
    | Fan(s: Number)                                        // M106
    | Dwell(p: Number, s: Number)                           // G4
    | Progress(p: Number, r: Number)                        // M73
    | AbsoluteAxes | RelativeAxes | AbsoluteExtruder | RelativeExtruder
    | SetOrigin(x: Number, y: Number, z: Number, e: EWord)  // G92
    | Move(arc: bool, f: Number, x: Number, y: Number, z: Number, e: EWord, arcWords: seq<Number>)
    | Finish                     // M400
    | Metadata                   // M117, M118, SET_PRINT_STATS_INFO
    | Inert                      // G17, G21, T0, M107, M600, PAUSE, CANCEL_PRINT, EXCLUDE_OBJECT_START/END

  predicate AllowedBeforeStart(c: Command) {
    c.DefineObject? || c.Progress? || c.Metadata? || c.StartPrint?
  }

  /** Where the scanner believes the head and the E axis are; an axis may be unknown. */
  datatype Place = Place(
    absoluteAxes: bool, absoluteExtruder: bool,
    x: Option<real>, y: Option<real>, z: Option<real>, extruder: real)

  /** The scanner's extrusion accounts. */
  datatype Account = Account(
    credit: real, segments: nat, precise: bool, armed: bool, moving: real, roundingUsed: real)

  datatype Motion = Motion(place: Place, account: Account)

  /** Everything scan_gcode carries from line to line. An absent minimum is +infinity. */
  datatype Scan = Scan(
    start: Option<nat>, end: Option<nat>,
    objects: nat, objectPoints: nat, objectXMin: Option<real>, objectYMin: Option<real>,
    frames: nat, motion: Motion)

  const INITIAL_ACCOUNT := Account(0.0, 0, true, true, 0.0, 0.0)
  const INITIAL_MOTION := Motion(Place(true, true, None, None, None, 0.0), INITIAL_ACCOUNT)
  const INITIAL := Scan(None, None, 0, 0, None, None, 0, INITIAL_MOTION)

  // ---------------------------------------------------------------- objects

  function Min(a: real, b: real): real { if b < a then b else a }
  function Max(a: real, b: real): real { if b > a then b else a }
  function Abs(a: real): real { if a < 0.0 then -a else a }

  predicate PointOk(p: Policy, q: Point) {
    q.Point? && q.x.Value? && q.y.Value? && p.x.Contains(q.x.v) && p.y.Contains(q.y.v)
  }

  /** All vertices at or beyond a bound in one coordinate. */
  predicate AllXFrom(points: seq<Point>, bound: real) {
    forall i :: 0 <= i < |points| ==> points[i].Point? && points[i].x.Value? && bound <= points[i].x.v
  }

  predicate AllYFrom(points: seq<Point>, bound: real) {
    forall i :: 0 <= i < |points| ==> points[i].Point? && points[i].y.Value? && bound <= points[i].y.v
  }

  predicate ObjectOk(p: Policy, o: ObjectDefinition) {
    && o.nameOk
    && !o.center.BadCenter?
    && (o.center.Center? ==> p.x.Contains(o.center.x) && p.y.Contains(o.center.y))
    && o.polygon.Points?
    && 3 <= |o.polygon.points| <= p.maxPolygonPoints
    && forall i :: 0 <= i < |o.polygon.points| ==> PointOk(p, o.polygon.points[i])
  }

  function MinX(points: seq<Point>): (m: real)
    requires |points| > 0
    requires forall i :: 0 <= i < |points| ==> points[i].Point? && points[i].x.Value?
    ensures AllXFrom(points, m)
    ensures exists i :: 0 <= i < |points| && points[i].x.v == m
  {
    var last := points[|points| - 1];
    if |points| == 1 then last.x.v
    else
      var rest := points[..|points| - 1];
      assert forall i :: 0 <= i < |rest| ==> rest[i] == points[i];
      Min(MinX(rest), last.x.v)
  }

  function MinY(points: seq<Point>): (m: real)
    requires |points| > 0
    requires forall i :: 0 <= i < |points| ==> points[i].Point? && points[i].y.Value?
    ensures AllYFrom(points, m)
    ensures exists i :: 0 <= i < |points| && points[i].y.v == m
  {
    var last := points[|points| - 1];
    if |points| == 1 then last.y.v
    else
      var rest := points[..|points| - 1];
      assert forall i :: 0 <= i < |rest| ==> rest[i] == points[i];
      Min(MinY(rest), last.y.v)
  }

  function ShapeOf(p: Policy, o: ObjectDefinition): Option<Shape> {
    if ObjectOk(p, o) then
      Some(Shape(|o.polygon.points|, MinX(o.polygon.points), MinY(o.polygon.points)))
    else None
  }

  /** _validate_object: one pass over the polygon, refusing at the first bad vertex. */
  method ValidateObject(p: Policy, o: ObjectDefinition) returns (shape: Option<Shape>)
    ensures shape.Some? <==> ObjectOk(p, o)
    ensures shape.Some? ==>
      && shape.value.points == |o.polygon.points|
      && AllXFrom(o.polygon.points, shape.value.minimumX)
      && AllYFrom(o.polygon.points, shape.value.minimumY)
    ensures shape == ShapeOf(p, o)
  {
    if !o.nameOk || o.center.BadCenter? { return None; }
    if o.center.Center? && !(p.x.Contains(o.center.x) && p.y.Contains(o.center.y)) { return None; }
    if !o.polygon.Points? { return None; }
    var points := o.polygon.points;
    if |points| < 3 || |points| > p.maxPolygonPoints { return None; }
    shape := MeasurePoints(p, points);
  }

  predicate AllPointsOk(p: Policy, points: seq<Point>) {
    forall k :: 0 <= k < |points| ==> PointOk(p, points[k])
  }

  lemma MinimaStep(p: Policy, points: seq<Point>, i: nat)
    requires i < |points| && AllPointsOk(p, points[..i]) && PointOk(p, points[i])
    ensures AllPointsOk(p, points[..i + 1])
    ensures MinX(points[..i + 1]) == if i == 0 then points[0].x.v else Min(MinX(points[..i]), points[i].x.v)
    ensures MinY(points[..i + 1]) == if i == 0 then points[0].y.v else Min(MinY(points[..i]), points[i].y.v)
  {
    var more := points[..i + 1];
    assert more[..i] == points[..i] && more[i] == points[i];
    forall k | 0 <= k < |more| ensures PointOk(p, more[k]) {
      if k < i { assert PointOk(p, points[..i][k]); }
    }
  }

  /** The loop over the vertices. */
  method MeasurePoints(p: Policy, points: seq<Point>) returns (shape: Option<Shape>)
    requires |points| > 0
    ensures shape.Some? <==> AllPointsOk(p, points)
    ensures shape.Some? ==> shape.value == Shape(|points|, MinX(points), MinY(points))
  {
    var minimumX: Option<real>, minimumY: Option<real> := None, None;
    var i := 0;
    while i < |points|
      invariant 0 <= i <= |points| && AllPointsOk(p, points[..i])
      invariant if i == 0 then minimumX.None? && minimumY.None?
                else minimumX == Some(MinX(points[..i])) && minimumY == Some(MinY(points[..i]))
    {
      var q := points[i];
      if !PointOk(p, q) { return None; }
      MinimaStep(p, points, i);
      minimumX := LowerTo(minimumX, q.x.v);
      minimumY := LowerTo(minimumY, q.y.v);
      i := i + 1;
    }
    assert points[..i] == points;
    shape := Some(Shape(|points|, minimumX.value, minimumY.value));
  }

  /** min against a minimum that starts at +infinity. */
  function LowerTo(m: Option<real>, v: real): (r: Option<real>) {
    match m case None => Some(v) case Some(w) => Some(Min(w, v))
  }

  predicate AtLeast(m: Option<real>, bound: real) {
    m.None? || m.value >= bound
  }

  function AddObject(p: Policy, s: Scan, shape: Option<Shape>): (Scan, bool) {
    if s.objects >= p.maxObjects || shape.None? || s.objectPoints + shape.value.points > p.maxTotalObjectPoints
    then (s, false)
    else
      (s.(objects := s.objects + 1,
          objectPoints := s.objectPoints + shape.value.points,
          objectXMin := LowerTo(s.objectXMin, shape.value.minimumX),
          objectYMin := LowerTo(s.objectYMin, shape.value.minimumY)), true)
  }

  // ----------------------------------------------------------------- limits

  /** Absent, or a value no higher than the ceiling and on the right side of zero. */
  predicate Capped(n: Number, ceiling: real, zeroOk: bool) {
    n.Absent? || (n.Value? && n.v <= ceiling && (if zeroOk then 0.0 <= n.v else 0.0 < n.v))
  }

  predicate LimitsOk(p: Policy, c: Command) {
    match c
    case VelocityLimit(velocity, accel, corner, ratio, accelToDecel) =>
      && Capped(velocity, p.maxVelocity, false)
      && Capped(accel, p.maxAccel, false)
      && Capped(corner, p.maxSquareCornerVelocity, true)
      && (ratio.Absent? || (ratio.Value? && 0.0 <= ratio.v < 1.0 && p.minimumCruiseRatioFloor <= ratio.v))
      && (accelToDecel.Absent? ||
          (&& accelToDecel.Value? && 0.0 < accelToDecel.v
           && var a := if accel.Value? then accel.v else p.maxAccel;
              a > 0.0 && 1.0 - Min(1.0, accelToDecel.v / a) >= p.minimumCruiseRatioFloor))
    case AccelLimit(s, q, t) =>
      Capped(s, p.maxAccel, false) && Capped(q, p.maxAccel, false) && Capped(t, p.maxAccel, false)
    case TmcCurrent(stepper, current, hold) =>
      && stepper.Some? && stepper.value in p.tmcCurrentMax
      && Capped(current, p.tmcCurrentMax[stepper.value], true)
      && Capped(hold, p.tmcCurrentMax[stepper.value], false)
    case _ => true
  }

  /** S if given, otherwise R. */
  function Target(s: Number, r: Number): Number { if s.Absent? then r else s }

  predicate Within(n: Number, low: real, high: real) {
    n.Absent? || (n.Value? && low <= n.v <= high)
  }

  /** `_number(...) or 0.0`; only meaningful when the number is not garbage. */
  function OrZero(n: Number): real { if n.Value? then n.v else 0.0 }

  // ----------------------------------------------------------------- motion

  datatype AxisStep = AxisStep(position: Option<real>, moved: bool, unknownOrigin: bool, ok: bool)

  /** One axis word of a motion command. */
  function StepAxis(absolute: bool, limit: AxisLimit, current: Option<real>, word: Number): AxisStep {
    match word
    case Absent => AxisStep(current, false, false, true)
    case Garbage => AxisStep(current, false, false, false)
    case Value(v) =>
      if !absolute && current.None? then AxisStep(None, false, false, v == 0.0)
      else
        var target := if absolute then v else current.value + v;
        if limit.Contains(target) then
          AxisStep(Some(target), current != Some(target), current.None?, true)
        else AxisStep(current, false, false, false)
  }

  function Delta(before: Option<real>, after: Option<real>): real {
    (if after.Some? then after.value else 0.0) - (if before.Some? then before.value else 0.0)
  }

  function Square(a: real): real { a * a }

  function SquaredDistance(before: Place, after: Place): real {
    Square(Delta(before.x, after.x)) + Square(Delta(before.y, after.y)) + Square(Delta(before.z, after.z))
  }

  /** filament volume / distance <= max_extrude_cross_section, decided without the square root. */
  predicate CrossSectionOk(p: Policy, e: real, squaredDistance: real) {
    && squaredDistance > 0.0
    && Square(e * p.FilamentArea()) <= Square(p.maxExtrudeCrossSection) * squaredDistance
  }

  function RoundingBudget(moving: real): real {
    ZERO_LENGTH_PATH_E_MM + moving * MAX_ROUNDING_FRACTION
  }

  /** Negative E: bank a capped credit. `orca` says: relative E, written with at most five decimals. */
  function Retract(p: Policy, a: Account, delta: real, orca: bool): Account {
    a.(credit := Min(p.maxExtrudeOnlyDistance, a.credit + Abs(delta)),
       segments := a.segments + 1,
       precise := a.precise && orca)
  }

  /** Positive E without XY motion: spend credit, or one armed rounding event. */
  function PushInPlace(a: Account, delta: real, orca: bool, namesXY: bool): (r: Option<Account>) {
    var roundedPath := namesXY && orca && delta <= ZERO_LENGTH_PATH_E_MM && a.armed;
    if a.credit > 0.0 then
      var excess := Max(0.0, delta - a.credit);
      var used := a.roundingUsed + excess;
      if excess > 0.0 &&
         (|| !a.armed || !a.precise || !orca
          || a.segments > MAX_RETRACTION_SEGMENTS
          || excess > E_HALF_QUANTUM_MM * ((a.segments + 1) as real)
          || used > RoundingBudget(a.moving))
      then None
      else
        var charged := if excess > 0.0 then a.(roundingUsed := used, armed := false) else a;
        var credit := Max(0.0, a.credit - delta);
        Some(if credit == 0.0 then charged.(credit := credit, segments := 0, precise := true)
             else charged.(credit := credit))
    else if roundedPath && a.roundingUsed + delta <= RoundingBudget(a.moving) then
      Some(a.(roundingUsed := a.roundingUsed + delta, armed := false))
    else None
  }

  /** Positive E along an XY move: everything is re-armed, nothing carries over. */
  function Deposit(a: Account, delta: real): Account {
    Account(0.0, 0, true, true, a.moving + delta, a.roundingUsed)
  }

  /** Parameters a motion command parses before it looks at the axes. */
  predicate MoveWordsOk(c: Command)
    requires c.Move?
  {
    && !c.f.Garbage? && (c.f.Value? ==> 0.0 < c.f.v)
    && (c.arc ==> forall i :: 0 <= i < |c.arcWords| ==> !c.arcWords[i].Garbage?)
  }

  datatype AxesStep = AxesStep(place: Place, movedXY: bool, unknownOrigin: bool, ok: bool)

  /** The X, Y and Z words in turn; axes read before a refusal stay updated. */
  function StepAxes(p: Policy, at: Place, x: Number, y: Number, z: Number): AxesStep {
    var ax := StepAxis(at.absoluteAxes, p.x, at.x, x);
    if !ax.ok then AxesStep(at, false, false, false) else
    var ay := StepAxis(at.absoluteAxes, p.y, at.y, y);
    if !ay.ok then AxesStep(at.(x := ax.position), false, false, false) else
    var az := StepAxis(at.absoluteAxes, p.z, at.z, z);
    if !az.ok then AxesStep(at.(x := ax.position, y := ay.position), false, false, false) else
    AxesStep(at.(x := ax.position, y := ay.position, z := az.position), ax.moved || ay.moved,
             ax.unknownOrigin || ay.unknownOrigin || az.unknownOrigin, true)
  }

  /** How far a move's E word advances the filament. */
  function EAdvance(at: Place, e: EWord): real {
    if !e.E? then 0.0 else if at.absoluteExtruder then e.v - at.extruder else e.v
  }

  function ExtruderAfter(at: Place, e: EWord): real {
    if !e.E? then at.extruder else if at.absoluteExtruder then e.v else at.extruder + e.v
  }

  /** An E advance of `delta` along a move: the accounts afterwards, or None when refused. */
  function Settle(p: Policy, a: Account, delta: real, orca: bool,
                  movedXY: bool, unknownOrigin: bool, squaredDistance: real, namesXY: bool): Option<Account>
  {
    if (delta < 0.0 || !movedXY) && Abs(delta) > p.maxExtrudeOnlyDistance then None
    else if delta < 0.0 then Some(Retract(p, a, delta, orca))
    else if delta == 0.0 then Some(a)
    else if !movedXY then PushInPlace(a, delta, orca, namesXY)
    else if unknownOrigin || !CrossSectionOk(p, delta, squaredDistance) then None
    else Some(Deposit(a, delta))
  }

  /** G0-G3. The state after a refusal keeps the updates made before it. */
  function StepMove(p: Policy, m: Motion, c: Command): (Motion, bool)
    requires c.Move?
  {
    if !MoveWordsOk(c) then (m, false) else
    var step := StepAxes(p, m.place, c.x, c.y, c.z);
    var place := step.place.(extruder := ExtruderAfter(m.place, c.e));
    if !step.ok then (m.(place := step.place), false)
    else if c.e.NoE? then (m.(place := place), true)
    else if c.e.BadE? then (m.(place := place), false)
    else
      var orca := !m.place.absoluteExtruder && c.e.fiveDecimals;
      var settled := Settle(p, m.account, EAdvance(m.place, c.e), orca, step.movedXY, step.unknownOrigin,
                            SquaredDistance(m.place, place), !c.x.Absent? && !c.y.Absent?);
      if settled.Some? then (Motion(place, settled.value), true) else (Motion(place, m.account), false)
  }

  // ------------------------------------------------------------ one command

  predicate HasLane(p: Policy, s: Scan) {
    || (AtLeast(s.objectYMin, p.kampPurgeMargin) && p.x.maximum >= p.PurgeLength())
    || (AtLeast(s.objectXMin, p.kampPurgeMargin) && p.y.maximum >= p.PurgeLength())
  }

  predicate StartOk(p: Policy, s: Scan, c: Command)
    requires c.StartPrint?
  {
    && s.start.None? && s.objects > 0 && HasLane(p, s)
    && c.bed.Value? && 0.0 <= c.bed.v <= p.bedTempMax
    && c.nozzle.Value? && 150.0 <= c.nozzle.v <= p.nozzleTempMax
  }

  /** START_PRINT forgets every axis and every account, but not the G90/M82 modes. */
  function Begin(s: Scan, line: nat): Scan {
    s.(start := Some(line),
       motion := Motion(INITIAL_MOTION.place.(absoluteAxes := s.motion.place.absoluteAxes,
                                              absoluteExtruder := s.motion.place.absoluteExtruder),
                        INITIAL_ACCOUNT))
  }

  function At(s: Scan, place: Place): Scan {
    s.(motion := s.motion.(place := place))
  }

  /** The effect of one parsed command on the scan, and whether it was free of a violation. */
  function Step(p: Policy, s: Scan, line: nat, c: Command): (Scan, bool) {
    if c.Refused? || (s.start.None? && !AllowedBeforeStart(c)) || (s.start.Some? && c.DefineObject?)
    then (s, false)
    else match c
      case StartPrint(_, _) => if StartOk(p, s, c) then (Begin(s, line), true) else (s, false)
      case EndPrint => if s.end.Some? then (s, false) else (s.(end := Some(line)), true)
      case DefineObject(o) => AddObject(p, s, ShapeOf(p, o))
      case TakeFrame => (s.(frames := s.frames + 1), s.frames + 1 <= p.maxTimelapseFrames)
      case NozzleTarget(t, r) => (s, Within(Target(t, r), 0.0, p.nozzleTempMax))
      case BedTarget(t, r) => (s, Within(Target(t, r), 0.0, p.bedTempMax))
      case VelocityLimit(_, _, _, _, _) => (s, LimitsOk(p, c))
      case AccelLimit(_, _, _) => (s, LimitsOk(p, c))
      case TmcCurrent(_, _, _) => (s, LimitsOk(p, c))
      case PressureAdvance(keysOk, stock, advance) =>
        (s, keysOk && stock && advance.Value? && 0.0 <= advance.v <= p.maxPressureAdvance)
      case Percentage(n) => (s, n.Value? && 0.0 < n.v <= 100.0)
      case Fan(n) => (s, Within(n, 0.0, 255.0))
      case Dwell(ms, sec) =>
        (s, && !ms.Garbage? && !sec.Garbage? && OrZero(ms) >= 0.0 && OrZero(sec) >= 0.0
            && OrZero(ms) / 1000.0 + OrZero(sec) <= 60.0)
      case Progress(n, r) =>
        (s, !n.Garbage? && !r.Garbage? && OrZero(n) >= 0.0 && OrZero(r) >= 0.0)
      case AbsoluteAxes => (At(s, s.motion.place.(absoluteAxes := true)), true)
      case RelativeAxes => (At(s, s.motion.place.(absoluteAxes := false)), true)
      case AbsoluteExtruder => (At(s, s.motion.place.(absoluteExtruder := true)), true)
      case RelativeExtruder => (At(s, s.motion.place.(absoluteExtruder := false)), true)
      case SetOrigin(x, y, z, e) =>
        if !x.Absent? || !y.Absent? || !z.Absent? || e.BadE? then (s, false)
        else if e.E? then (At(s, s.motion.place.(extruder := e.v)), true)
        else (s, true)
      case Move(_, _, _, _, _, _, _) =>
        var (motion, ok) := StepMove(p, s.motion, c);
        (s.(motion := motion), ok)
      case Finish => (s, true)
      case Metadata => (s, true)
      case Inert => (s, true)
  }
}
