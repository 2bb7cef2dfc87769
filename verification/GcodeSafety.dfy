/** What an accepted file can physically do: an independent machine obeys the file's words,
    and a ledger records where the head goes and where the filament comes out. */
module GcodeSafety {
  import opened Wrappers
  import opened GcodePolicy
  import opened GcodeReader
  import opened Lines

  /** The printer as the words command it; every axis really is somewhere. */
  datatype Machine = Machine(x: real, y: real, z: real, e: real, absoluteAxes: bool, absoluteExtruder: bool)

  /** One extruding XY move: filament pushed and squared straight-line distance. */
  datatype Segment = Segment(e: real, squared: real)

  datatype Ledger = Ledger(
    machine: Machine,
    ooze: real,             // net E since the last extruding XY move, or START_PRINT
    stationary: real,       // all positive E pushed without XY motion
    retracted: real,        // all E pulled back
    longest: real,          // the largest single E stroke that was not an extruding XY move
    path: seq<Segment>)     // every extruding XY move, in order

  function Target1(absolute: bool, at: real, word: Number): real {
    if word.Value? then (if absolute then word.v else at + word.v) else at
  }

  function DeltaE(m: Machine, e: EWord): real {
    if e.E? then (if m.absoluteExtruder then e.v - m.e else e.v) else 0.0
  }

  function Drive(l: Ledger, c: Command): Ledger
    requires c.Move?
  {
    var m := l.machine;
    var x, y := Target1(m.absoluteAxes, m.x, c.x), Target1(m.absoluteAxes, m.y, c.y);
    var z := Target1(m.absoluteAxes, m.z, c.z);
    var q := DeltaE(m, c.e);
    var l' := l.(machine := m.(x := x, y := y, z := z, e := m.e + q));
    if q > 0.0 && (x != m.x || y != m.y) then
      l'.(ooze := 0.0,
          path := l.path + [Segment(q, Square(x - m.x) + Square(y - m.y) + Square(z - m.z))])
    else if q > 0.0 then l'.(ooze := l.ooze + q, stationary := l.stationary + q, longest := Max(l.longest, q))
    else l'.(ooze := l.ooze + q, retracted := l.retracted - q, longest := Max(l.longest, -q))
  }

  /** `home` is wherever START_PRINT leaves the head. */
  function Obey(home: Machine, l: Ledger, c: Command): Ledger {
    match c
    case StartPrint(_, _) =>
      Ledger(home.(e := 0.0, absoluteAxes := l.machine.absoluteAxes, absoluteExtruder := l.machine.absoluteExtruder),
             0.0, 0.0, 0.0, 0.0, [])
    case AbsoluteAxes => l.(machine := l.machine.(absoluteAxes := true))
    case RelativeAxes => l.(machine := l.machine.(absoluteAxes := false))
    case AbsoluteExtruder => l.(machine := l.machine.(absoluteExtruder := true))
    case RelativeExtruder => l.(machine := l.machine.(absoluteExtruder := false))
    case SetOrigin(_, _, _, e) => if e.E? then l.(machine := l.machine.(e := e.v)) else l
    case Move(_, _, _, _, _, _, _) => Drive(l, c)
    case _ => l
  }

  function LedgerOf(home: Machine, es: seq<Entry>): Ledger {
    if es == [] then Ledger(home.(e := 0.0, absoluteAxes := true, absoluteExtruder := true), 0.0, 0.0, 0.0, 0.0, [])
    else
      var before := LedgerOf(home, es[..|es| - 1]);
      var e := es[|es| - 1];
      if e.Line? then Obey(home, before, e.c) else before
  }

  function Deposited(path: seq<Segment>): real {
    if path == [] then 0.0 else Deposited(path[..|path| - 1]) + path[|path| - 1].e
  }

  // ----------------------------------------------------- what is guaranteed

  const OOZE_LIMIT := 0.000325

  predicate InBox(p: Policy, m: Machine) {
    p.x.Contains(m.x) && p.y.Contains(m.y) && p.z.Contains(m.z)
  }

  /** A known axis is where the scanner thinks it is; an unknown one has not moved. */
  predicate AxisTracked(known: Option<real>, at: real, home: real) {
    at == if known.Some? then known.value else home
  }

  predicate Tracked(s: Place, m: Machine, home: Machine) {
    && AxisTracked(s.x, m.x, home.x) && AxisTracked(s.y, m.y, home.y) && AxisTracked(s.z, m.z, home.z)
    && s.extruder == m.e
    && s.absoluteAxes == m.absoluteAxes && s.absoluteExtruder == m.absoluteExtruder
  }

  predicate KnownInBox(p: Policy, s: Place) {
    && (s.x.Some? ==> p.x.Contains(s.x.value))
    && (s.y.Some? ==> p.y.Contains(s.y.value))
    && (s.z.Some? ==> p.z.Contains(s.z.value))
  }

  /** The extrusion accounts against what really came out. */
  predicate Accounts(p: Policy, a: Account, l: Ledger) {
    && 0.0 <= a.credit <= p.maxExtrudeOnlyDistance
    && l.ooze + a.credit <= (if a.armed then 0.0 else OOZE_LIMIT)
    && l.stationary + a.credit <= l.retracted + a.roundingUsed
    && 0.0 <= a.roundingUsed <= RoundingBudget(a.moving)
    && a.moving == Deposited(l.path)
    && l.longest <= p.maxExtrudeOnlyDistance
  }

  predicate Thin(p: Policy, path: seq<Segment>) {
    forall i :: 0 <= i < |path| ==> path[i].e > 0.0 && CrossSectionOk(p, path[i].e, path[i].squared)
  }

  ghost predicate Sound(p: Policy, home: Machine, s: Motion, l: Ledger) {
    && Tracked(s.place, l.machine, home) && KnownInBox(p, s.place)
    && Accounts(p, s.account, l) && Thin(p, l.path)
  }

  // ------------------------------------------------------ one step is sound

  lemma StepAxisSound(absolute: bool, limit: AxisLimit, current: Option<real>, word: Number, at: real, home: real)
    requires AxisTracked(current, at, home) && (current.Some? ==> limit.Contains(current.value))
    requires StepAxis(absolute, limit, current, word).ok
    ensures
      var step := StepAxis(absolute, limit, current, word);
      var to := Target1(absolute, at, word);
      && AxisTracked(step.position, to, home)
      && (step.position.Some? ==> limit.Contains(step.position.value))
      && (!step.moved ==> to == at)
      && (step.moved && !step.unknownOrigin ==> to != at)
      && (!step.unknownOrigin ==> Delta(current, step.position) == to - at)
  {
  }

  predicate SameXY(a: Machine, b: Machine) { a.x == b.x && a.y == b.y }

  function SquaredTravel(a: Machine, b: Machine): real {
    Square(b.x - a.x) + Square(b.y - a.y) + Square(b.z - a.z)
  }

  /** The axis words of a move, as the scanner reads them and as the machine obeys them. */
  lemma AxesSound(p: Policy, home: Machine, s: Place, m: Machine, m': Machine, x: Number, y: Number, z: Number)
    requires Tracked(s, m, home) && KnownInBox(p, s) && StepAxes(p, s, x, y, z).ok
    requires m' == m.(x := Target1(m.absoluteAxes, m.x, x), y := Target1(m.absoluteAxes, m.y, y),
                      z := Target1(m.absoluteAxes, m.z, z))
    ensures
      var step := StepAxes(p, s, x, y, z);
      && Tracked(step.place, m', home) && KnownInBox(p, step.place)
      && (!step.movedXY ==> SameXY(m, m'))
      && (step.movedXY && !step.unknownOrigin ==>
          !SameXY(m, m') && SquaredDistance(s, step.place) == SquaredTravel(m, m'))
  {
    StepAxisSound(s.absoluteAxes, p.x, s.x, x, m.x, home.x);
    StepAxisSound(s.absoluteAxes, p.y, s.y, y, m.y, home.y);
    StepAxisSound(s.absoluteAxes, p.z, s.z, z, m.z, home.z);
  }

  lemma DepositedAppend(path: seq<Segment>, seg: Segment)
    ensures Deposited(path + [seg]) == Deposited(path) + seg.e
  {
    assert (path + [seg])[..|path|] == path;
  }

  /** The ledger entry of an E advance, as the machine sees the move. */
  function Book(l: Ledger, q: real, movedXY: bool, squared: real): Ledger {
    if q > 0.0 && movedXY then l.(ooze := 0.0, path := l.path + [Segment(q, squared)])
    else if q > 0.0 then l.(ooze := l.ooze + q, stationary := l.stationary + q, longest := Max(l.longest, q))
    else l.(ooze := l.ooze + q, retracted := l.retracted - q, longest := Max(l.longest, -q))
  }

  /** The accounts survive every E advance the scanner lets through. */
  lemma SettleSound(p: Policy, a: Account, l: Ledger, q: real, orca: bool,
                    movedXY: bool, unknownOrigin: bool, squared: real, namesXY: bool)
    requires p.Validate() && Accounts(p, a, l) && Thin(p, l.path)
    requires Settle(p, a, q, orca, movedXY, unknownOrigin, squared, namesXY).Some?
    ensures Accounts(p, Settle(p, a, q, orca, movedXY, unknownOrigin, squared, namesXY).value,
                     Book(l, q, movedXY, squared))
    ensures Thin(p, Book(l, q, movedXY, squared).path)
  {
    if q > 0.0 && !movedXY && a.credit > 0.0 && q > a.credit {
      assert q - a.credit <= E_HALF_QUANTUM_MM * ((a.segments + 1) as real) <= OOZE_LIMIT;
    } else if q > 0.0 && movedXY {
      DepositedAppend(l.path, Segment(q, squared));
    }
  }

  /** Where the machine's axis words take it. */
  function MovedTo(m: Machine, c: Command): Machine
    requires c.Move?
  {
    m.(x := Target1(m.absoluteAxes, m.x, c.x), y := Target1(m.absoluteAxes, m.y, c.y),
       z := Target1(m.absoluteAxes, m.z, c.z))
  }

  /** What the machine does on a move is what Book enters, at the scanner's own figures. */
  lemma DriveBooks(p: Policy, home: Machine, s: Motion, l: Ledger, c: Command)
    requires Tracked(s.place, l.machine, home) && KnownInBox(p, s.place) && c.Move? && StepMove(p, s, c).1
    ensures
      var step := StepAxes(p, s.place, c.x, c.y, c.z);
      var q := EAdvance(s.place, c.e);
      && Tracked(step.place, MovedTo(l.machine, c), home) && KnownInBox(p, step.place)
      && Drive(l, c) == Book(l, q, step.movedXY, SquaredDistance(s.place, step.place))
                          .(machine := MovedTo(l.machine, c).(e := l.machine.e + q))
  {
    AxesSound(p, home, s.place, l.machine, MovedTo(l.machine, c), c.x, c.y, c.z);
  }

  lemma MoveTracked(p: Policy, home: Machine, s: Motion, l: Ledger, c: Command)
    requires Tracked(s.place, l.machine, home) && KnownInBox(p, s.place) && c.Move? && StepMove(p, s, c).1
    ensures Tracked(StepMove(p, s, c).0.place, Drive(l, c).machine, home)
    ensures KnownInBox(p, StepMove(p, s, c).0.place)
  {
    DriveBooks(p, home, s, l, c);
  }

  lemma MoveAccounts(p: Policy, home: Machine, s: Motion, l: Ledger, c: Command)
    requires p.Validate() && Sound(p, home, s, l) && c.Move? && StepMove(p, s, c).1
    ensures Accounts(p, StepMove(p, s, c).0.account, Drive(l, c)) && Thin(p, Drive(l, c).path)
  {
    var step := StepAxes(p, s.place, c.x, c.y, c.z);
    var q, squared := EAdvance(s.place, c.e), SquaredDistance(s.place, step.place);
    DriveBooks(p, home, s, l, c);
    SettledAccounts(p, s, l, c, q, step, squared);
  }

  lemma SettledAccounts(p: Policy, s: Motion, l: Ledger, c: Command, q: real, step: AxesStep, squared: real)
    requires p.Validate() && Accounts(p, s.account, l) && Thin(p, l.path) && c.Move? && StepMove(p, s, c).1
    requires step == StepAxes(p, s.place, c.x, c.y, c.z)
    requires q == EAdvance(s.place, c.e) && squared == SquaredDistance(s.place, step.place)
    ensures Accounts(p, StepMove(p, s, c).0.account, Book(l, q, step.movedXY, squared))
    ensures Thin(p, Book(l, q, step.movedXY, squared).path)
  {
    if c.e.E? {
      SettleSound(p, s.account, l, q, !s.place.absoluteExtruder && c.e.fiveDecimals,
                  step.movedXY, step.unknownOrigin, squared, !c.x.Absent? && !c.y.Absent?);
    }
  }

  /** Every move the scanner lets through keeps its belief, and its accounts, true. */
  lemma MoveSound(p: Policy, home: Machine, s: Motion, l: Ledger, c: Command)
    requires p.Validate() && Sound(p, home, s, l) && c.Move? && StepMove(p, s, c).1
    ensures Sound(p, home, StepMove(p, s, c).0, Drive(l, c))
  {
    MoveTracked(p, home, s, l, c);
    MoveAccounts(p, home, s, l, c);
  }

  lemma StepSound(p: Policy, home: Machine, s: Scan, l: Ledger, line: nat, c: Command)
    requires p.Validate() && Sound(p, home, s.motion, l) && Step(p, s, line, c).1
    ensures Sound(p, home, Step(p, s, line, c).0.motion, Obey(home, l, c))
  {
    if c.Move? {
      MoveSound(p, home, s.motion, l, c);
    }
  }

  // ------------------------------------------------------------ whole files

  lemma {:induction false} CleanRunSound(p: Policy, home: Machine, es: seq<Entry>)
    requires p.Validate() && ReportedBy(p, es) == []
    ensures Sound(p, home, ScanOf(p, es).motion, LedgerOf(home, es))
  {
    if es != [] {
      CleanLast(p, es);
      var before, e := es[..|es| - 1], es[|es| - 1];
      CleanRunSound(p, home, before);
      if e.Line? {
        StepSound(p, home, ScanOf(p, before), LedgerOf(home, before), |es|, e.c);
      }
    }
  }

  /** A clean file is clean up to its last line, and the last line reports nothing. */
  lemma CleanLast(p: Policy, es: seq<Entry>)
    requires es != [] && ReportedBy(p, es) == []
    ensures ReportedBy(p, es[..|es| - 1]) == []
    ensures Reported(p, ScanOf(p, es[..|es| - 1]), |es|, es[|es| - 1]) == []
  {
  }

  lemma {:induction false} CleanPrefix(p: Policy, es: seq<Entry>, k: nat)
    requires ReportedBy(p, es) == [] && k <= |es|
    ensures ReportedBy(p, es[..k]) == []
    decreases |es|
  {
    if k < |es| {
      var before := es[..|es| - 1];
      CleanLast(p, es);
      assert before[..k] == es[..k];
      CleanPrefix(p, before, k);
    } else {
      assert es[..k] == es;
    }
  }

  lemma AdmissibleIsClean(p: Policy, parse: Parser, data: seq<byte>)
    requires Admissible(p, parse, data)
    ensures ReportedBy(p, Checked(p, parse, data)) == []
    ensures ScanOf(p, Checked(p, parse, data)).start.Some? && ScanOf(p, Checked(p, parse, data)).end.Some?
    ensures |SplitLines(data, NEWLINE)| <= p.maxLines
    ensures Checked(p, parse, data) == Entries(p, parse, SplitLines(data, NEWLINE))
  {
  }

  /** The first k lines of an accepted file. */
  function FirstLines(p: Policy, parse: Parser, data: seq<byte>, k: nat): seq<Entry>
    requires k <= |Checked(p, parse, data)|
  {
    Checked(p, parse, data)[..k]
  }

  lemma AcceptedPrefixSound(p: Policy, parse: Parser, data: seq<byte>, home: Machine, k: nat)
    requires p.Validate() && Admissible(p, parse, data) && k <= |Checked(p, parse, data)|
    ensures
      var es := FirstLines(p, parse, data, k);
      ReportedBy(p, es) == [] && Sound(p, home, ScanOf(p, es).motion, LedgerOf(home, es))
  {
    AdmissibleIsClean(p, parse, data);
    CleanPrefix(p, Checked(p, parse, data), k);
    CleanRunSound(p, home, FirstLines(p, parse, data, k));
  }

  /** At every point of an accepted file the net filament pushed since the last extruding
      move is at most 0.000325 mm, and no in-place stroke exceeds the E-only limit. */
  lemma OozeIsBounded(p: Policy, parse: Parser, data: seq<byte>, home: Machine, k: nat)
    requires p.Validate() && Admissible(p, parse, data) && k <= |Checked(p, parse, data)|
    ensures
      var l := LedgerOf(home, FirstLines(p, parse, data, k));
      l.ooze <= OOZE_LIMIT && l.longest <= p.maxExtrudeOnlyDistance
  {
    AcceptedPrefixSound(p, parse, data, home, k);
  }

  lemma AccountsPay(p: Policy, a: Account, l: Ledger)
    requires Accounts(p, a, l)
    ensures l.stationary <= l.retracted + 0.0001 + 0.00001 * Deposited(l.path)
  {
  }

  /** At every point, filament pushed in place is paid for by retraction, up to the
      rounding allowance, which grows with what was really deposited. */
  lemma StationaryIsPaidFor(p: Policy, parse: Parser, data: seq<byte>, home: Machine, k: nat)
    requires p.Validate() && Admissible(p, parse, data) && k <= |Checked(p, parse, data)|
    ensures
      var l := LedgerOf(home, FirstLines(p, parse, data, k));
      l.stationary <= l.retracted + 0.0001 + 0.00001 * Deposited(l.path)
  {
    AcceptedPrefixSound(p, parse, data, home, k);
    var es := FirstLines(p, parse, data, k);
    AccountsPay(p, ScanOf(p, es).motion.account, LedgerOf(home, es));
  }

  /** The scanner's partial position is a sound abstraction, from any start in the box:
      known axes are exact, unknown axes have not moved, the head never leaves the box. */
  lemma PositionIsSound(p: Policy, parse: Parser, data: seq<byte>, home: Machine, k: nat)
    requires p.Validate() && Admissible(p, parse, data) && k <= |Checked(p, parse, data)|
    requires InBox(p, home)
    ensures
      var es := FirstLines(p, parse, data, k);
      InBox(p, LedgerOf(home, es).machine) &&
      Tracked(ScanOf(p, es).motion.place, LedgerOf(home, es).machine, home)
  {
    AcceptedPrefixSound(p, parse, data, home, k);
  }

  // ------------------------------------------------- filament against travel

  function Total(lengths: seq<real>): real {
    if lengths == [] then 0.0 else Total(lengths[..|lengths| - 1]) + lengths[|lengths| - 1]
  }

  /** `lengths` are the Euclidean lengths of the segments of `path`. */
  predicate Lengths(path: seq<Segment>, lengths: seq<real>) {
    && |lengths| == |path|
    && forall i :: 0 <= i < |path| ==> lengths[i] >= 0.0 && Square(lengths[i]) == path[i].squared
  }

  lemma PositiveProduct(a: real, b: real)
    requires a > 0.0 && b > 0.0
    ensures a * b > 0.0
  {
  }

  lemma SquaresGrow(a: real, b: real)
    requires 0.0 <= b < a
    ensures Square(b) < Square(a)
  {
    var x, y := a - b, a + b;
    PositiveProduct(x, y);
    assert x * y == (a - b) * (a + b) == a * a - b * b;
  }

  lemma SquaresOrder(a: real, b: real)
    requires 0.0 <= b && Square(a) <= Square(b)
    ensures a <= b
  {
    if a > b { SquaresGrow(a, b); }
  }

  /** Deciding by squares is deciding e * area / d <= limit. */
  lemma CrossSectionBySquares(p: Policy, e: real, d: real)
    requires p.Validate() && e > 0.0 && d >= 0.0
    ensures CrossSectionOk(p, e, Square(d)) <==>
      d > 0.0 && e * p.FilamentArea() / d <= p.maxExtrudeCrossSection
  {
    var volume, allowed := e * p.FilamentArea(), p.maxExtrudeCrossSection * d;
    AreaPositive(p);
    ProductOfSquares(p.maxExtrudeCrossSection, d);
    if d > 0.0 {
      assert Square(d) > 0.0;
      if volume <= allowed { SquaresMonotone(volume, allowed); }
      if Square(volume) <= Square(allowed) { SquaresOrder(volume, allowed); }
      DivideBy(volume, p.maxExtrudeCrossSection, d);
    }
  }

  lemma AreaPositive(p: Policy)
    requires p.Validate()
    ensures p.FilamentArea() > 0.0
  {
    var r := p.filamentDiameter / 2.0;
    var q := PI * r;
    PositiveProduct(PI, r);
    PositiveProduct(q, r);
    assert q * r == p.FilamentArea();
  }

  lemma ProductOfSquares(a: real, b: real)
    ensures Square(a) * Square(b) == Square(a * b)
  {
    assert (a * a) * (b * b) == (a * b) * (a * b);
  }

  lemma SquaresMonotone(a: real, b: real)
    requires 0.0 <= b && -b <= a <= b
    ensures Square(a) <= Square(b)
  {
    assert (b - a) * (b + a) >= 0.0;
  }

  lemma DivideBy(v: real, c: real, d: real)
    requires d > 0.0
    ensures v / d <= c <==> v <= c * d
  {
    var q := v / d;
    assert q * d == v;
    if q <= c { assert (c - q) * d >= 0.0; } else { assert (q - c) * d > 0.0; }
  }

  /** Filament volume pushed along a path, segment by segment. */
  function Volume(p: Policy, path: seq<Segment>): real {
    if path == [] then 0.0
    else Volume(p, path[..|path| - 1]) + path[|path| - 1].e * p.FilamentArea()
  }

  lemma {:induction false} ThinVolume(p: Policy, path: seq<Segment>, lengths: seq<real>)
    requires p.maxExtrudeCrossSection > 0.0 && Thin(p, path) && Lengths(path, lengths)
    ensures Volume(p, path) <= p.maxExtrudeCrossSection * Total(lengths)
  {
    if path != [] {
      var n := |path| - 1;
      ThinVolume(p, path[..n], lengths[..n]);
      var volume, allowed := path[n].e * p.FilamentArea(), p.maxExtrudeCrossSection * lengths[n];
      ProductOfSquares(p.maxExtrudeCrossSection, lengths[n]);
      assert Square(volume) <= Square(allowed);
      assert allowed >= 0.0;
      SquaresOrder(volume, allowed);
      Distribute(Total(lengths[..n]), lengths[n], p.maxExtrudeCrossSection);
    }
  }

  lemma Distribute(a: real, b: real, c: real)
    ensures (a + b) * c == a * c + b * c
  {
  }

  lemma CleanFlow(p: Policy, home: Machine, es: seq<Entry>, lengths: seq<real>)
    requires p.Validate() && ReportedBy(p, es) == [] && Lengths(LedgerOf(home, es).path, lengths)
    ensures Volume(p, LedgerOf(home, es).path) <= p.maxExtrudeCrossSection * Total(lengths)
  {
    CleanRunSound(p, home, es);
    ThinVolume(p, LedgerOf(home, es).path, lengths);
  }

  /** The filament volume of all extruding moves is at most the cross-section limit times
      the straight-line distance those moves cover. */
  lemma FlowIsBounded(p: Policy, parse: Parser, data: seq<byte>, home: Machine, lengths: seq<real>)
    requires p.Validate() && Admissible(p, parse, data)
    requires Lengths(LedgerOf(home, Checked(p, parse, data)).path, lengths)
    ensures Volume(p, LedgerOf(home, Checked(p, parse, data)).path)
      <= p.maxExtrudeCrossSection * Total(lengths)
  {
    var es := Checked(p, parse, data);
    assert ReportedBy(p, es) == [] by { AdmissibleIsClean(p, parse, data); }
    CleanFlow(p, home, es, lengths);
  }

  // --------------------------------------------------------- rounding events

  /** Line k spends rounding allowance. */
  predicate IsRounding(p: Policy, es: seq<Entry>, k: nat)
    requires k < |es|
  {
    ScanOf(p, es[..k + 1]).motion.account.roundingUsed > ScanOf(p, es[..k]).motion.account.roundingUsed
  }

  function Roundings(p: Policy, es: seq<Entry>): nat {
    if es == [] then 0
    else
      var before := es[..|es| - 1];
      Roundings(p, before) +
      if ScanOf(p, es).motion.account.roundingUsed > ScanOf(p, before).motion.account.roundingUsed then 1 else 0
  }

  ghost predicate RoundingsTied(s: Scan, l: Ledger, n: nat) {
    && n <= |l.path| + (if s.motion.account.armed then 0 else 1)
    && (s.start.None? ==> s.motion.account == INITIAL_ACCOUNT && n == 0)
  }

  lemma StepRoundings(p: Policy, home: Machine, s: Scan, l: Ledger, line: nat, c: Command, n: nat)
    requires p.Validate() && Sound(p, home, s.motion, l) && Step(p, s, line, c).1 && RoundingsTied(s, l, n)
    ensures
      var s' := Step(p, s, line, c).0;
      var spent := s'.motion.account.roundingUsed > s.motion.account.roundingUsed;
      && RoundingsTied(s', Obey(home, l, c), n + if spent then 1 else 0)
      && (spent ==> c.Move? && c.e.E? && c.e.fiveDecimals && !s.motion.place.absoluteExtruder)
  {
    if c.Move? {
      MoveRoundings(p, home, s.motion, l, c);
    }
  }

  /** Allowance is spent only when armed, disarms, and only a deposit re-arms. */
  lemma SettleRoundings(p: Policy, a: Account, l: Ledger, q: real, orca: bool,
                        movedXY: bool, unknownOrigin: bool, squared: real, namesXY: bool)
    requires Settle(p, a, q, orca, movedXY, unknownOrigin, squared, namesXY).Some?
    ensures
      var a' := Settle(p, a, q, orca, movedXY, unknownOrigin, squared, namesXY).value;
      var path' := Book(l, q, movedXY, squared).path;
      && (a'.roundingUsed > a.roundingUsed ==> a.armed && !a'.armed && orca)
      && (a'.armed && !a.armed ==> |path'| == |l.path| + 1)
      && |path'| >= |l.path|
  {
  }

  lemma MoveRoundings(p: Policy, home: Machine, s: Motion, l: Ledger, c: Command)
    requires Tracked(s.place, l.machine, home) && KnownInBox(p, s.place) && c.Move? && StepMove(p, s, c).1
    ensures
      var a, a' := s.account, StepMove(p, s, c).0.account;
      && (a'.roundingUsed > a.roundingUsed ==>
            a.armed && !a'.armed && c.e.E? && c.e.fiveDecimals && !s.place.absoluteExtruder)
      && (a'.armed && !a.armed ==> |Drive(l, c).path| == |l.path| + 1)
      && |Drive(l, c).path| >= |l.path|
  {
    DriveBooks(p, home, s, l, c);
    if c.e.E? {
      var step := StepAxes(p, s.place, c.x, c.y, c.z);
      SettleRoundings(p, s.account, l, EAdvance(s.place, c.e), !s.place.absoluteExtruder && c.e.fiveDecimals,
                      step.movedXY, step.unknownOrigin, SquaredDistance(s.place, step.place),
                      !c.x.Absent? && !c.y.Absent?);
    }
  }

  lemma {:induction false} CleanRunRoundings(p: Policy, home: Machine, es: seq<Entry>)
    requires p.Validate() && ReportedBy(p, es) == []
    ensures RoundingsTied(ScanOf(p, es), LedgerOf(home, es), Roundings(p, es))
  {
    if es != [] {
      CleanLast(p, es);
      var before, e := es[..|es| - 1], es[|es| - 1];
      CleanRunRoundings(p, home, before);
      CleanRunSound(p, home, before);
      if e.Line? {
        StepRoundings(p, home, ScanOf(p, before), LedgerOf(home, before), |es|, e.c, Roundings(p, before));
      }
    }
  }

  /** Rounding allowance is spent at most once more often than there are extruding moves. */
  lemma RoundingsAreRare(p: Policy, parse: Parser, data: seq<byte>, home: Machine)
    requires p.Validate() && Admissible(p, parse, data)
    ensures Roundings(p, Checked(p, parse, data)) <= 1 + |LedgerOf(home, Checked(p, parse, data)).path|
  {
    AdmissibleIsClean(p, parse, data);
    CleanRunRoundings(p, home, Checked(p, parse, data));
  }

  /** Only a relative E word written with at most five decimals can spend it. */
  lemma RoundingsAreOrca(p: Policy, parse: Parser, data: seq<byte>, home: Machine, k: nat)
    requires p.Validate() && Admissible(p, parse, data) && k < |Checked(p, parse, data)|
    requires IsRounding(p, Checked(p, parse, data), k)
    ensures
      var es := Checked(p, parse, data);
      && es[k].Line? && es[k].c.Move? && es[k].c.e.E? && es[k].c.e.fiveDecimals
      && !ScanOf(p, es[..k]).motion.place.absoluteExtruder
  {
    AdmissibleIsClean(p, parse, data);
    var es := Checked(p, parse, data);
    CleanPrefix(p, es, k + 1);
    CleanLast(p, es[..k + 1]);
    assert es[..k + 1][..k] == es[..k];
    CleanRunRoundings(p, home, es[..k]);
    CleanRunSound(p, home, es[..k]);
    if es[k].Line? {
      StepRoundings(p, home, ScanOf(p, es[..k]), LedgerOf(home, es[..k]), k + 1, es[k].c, Roundings(p, es[..k]));
    }
  }
}
