/** Which files the scanner accepts, said a second time: from the words of the file, the machine that
    obeys them and the list of its filament strokes, without the scanner's accounts. */
module GcodeAcceptance {
  import opened Wrappers
  import opened GcodePolicy
  import opened GcodeReader
  import opened GcodeSafety
  import opened GcodeLifecycle
  import opened Lines

  // ---------------------------------------------------------------- strokes

  /** One E word obeyed: how far the filament went, whether the head moved in X or Y, and whether the
      word was relative with at most five decimals. */
  datatype Stroke = Stroke(q: real, moved: bool, fine: bool)

  predicate Deposits(k: Stroke) { k.q > 0.0 && k.moved }
  predicate Pulls(k: Stroke) { k.q < 0.0 }
  predicate Pushes(k: Stroke) { k.q > 0.0 && !k.moved }

  function StrokeOf(m: Machine, c: Command): Stroke
    requires c.Move?
  {
    Stroke(DeltaE(m, c.e), !SameXY(m, MovedTo(m, c)), !m.absoluteExtruder && c.e.E? && c.e.fiveDecimals)
  }

  /** The strokes since START_PRINT. */
  function StrokesOf(home: Machine, es: seq<Entry>): seq<Stroke> {
    if es == [] then []
    else
      var before, e := es[..|es| - 1], es[|es| - 1];
      if IsStart(e) then []
      else if e.Line? && e.c.Move? && e.c.e.E? then
        StrokesOf(home, before) + [StrokeOf(LedgerOf(home, before).machine, e.c)]
      else StrokesOf(home, before)
  }

  /** How far the filament is pulled back: a deposit fills it up, a pull adds to it up to the limit, a
      push takes from it. */
  function Pulled(p: Policy, ss: seq<Stroke>): (r: real)
    requires p.maxExtrudeOnlyDistance > 0.0
    ensures 0.0 <= r <= p.maxExtrudeOnlyDistance
  {
    if ss == [] then 0.0
    else
      var k, r := ss[|ss| - 1], Pulled(p, ss[..|ss| - 1]) - ss[|ss| - 1].q;
      if Deposits(k) || r < 0.0 then 0.0
      else if r > p.maxExtrudeOnlyDistance then p.maxExtrudeOnlyDistance
      else r
  }

  /** From here on the filament has been pulled back without a break. */
  function OpenFrom(p: Policy, ss: seq<Stroke>): (n: nat)
    requires p.maxExtrudeOnlyDistance > 0.0
    ensures n <= |ss|
  {
    if Pulled(p, ss) == 0.0 then |ss| else OpenFrom(p, ss[..|ss| - 1])
  }

  function OpenTail(p: Policy, ss: seq<Stroke>): seq<Stroke>
    requires p.maxExtrudeOnlyDistance > 0.0
  {
    ss[OpenFrom(p, ss)..]
  }

  function CountPulls(ss: seq<Stroke>): nat {
    if ss == [] then 0 else CountPulls(ss[..|ss| - 1]) + if Pulls(ss[|ss| - 1]) then 1 else 0
  }

  predicate FinePulls(ss: seq<Stroke>) { forall k :: k in ss && Pulls(k) ==> k.fine }

  /** How much more stroke i pushes in place than was pulled back. */
  function Overdraw(p: Policy, ss: seq<Stroke>, i: nat): real
    requires p.maxExtrudeOnlyDistance > 0.0 && i < |ss|
  {
    var over := ss[i].q - Pulled(p, ss[..i]);
    if Pushes(ss[i]) && over > 0.0 then over else 0.0
  }

  function Overdrawn(p: Policy, ss: seq<Stroke>): real
    requires p.maxExtrudeOnlyDistance > 0.0
  {
    if ss == [] then 0.0 else Overdrawn(p, ss[..|ss| - 1]) + Overdraw(p, ss, |ss| - 1)
  }

  /** Every overdraw so far was followed by a deposit. */
  predicate Armed(p: Policy, ss: seq<Stroke>)
    requires p.maxExtrudeOnlyDistance > 0.0
  {
    forall i :: 0 <= i < |ss| && Overdraw(p, ss, i) > 0.0 ==> exists j :: i < j < |ss| && Deposits(ss[j])
  }

  function DepositedBy(ss: seq<Stroke>): real {
    if ss == [] then 0.0
    else DepositedBy(ss[..|ss| - 1]) + if Deposits(ss[|ss| - 1]) then ss[|ss| - 1].q else 0.0
  }

  /** The scanner's account says exactly this about the strokes. */
  ghost predicate AccountOf(p: Policy, a: Account, ss: seq<Stroke>)
    requires p.maxExtrudeOnlyDistance > 0.0
  {
    && a.credit == Pulled(p, ss)
    && a.segments == CountPulls(OpenTail(p, ss)) && a.precise == FinePulls(OpenTail(p, ss))
    && a.armed == Armed(p, ss) && a.roundingUsed == Overdrawn(p, ss) && a.moving == DepositedBy(ss)
  }

  /** A push beyond what was pulled back, small enough to be a rounding of the slicer. */
  predicate Tolerated(p: Policy, ss: seq<Stroke>, k: Stroke, namesXY: bool)
    requires p.maxExtrudeOnlyDistance > 0.0
  {
    var over := k.q - Pulled(p, ss);
    && Armed(p, ss) && k.fine
    && Overdrawn(p, ss) + over <= 0.0001 + 0.00001 * DepositedBy(ss)
    && if Pulled(p, ss) > 0.0 then
         && FinePulls(OpenTail(p, ss)) && CountPulls(OpenTail(p, ss)) <= 64
         && over <= 0.000005 * (CountPulls(OpenTail(p, ss)) + 1) as real
       else namesXY && k.q <= 0.0001
  }

  predicate MayStroke(p: Policy, ss: seq<Stroke>, k: Stroke, namesXY: bool)
    requires p.maxExtrudeOnlyDistance > 0.0
  {
    && (Pulls(k) ==> -k.q <= p.maxExtrudeOnlyDistance)
    && (Pushes(k) ==> k.q <= p.maxExtrudeOnlyDistance && (k.q <= Pulled(p, ss) || Tolerated(p, ss, k, namesXY)))
  }

  function Net(ss: seq<Stroke>): real { if ss == [] then 0.0 else Net(ss[..|ss| - 1]) + ss[|ss| - 1].q }

  /** Along strokes u behind ss nothing is deposited, and neither end of the account is reached. */
  predicate Between(p: Policy, ss: seq<Stroke>, u: seq<Stroke>)
    requires p.maxExtrudeOnlyDistance > 0.0
  {
    && (forall k :: k in u ==> !Deposits(k))
    && forall n :: 0 <= n <= |u| ==> 0.0 <= Pulled(p, ss) - Net(u[..n]) <= p.maxExtrudeOnlyDistance
  }

  /** Then it is the net of the strokes: segments of a retraction add up, and are given back. */
  lemma {:induction false} PulledIsNet(p: Policy, ss: seq<Stroke>, u: seq<Stroke>)
    requires p.maxExtrudeOnlyDistance > 0.0 && Between(p, ss, u)
    ensures Pulled(p, ss + u) == Pulled(p, ss) - Net(u)
  {
    if u == [] {
      assert ss + u == ss;
    } else {
      var n := |u| - 1;
      assert forall i :: 0 <= i <= n ==> u[..n][..i] == u[..i];
      PulledIsNet(p, ss, u[..n]);
      assert (ss + u)[..|ss| + n] == ss + u[..n] && u[..|u|] == u;
    }
  }

  // --------------------------------------------- one stroke, both ways

  lemma Appended(p: Policy, ss: seq<Stroke>, k: Stroke)
    requires p.maxExtrudeOnlyDistance > 0.0
    ensures
      var ss' := ss + [k];
      && ss'[..|ss|] == ss && ss'[|ss|] == k
      && OpenTail(p, ss') == (if Pulled(p, ss') == 0.0 then [] else OpenTail(p, ss) + [k])
      && Overdrawn(p, ss') == Overdrawn(p, ss) + Overdraw(p, ss', |ss|)
      && DepositedBy(ss') == DepositedBy(ss) + if Deposits(k) then k.q else 0.0
  {
    var ss' := ss + [k];
    assert ss'[..|ss|] == ss;
    if Pulled(p, ss') != 0.0 {
      assert ss'[OpenFrom(p, ss)..] == ss[OpenFrom(p, ss)..] + [k];
    }
  }

  lemma PullsAppended(ss: seq<Stroke>, k: Stroke)
    ensures CountPulls(ss + [k]) == CountPulls(ss) + if Pulls(k) then 1 else 0
    ensures FinePulls(ss + [k]) <==> FinePulls(ss) && (Pulls(k) ==> k.fine)
  {
    var ss' := ss + [k];
    assert ss'[..|ss|] == ss;
    assert forall x :: x in ss' <==> x in ss || x == k;
  }

  lemma ArmedAppended(p: Policy, ss: seq<Stroke>, k: Stroke)
    requires p.maxExtrudeOnlyDistance > 0.0
    ensures
      Armed(p, ss + [k]) <==> Deposits(k) || (Armed(p, ss) && !(Pushes(k) && k.q > Pulled(p, ss)))
  {
    var ss' := ss + [k];
    assert ss'[..|ss|] == ss;
    forall i | 0 <= i < |ss| ensures Overdraw(p, ss', i) == Overdraw(p, ss, i) {
      assert ss'[..i] == ss[..i];
    }
    if Deposits(k) {
      forall i | 0 <= i < |ss'| && Overdraw(p, ss', i) > 0.0 ensures exists j :: i < j < |ss'| && Deposits(ss'[j]) {
        assert i < |ss| && Deposits(ss'[|ss|]);
      }
    } else {
      if Armed(p, ss) && !(Pushes(k) && k.q > Pulled(p, ss)) {
        forall i | 0 <= i < |ss'| && Overdraw(p, ss', i) > 0.0 ensures exists j :: i < j < |ss'| && Deposits(ss'[j]) {
          var j :| i < j < |ss| && Deposits(ss[j]);
          assert Deposits(ss'[j]);
        }
      }
      if Armed(p, ss') {
        assert Overdraw(p, ss', |ss|) == 0.0;
        forall i | 0 <= i < |ss| && Overdraw(p, ss, i) > 0.0 ensures exists j :: i < j < |ss| && Deposits(ss[j]) {
          assert Overdraw(p, ss', i) > 0.0;
          var j :| i < j < |ss'| && Deposits(ss'[j]);
          assert j < |ss|;
        }
      }
    }
  }

  /** What a push of q does to an account that has no segments without credit. */
  lemma PushAccount(a: Account, q: real, orca: bool, namesXY: bool)
    requires q > 0.0 && a.credit >= 0.0 && (a.credit == 0.0 ==> a.segments == 0 && a.precise)
    ensures
      var r, over := PushInPlace(a, q, orca, namesXY), q - a.credit;
      && (r.Some? <==>
            || over <= 0.0
            || (&& a.armed && orca && a.roundingUsed + over <= 0.0001 + 0.00001 * a.moving
                && if a.credit > 0.0
                   then a.precise && a.segments <= 64 && over <= 0.000005 * (a.segments + 1) as real
                   else namesXY && q <= 0.0001))
      && (r.Some? ==>
            if over < 0.0 then r.value == a.(credit := -over)
            else if over == 0.0 then r.value == a.(credit := 0.0, segments := 0, precise := true)
            else r.value == a.(credit := 0.0, segments := 0, precise := true, armed := false,
                               roundingUsed := a.roundingUsed + over))
  {
  }

  /** A push in place is accepted exactly if it may be made. */
  lemma PushExactly(p: Policy, a: Account, ss: seq<Stroke>, k: Stroke, namesXY: bool)
    requires p.Validate() && AccountOf(p, a, ss) && Pushes(k)
    ensures PushInPlace(a, k.q, k.fine, namesXY).Some? <==>
      k.q <= Pulled(p, ss) || Tolerated(p, ss, k, namesXY)
  {
    assert a.credit == 0.0 ==> OpenTail(p, ss) == [];
    PushAccount(a, k.q, k.fine, namesXY);
  }

  /** And booked as the strokes say. */
  lemma PushBooked(p: Policy, a: Account, ss: seq<Stroke>, k: Stroke, namesXY: bool)
    requires p.Validate() && AccountOf(p, a, ss) && Pushes(k) && PushInPlace(a, k.q, k.fine, namesXY).Some?
    ensures AccountOf(p, PushInPlace(a, k.q, k.fine, namesXY).value, ss + [k])
  {
    assert a.credit == 0.0 ==> OpenTail(p, ss) == [];
    PushAccount(a, k.q, k.fine, namesXY);
    PushTally(p, ss, k);
  }

  lemma PushTally(p: Policy, ss: seq<Stroke>, k: Stroke)
    requires p.maxExtrudeOnlyDistance > 0.0 && Pushes(k)
    ensures
      var ss', over := ss + [k], k.q - Pulled(p, ss);
      && Pulled(p, ss') == (if over < 0.0 then -over else 0.0)
      && OpenTail(p, ss') == (if over < 0.0 then OpenTail(p, ss) + [k] else [])
      && (over < 0.0 ==> CountPulls(OpenTail(p, ss')) == CountPulls(OpenTail(p, ss)))
      && (over < 0.0 ==> FinePulls(OpenTail(p, ss')) == FinePulls(OpenTail(p, ss)))
      && CountPulls([]) == 0 && FinePulls([])
      && Overdrawn(p, ss') == Overdrawn(p, ss) + (if over > 0.0 then over else 0.0)
      && DepositedBy(ss') == DepositedBy(ss)
      && (Armed(p, ss') <==> Armed(p, ss) && over <= 0.0)
  {
    Appended(p, ss, k);
    PullsAppended(OpenTail(p, ss), k);
    ArmedAppended(p, ss, k);
  }

  lemma RetractExactly(p: Policy, a: Account, ss: seq<Stroke>, k: Stroke)
    requires p.Validate() && AccountOf(p, a, ss) && Pulls(k)
    ensures AccountOf(p, Retract(p, a, k.q, k.fine), ss + [k])
  {
    Appended(p, ss, k);
    PullsAppended(OpenTail(p, ss), k);
    ArmedAppended(p, ss, k);
  }

  lemma DepositExactly(p: Policy, a: Account, ss: seq<Stroke>, k: Stroke)
    requires p.Validate() && AccountOf(p, a, ss) && Deposits(k)
    ensures AccountOf(p, Deposit(a, k.q), ss + [k])
  {
    Appended(p, ss, k);
    ArmedAppended(p, ss, k);
  }

  lemma NothingExactly(p: Policy, a: Account, ss: seq<Stroke>, k: Stroke)
    requires p.Validate() && AccountOf(p, a, ss) && k.q == 0.0
    ensures AccountOf(p, a, ss + [k])
  {
    Appended(p, ss, k);
    PullsAppended(OpenTail(p, ss), k);
    ArmedAppended(p, ss, k);
  }

  // ------------------------------------------------------------- positions

  datatype Axis = AxisX | AxisY | AxisZ

  function WordOf(c: Command, axis: Axis): Number
    requires c.Move?
  {
    match axis case AxisX => c.x case AxisY => c.y case AxisZ => c.z
  }

  /** Line i says where an axis is. */
  predicate Names(home: Machine, es: seq<Entry>, i: nat, axis: Axis)
    requires i < |es|
  {
    es[i].Line? && es[i].c.Move? && WordOf(es[i].c, axis).Value? && LedgerOf(home, es[..i]).machine.absoluteAxes
  }

  /** An axis is known once a move has named an absolute position of it. */
  predicate Known(home: Machine, es: seq<Entry>, axis: Axis) {
    exists i :: 0 <= i < |es| && Names(home, es, i, axis)
  }

  lemma KnownAppended(home: Machine, es: seq<Entry>, e: Entry, axis: Axis)
    ensures Known(home, es + [e], axis) <==> Known(home, es, axis) || Names(home, es + [e], |es|, axis)
    ensures (es + [e])[..|es|] == es
  {
    var es' := es + [e];
    forall i | 0 <= i < |es| ensures Names(home, es', i, axis) == Names(home, es, i, axis) {
      assert es'[..i] == es[..i];
    }
    if Known(home, es', axis) {
      var i :| 0 <= i < |es'| && Names(home, es', i, axis);
      if i < |es| { assert Names(home, es, i, axis); }
    }
    if Known(home, es, axis) {
      var i :| 0 <= i < |es| && Names(home, es, i, axis);
      assert Names(home, es', i, axis);
    }
  }

  /** An absolute position within the limits; a relative one likewise, from a known position; from an
      unknown one only standing still. */
  predicate AxisMay(limit: AxisLimit, absolute: bool, known: bool, at: real, word: Number) {
    && !word.Garbage?
    && (word.Value? ==>
          if absolute then limit.minimum <= word.v <= limit.maximum
          else if known then limit.minimum <= at + word.v <= limit.maximum
          else word.v == 0.0)
  }

  predicate FromUnknown(absolute: bool, known: bool, word: Number) { absolute && !known && word.Value? }

  lemma AxisExactly(limit: AxisLimit, absolute: bool, current: Option<real>, at: real, home: real, word: Number)
    requires AxisTracked(current, at, home)
    ensures
      var step := StepAxis(absolute, limit, current, word);
      && (step.ok <==> AxisMay(limit, absolute, current.Some?, at, word))
      && (step.ok ==>
            && (step.moved <==> FromUnknown(absolute, current.Some?, word) || Target1(absolute, at, word) != at)
            && (step.unknownOrigin <==> FromUnknown(absolute, current.Some?, word))
            && (step.position.Some? <==> current.Some? || (absolute && word.Value?)))
  {
  }

  /** The bead is no thicker than allowed: volume over distance, decided on squares. */
  predicate ThinBead(p: Policy, q: real, squared: real) {
    var volume := q * (3.141592653589793 * (p.filamentDiameter * p.filamentDiameter) / 4.0);
    squared > 0.0 && volume * volume <= (p.maxExtrudeCrossSection * p.maxExtrudeCrossSection) * squared
  }

  lemma ThinExactly(p: Policy, q: real, squared: real)
    ensures CrossSectionOk(p, q, squared) <==> ThinBead(p, q, squared)
  {
    var d := p.filamentDiameter;
    assert 3.141592653589793 * (d / 2.0) * (d / 2.0) == 3.141592653589793 * (d * d) / 4.0;
  }

  /** Where the machine is, which axes are known, and how its filament has moved. */
  datatype Facts = Facts(m: Machine, x: bool, y: bool, z: bool, strokes: seq<Stroke>)

  function FactsOf(home: Machine, es: seq<Entry>): Facts {
    Facts(LedgerOf(home, es).machine, Known(home, es, AxisX), Known(home, es, AxisY), Known(home, es, AxisZ),
          StrokesOf(home, es))
  }

  /** A move may be made. */
  predicate MoveMay(p: Policy, f: Facts, c: Command)
    requires c.Move? && p.maxExtrudeOnlyDistance > 0.0
  {
    && !c.f.Garbage? && (c.f.Value? ==> c.f.v > 0.0)
    && (c.arc ==> forall i :: 0 <= i < |c.arcWords| ==> !c.arcWords[i].Garbage?)
    && AxisMay(p.x, f.m.absoluteAxes, f.x, f.m.x, c.x)
    && AxisMay(p.y, f.m.absoluteAxes, f.y, f.m.y, c.y)
    && AxisMay(p.z, f.m.absoluteAxes, f.z, f.m.z, c.z)
    && !c.e.BadE? && (c.e.E? ==> StrokeMay(p, f, c))
  }

  /** Its stroke may be made: along an XY move only from a known position and in a thin bead; and in
      place as the strokes so far allow. */
  predicate StrokeMay(p: Policy, f: Facts, c: Command)
    requires c.Move? && p.maxExtrudeOnlyDistance > 0.0
  {
    var k := StrokeOf(f.m, c);
    var x := FromUnknown(f.m.absoluteAxes, f.x, c.x);
    var y := FromUnknown(f.m.absoluteAxes, f.y, c.y);
    var z := FromUnknown(f.m.absoluteAxes, f.z, c.z);
    if k.q > 0.0 && (k.moved || x || y)
    then !x && !y && !z && ThinBead(p, k.q, SquaredTravel(f.m, MovedTo(f.m, c)))
    else MayStroke(p, f.strokes, k, !c.x.Absent? && !c.y.Absent?)
  }

  /** The scanner's belief agrees with the facts. */
  ghost predicate Believes(p: Policy, home: Machine, s: Motion, f: Facts)
    requires p.maxExtrudeOnlyDistance > 0.0
  {
    && Tracked(s.place, f.m, home) && KnownInBox(p, s.place)
    && (s.place.x.Some? <==> f.x) && (s.place.y.Some? <==> f.y) && (s.place.z.Some? <==> f.z)
    && AccountOf(p, s.account, f.strokes)
  }

  lemma AxesExactly(p: Policy, home: Machine, s: Motion, f: Facts, c: Command)
    requires p.Validate() && Believes(p, home, s, f) && c.Move?
    ensures
      var step := StepAxes(p, s.place, c.x, c.y, c.z);
      var abs := f.m.absoluteAxes;
      && (step.ok <==> && AxisMay(p.x, abs, f.x, f.m.x, c.x) && AxisMay(p.y, abs, f.y, f.m.y, c.y)
                       && AxisMay(p.z, abs, f.z, f.m.z, c.z))
      && (step.ok ==>
            && (step.movedXY <==> || !SameXY(f.m, MovedTo(f.m, c)) || FromUnknown(abs, f.x, c.x)
                                  || FromUnknown(abs, f.y, c.y))
            && (step.unknownOrigin <==> || FromUnknown(abs, f.x, c.x) || FromUnknown(abs, f.y, c.y)
                                        || FromUnknown(abs, f.z, c.z))
            && (step.place.x.Some? <==> f.x || (abs && c.x.Value?))
            && (step.place.y.Some? <==> f.y || (abs && c.y.Value?))
            && (step.place.z.Some? <==> f.z || (abs && c.z.Value?)))
  {
    AxisExactly(p.x, f.m.absoluteAxes, s.place.x, f.m.x, home.x, c.x);
    AxisExactly(p.y, f.m.absoluteAxes, s.place.y, f.m.y, home.y, c.y);
    AxisExactly(p.z, f.m.absoluteAxes, s.place.z, f.m.z, home.z, c.z);
  }

  /** What Settle decides, and books, is what the stroke may do. */
  lemma SettleExactly(p: Policy, a: Account, ss: seq<Stroke>, k: Stroke,
                      headed: bool, unknown: bool, squared: real, namesXY: bool)
    requires p.Validate() && AccountOf(p, a, ss) && (k.moved ==> headed)
    requires headed && !unknown && k.q > 0.0 ==> k.moved
    ensures
      var r := Settle(p, a, k.q, k.fine, headed, unknown, squared, namesXY);
      && (r.Some? <==> if k.q > 0.0 && headed then !unknown && ThinBead(p, k.q, squared)
                       else MayStroke(p, ss, k, namesXY))
      && (r.Some? ==> AccountOf(p, r.value, ss + [k]))
  {
    ThinExactly(p, k.q, squared);
    if k.q < 0.0 {
      RetractExactly(p, a, ss, k);
    } else if k.q == 0.0 {
      NothingExactly(p, a, ss, k);
    } else if !headed {
      PushExactly(p, a, ss, k, namesXY);
      if PushInPlace(a, k.q, k.fine, namesXY).Some? { PushBooked(p, a, ss, k, namesXY); }
    } else if !unknown {
      DepositExactly(p, a, ss, k);
    }
  }

  /** The facts after a move. */
  function FactsAfter(f: Facts, c: Command): Facts
    requires c.Move?
  {
    Facts(MovedTo(f.m, c).(e := f.m.e + DeltaE(f.m, c.e)),
          f.x || (f.m.absoluteAxes && c.x.Value?), f.y || (f.m.absoluteAxes && c.y.Value?),
          f.z || (f.m.absoluteAxes && c.z.Value?),
          if c.e.E? then f.strokes + [StrokeOf(f.m, c)] else f.strokes)
  }

  /** What the scanner makes of the E word of a move whose axis words are in order. */
  function Settled(p: Policy, s: Motion, c: Command): Option<Account>
    requires c.Move?
  {
    var step := StepAxes(p, s.place, c.x, c.y, c.z);
    Settle(p, s.account, EAdvance(s.place, c.e), !s.place.absoluteExtruder && c.e.E? && c.e.fiveDecimals,
           step.movedXY, step.unknownOrigin, SquaredDistance(s.place, step.place), !c.x.Absent? && !c.y.Absent?)
  }

  lemma StrokeExactly(p: Policy, home: Machine, s: Motion, f: Facts, c: Command)
    requires p.Validate() && Believes(p, home, s, f) && c.Move? && StepAxes(p, s.place, c.x, c.y, c.z).ok && c.e.E?
    ensures Settled(p, s, c).Some? <==> StrokeMay(p, f, c)
    ensures Settled(p, s, c).Some? ==> AccountOf(p, Settled(p, s, c).value, f.strokes + [StrokeOf(f.m, c)])
  {
    AxesExactly(p, home, s, f, c);
    var step := StepAxes(p, s.place, c.x, c.y, c.z);
    AxesSound(p, home, s.place, f.m, MovedTo(f.m, c), c.x, c.y, c.z);
    SettleExactly(p, s.account, f.strokes, StrokeOf(f.m, c), step.movedXY, step.unknownOrigin,
                  SquaredDistance(s.place, step.place), !c.x.Absent? && !c.y.Absent?);
  }

  lemma MoveVerdict(p: Policy, s: Motion, c: Command)
    requires c.Move?
    ensures
      var step := StepAxes(p, s.place, c.x, c.y, c.z);
      && (StepMove(p, s, c).1 <==>
            MoveWordsOk(c) && step.ok && !c.e.BadE? && (c.e.E? ==> Settled(p, s, c).Some?))
      && (StepMove(p, s, c).1 ==>
            StepMove(p, s, c).0 == Motion(step.place.(extruder := s.place.extruder + EAdvance(s.place, c.e)),
                                          if c.e.E? then Settled(p, s, c).value else s.account))
  {
  }

  /** A move is accepted exactly if it may be made. */
  lemma MoveExactly(p: Policy, home: Machine, s: Motion, f: Facts, c: Command)
    requires p.Validate() && Believes(p, home, s, f) && c.Move?
    ensures StepMove(p, s, c).1 <==> MoveMay(p, f, c)
  {
    AxesExactly(p, home, s, f, c);
    MoveVerdict(p, s, c);
    if StepAxes(p, s.place, c.x, c.y, c.z).ok && c.e.E? { StrokeExactly(p, home, s, f, c); }
  }

  /** And then believed as it happened. */
  lemma MoveBelieved(p: Policy, home: Machine, s: Motion, f: Facts, c: Command)
    requires p.Validate() && Believes(p, home, s, f) && c.Move? && StepMove(p, s, c).1
    ensures Believes(p, home, StepMove(p, s, c).0, FactsAfter(f, c))
  {
    MoveVerdict(p, s, c);
    PlaceBelieved(p, home, s, f, c);
    if c.e.E? { StrokeExactly(p, home, s, f, c); }
  }

  lemma PlaceBelieved(p: Policy, home: Machine, s: Motion, f: Facts, c: Command)
    requires p.Validate() && Believes(p, home, s, f) && c.Move? && StepAxes(p, s.place, c.x, c.y, c.z).ok
    ensures
      var place := StepAxes(p, s.place, c.x, c.y, c.z).place.(extruder := s.place.extruder + EAdvance(s.place, c.e));
      var f' := FactsAfter(f, c);
      && Tracked(place, f'.m, home) && KnownInBox(p, place)
      && (place.x.Some? <==> f'.x) && (place.y.Some? <==> f'.y) && (place.z.Some? <==> f'.z)
  {
    AxesExactly(p, home, s, f, c);
    AxesSound(p, home, s.place, f.m, MovedTo(f.m, c), c.x, c.y, c.z);
  }

  // ------------------------------------------------------------- commands

  predicate Started(es: seq<Entry>) { exists i :: 0 <= i < |es| && IsStart(es[i]) }
  predicate Ended(es: seq<Entry>) { exists i :: 0 <= i < |es| && IsEnd(es[i]) }

  predicate IsVertex(es: seq<Entry>, i: nat, j: nat) {
    && i < |es| && IsObject(es[i]) && es[i].c.definition.polygon.Points?
    && j < |es[i].c.definition.polygon.points|
  }

  function VertexOf(es: seq<Entry>, i: nat, j: nat): Point
    requires IsVertex(es, i, j)
  {
    es[i].c.definition.polygon.points[j]
  }

  /** Every vertex of every object defined keeps the purge margin in Y, or in X. */
  ghost predicate ClearInY(p: Policy, es: seq<Entry>) {
    forall i: nat, j: nat | IsVertex(es, i, j) ::
      VertexY(VertexOf(es, i, j)) >= p.kampPurgeMargin
  }

  ghost predicate ClearInX(p: Policy, es: seq<Entry>) {
    forall i: nat, j: nat | IsVertex(es, i, j) ::
      VertexX(VertexOf(es, i, j)) >= p.kampPurgeMargin
  }

  function VertexX(q: Point): real { if q.Point? && q.x.Value? then q.x.v else 0.0 }
  function VertexY(q: Point): real { if q.Point? && q.y.Value? then q.y.v else 0.0 }

  predicate VertexMay(p: Policy, q: Point) {
    && q.Point? && q.x.Value? && q.y.Value?
    && p.x.minimum <= q.x.v <= p.x.maximum && p.y.minimum <= q.y.v <= p.y.maximum
  }

  predicate ObjectMay(p: Policy, es: seq<Entry>, o: ObjectDefinition) {
    && o.nameOk && !o.center.BadCenter?
    && (o.center.Center? ==>
          p.x.minimum <= o.center.x <= p.x.maximum && p.y.minimum <= o.center.y <= p.y.maximum)
    && o.polygon.Points? && 3 <= |o.polygon.points| <= p.maxPolygonPoints
    && (forall j :: 0 <= j < |o.polygon.points| ==> VertexMay(p, o.polygon.points[j]))
    && ObjectsIn(es) < p.maxObjects && PointsIn(es) + |o.polygon.points| <= p.maxTotalObjectPoints
  }

  /** Not given, or given and in the range: bounds included, or without zero. */
  predicate UpTo(n: Number, high: real) { !n.Garbage? && (n.Value? ==> 0.0 <= n.v <= high) }
  predicate PositiveUpTo(n: Number, high: real) { !n.Garbage? && (n.Value? ==> 0.0 < n.v <= high) }
  predicate NotNegative(n: Number) { !n.Garbage? && (n.Value? ==> 0.0 <= n.v) }

  /** ACCEL_TO_DECEL d under acceleration a: the cruise ratio it implies, 1 - d / a but at least 0, is
      not below the floor. */
  predicate DecelMay(p: Policy, d: Number, a: real) {
    !d.Garbage? && (d.Value? ==>
      0.0 < d.v && (p.minimumCruiseRatioFloor == 0.0 || d.v <= (1.0 - p.minimumCruiseRatioFloor) * a))
  }

  /** A command may stand behind these lines. */
  ghost predicate May(p: Policy, home: Machine, es: seq<Entry>, c: Command)
    requires p.maxExtrudeOnlyDistance > 0.0
  {
    match c
    case Refused => false
    case DefineObject(o) => !Started(es) && ObjectMay(p, es, o)
    case StartPrint(bed, nozzle) =>
      && !Started(es) && ObjectsIn(es) > 0
      && (|| (ClearInY(p, es) && p.kampPurgeAmount + p.kampBreakawayDistance <= p.x.maximum)
          || (ClearInX(p, es) && p.kampPurgeAmount + p.kampBreakawayDistance <= p.y.maximum))
      && bed.Value? && 0.0 <= bed.v <= p.bedTempMax && nozzle.Value? && 150.0 <= nozzle.v <= p.nozzleTempMax
    case Progress(n, r) => NotNegative(n) && NotNegative(r)
    case Metadata => true
    case EndPrint => Started(es) && !Ended(es)
    case TakeFrame => Started(es) && FramesIn(es) < p.maxTimelapseFrames
    case NozzleTarget(s, r) => Started(es) && UpTo(if s.Absent? then r else s, p.nozzleTempMax)
    case BedTarget(s, r) => Started(es) && UpTo(if s.Absent? then r else s, p.bedTempMax)
    case VelocityLimit(velocity, accel, corner, ratio, decel) =>
      && Started(es) && PositiveUpTo(velocity, p.maxVelocity) && PositiveUpTo(accel, p.maxAccel)
      && UpTo(corner, p.maxSquareCornerVelocity)
      && !ratio.Garbage? && (ratio.Value? ==> p.minimumCruiseRatioFloor <= ratio.v < 1.0)
      && DecelMay(p, decel, if accel.Value? then accel.v else p.maxAccel)
    case AccelLimit(s, q, t) =>
      Started(es) && PositiveUpTo(s, p.maxAccel) && PositiveUpTo(q, p.maxAccel) && PositiveUpTo(t, p.maxAccel)
    case TmcCurrent(stepper, current, hold) =>
      && Started(es) && stepper.Some? && stepper.value in p.tmcCurrentMax
      && UpTo(current, p.tmcCurrentMax[stepper.value]) && PositiveUpTo(hold, p.tmcCurrentMax[stepper.value])
    case PressureAdvance(keysOk, stock, advance) =>
      Started(es) && keysOk && stock && advance.Value? && 0.0 <= advance.v <= p.maxPressureAdvance
    case Percentage(n) => Started(es) && n.Value? && 0.0 < n.v <= 100.0
    case Fan(n) => Started(es) && UpTo(n, 255.0)
    case Dwell(ms, s) =>
      && Started(es) && NotNegative(ms) && NotNegative(s)
      && (if ms.Value? then ms.v else 0.0) + 1000.0 * (if s.Value? then s.v else 0.0) <= 60000.0
    case SetOrigin(x, y, z, e) => Started(es) && x.Absent? && y.Absent? && z.Absent? && !e.BadE?
    case Move(_, _, _, _, _, _, _) => Started(es) && MoveMay(p, FactsOf(home, es), c)
    case _ => Started(es)
  }

  /** A line is in order: blank, or a command that may stand there, and after END_PRINT only M400. */
  ghost predicate LineMay(p: Policy, home: Machine, es: seq<Entry>, e: Entry)
    requires p.maxExtrudeOnlyDistance > 0.0
  {
    e.Blank? || (e.Line? && (Ended(es) ==> e.c.Finish?) && May(p, home, es, e.c))
  }

  // --------------------------------------------- what the scanner carries

  ghost predicate LowestX(es: seq<Entry>, bound: real) {
    exists i: nat, j: nat :: IsVertex(es, i, j) && VertexX(VertexOf(es, i, j)) == bound
  }

  ghost predicate LowestY(es: seq<Entry>, bound: real) {
    exists i: nat, j: nat :: IsVertex(es, i, j) && VertexY(VertexOf(es, i, j)) == bound
  }

  ghost predicate Carries(p: Policy, home: Machine, es: seq<Entry>, s: Scan)
    requires p.maxExtrudeOnlyDistance > 0.0
  {
    && (s.start.Some? <==> Started(es)) && (s.end.Some? <==> Ended(es))
    && (s.objectXMin.Some? ==> LowestX(es, s.objectXMin.value))
    && (s.objectYMin.Some? ==> LowestY(es, s.objectYMin.value))
    && Believes(p, home, s.motion, FactsOf(home, es))
    && (s.start.None? ==> s.motion == INITIAL_MOTION && StrokesOf(home, es) == [] && NoMoves(es))
  }

  predicate NoMoves(es: seq<Entry>) { forall i :: 0 <= i < |es| && es[i].Line? ==> !es[i].c.Move? }

  lemma LaneExactly(p: Policy, home: Machine, es: seq<Entry>, s: Scan)
    requires p.maxExtrudeOnlyDistance > 0.0 && Carries(p, home, es, s) && Measured(es, s) && s.objects > 0
    ensures AtLeast(s.objectYMin, p.kampPurgeMargin) <==> ClearInY(p, es)
    ensures AtLeast(s.objectXMin, p.kampPurgeMargin) <==> ClearInX(p, es)
  {
    forall i: nat, j: nat | IsVertex(es, i, j)
      ensures VertexX(VertexOf(es, i, j)) >= s.objectXMin.value && VertexY(VertexOf(es, i, j)) >= s.objectYMin.value
    {
      assert ObjectFrom(es[i].c.definition, s.objectXMin.value, s.objectYMin.value);
    }
    var i: nat, j: nat :| IsVertex(es, i, j) && VertexX(VertexOf(es, i, j)) == s.objectXMin.value;
    var i': nat, j': nat :| IsVertex(es, i', j') && VertexY(VertexOf(es, i', j')) == s.objectYMin.value;
  }

  lemma ObjectExactly(p: Policy, es: seq<Entry>, s: Scan, o: ObjectDefinition)
    requires s.objects == ObjectsIn(es) && s.objectPoints == PointsIn(es)
    ensures AddObject(p, s, ShapeOf(p, o)).1 <==> ObjectMay(p, es, o)
  {
    if o.polygon.Points? {
      assert (forall j :: 0 <= j < |o.polygon.points| ==> VertexMay(p, o.polygon.points[j])) <==>
             (forall j :: 0 <= j < |o.polygon.points| ==> PointOk(p, o.polygon.points[j]));
    }
  }

  lemma DecelExactly(p: Policy, d: real, a: real)
    requires p.Validate() && a > 0.0
    ensures 1.0 - Min(1.0, d / a) >= p.minimumCruiseRatioFloor <==>
      p.minimumCruiseRatioFloor == 0.0 || d <= (1.0 - p.minimumCruiseRatioFloor) * a
  {
    DivideBy(d, 1.0 - p.minimumCruiseRatioFloor, a);
  }

  lemma DecelWordExactly(p: Policy, d: Number, a: real)
    requires p.Validate() && a > 0.0
    ensures
      d.Absent? || (d.Value? && 0.0 < d.v && 1.0 - Min(1.0, d.v / a) >= p.minimumCruiseRatioFloor) <==>
      DecelMay(p, d, a)
  {
    if d.Value? { DecelExactly(p, d.v, a); }
  }

  lemma VelocityExactly(p: Policy, home: Machine, es: seq<Entry>, c: Command)
    requires p.Validate() && c.VelocityLimit? && Started(es)
    ensures LimitsOk(p, c) <==> May(p, home, es, c)
  {
    var a := if c.accel.Value? then c.accel.v else p.maxAccel;
    if a > 0.0 { DecelWordExactly(p, c.accelToDecel, a); }
  }

  predicate Special(c: Command) { c.Move? || c.VelocityLimit? || c.DefineObject? || c.StartPrint? }

  lemma PlainExactly(p: Policy, home: Machine, es: seq<Entry>, s: Scan, line: nat, c: Command)
    requires p.Validate() && !Special(c) && s.frames == FramesIn(es)
    requires (s.start.Some? <==> Started(es)) && (s.end.Some? <==> Ended(es))
    ensures Step(p, s, line, c).1 <==> May(p, home, es, c)
  {
  }

  /** What the scanner makes of one more command, both ways. */
  lemma StepExactly(p: Policy, home: Machine, es: seq<Entry>, s: Scan, line: nat, c: Command)
    requires p.Validate() && ReportedBy(p, es) == [] && s == ScanOf(p, es) && Carries(p, home, es, s)
    ensures Step(p, s, line, c).1 <==> May(p, home, es, c)
  {
    CleanCounts(p, es);
    if c.Move? {
      MoveExactly(p, home, s.motion, FactsOf(home, es), c);
    } else if c.VelocityLimit? {
      if Started(es) { VelocityExactly(p, home, es, c); }
    } else if c.DefineObject? {
      ObjectExactly(p, es, s, c.definition);
    } else if c.StartPrint? {
      if s.objects > 0 {
        CleanLifecycle(p, es);
        LaneExactly(p, home, es, s);
      }
    } else {
      PlainExactly(p, home, es, s, line, c);
    }
  }

  // ------------------------------------------------ and what it carries on

  lemma FlagsAppended(es: seq<Entry>, e: Entry)
    ensures Started(es + [e]) <==> Started(es) || IsStart(e)
    ensures Ended(es + [e]) <==> Ended(es) || IsEnd(e)
    ensures NoMoves(es + [e]) <==> NoMoves(es) && (e.Line? ==> !e.c.Move?)
  {
    var es' := es + [e];
    assert forall i :: 0 <= i < |es| ==> es'[i] == es[i];
    assert es'[|es|] == e;
  }

  lemma LowestAppended(es: seq<Entry>, e: Entry, x: real, y: real)
    ensures LowestX(es, x) ==> LowestX(es + [e], x)
    ensures LowestY(es, y) ==> LowestY(es + [e], y)
  {
    var es' := es + [e];
    if LowestX(es, x) {
      var i: nat, j: nat :| IsVertex(es, i, j) && VertexX(VertexOf(es, i, j)) == x;
      assert IsVertex(es', i, j) && VertexOf(es', i, j) == VertexOf(es, i, j);
    }
    if LowestY(es, y) {
      var i: nat, j: nat :| IsVertex(es, i, j) && VertexY(VertexOf(es, i, j)) == y;
      assert IsVertex(es', i, j) && VertexOf(es', i, j) == VertexOf(es, i, j);
    }
  }

  lemma LowestOfNew(p: Policy, es: seq<Entry>, o: ObjectDefinition)
    requires ShapeOf(p, o).Some?
    ensures
      var es' := es + [Entry.Line(DefineObject(o))];
      LowestX(es', ShapeOf(p, o).value.minimumX) && LowestY(es', ShapeOf(p, o).value.minimumY)
  {
    var es' := es + [Entry.Line(DefineObject(o))];
    var shape := ShapeOf(p, o).value;
    var j :| 0 <= j < |o.polygon.points| && o.polygon.points[j].x.v == shape.minimumX;
    assert PointOk(p, o.polygon.points[j]);
    assert IsVertex(es', |es|, j) && VertexOf(es', |es|, j) == o.polygon.points[j];
    var k :| 0 <= k < |o.polygon.points| && o.polygon.points[k].y.v == shape.minimumY;
    assert PointOk(p, o.polygon.points[k]);
    assert IsVertex(es', |es|, k) && VertexOf(es', |es|, k) == o.polygon.points[k];
  }

  lemma LowestStep(p: Policy, es: seq<Entry>, s: Scan, e: Entry)
    requires s.objectXMin.Some? ==> LowestX(es, s.objectXMin.value)
    requires s.objectYMin.Some? ==> LowestY(es, s.objectYMin.value)
    requires Reported(p, s, |es| + 1, e) == []
    ensures
      var s' := Next(p, s, |es| + 1, e);
      && (s'.objectXMin.Some? ==> LowestX(es + [e], s'.objectXMin.value))
      && (s'.objectYMin.Some? ==> LowestY(es + [e], s'.objectYMin.value))
  {
    if s.objectXMin.Some? && s.objectYMin.Some? {
      LowestAppended(es, e, s.objectXMin.value, s.objectYMin.value);
    } else if s.objectXMin.Some? {
      LowestAppended(es, e, s.objectXMin.value, 0.0);
    } else if s.objectYMin.Some? {
      LowestAppended(es, e, 0.0, s.objectYMin.value);
    }
    if IsObject(e) { LowestOfNew(p, es, e.c.definition); }
  }

  lemma NothingKnown(home: Machine, es: seq<Entry>, axis: Axis)
    requires NoMoves(es)
    ensures !Known(home, es, axis)
  {
  }

  lemma StrokesAppended(home: Machine, es: seq<Entry>, e: Entry)
    ensures LedgerOf(home, es + [e]) == if e.Line? then Obey(home, LedgerOf(home, es), e.c) else LedgerOf(home, es)
    ensures StrokesOf(home, es + [e]) ==
      if IsStart(e) then []
      else if e.Line? && e.c.Move? && e.c.e.E? then
        StrokesOf(home, es) + [StrokeOf(LedgerOf(home, es).machine, e.c)]
      else StrokesOf(home, es)
  {
    assert (es + [e])[..|es|] == es;
  }

  /** The facts after one more line. */
  lemma FactsStep(home: Machine, es: seq<Entry>, e: Entry)
    requires IsStart(e) ==> NoMoves(es)
    ensures
      var f, f' := FactsOf(home, es), FactsOf(home, es + [e]);
      if IsStart(e) then f' == Facts(home.(e := 0.0, absoluteAxes := f.m.absoluteAxes,
                                           absoluteExtruder := f.m.absoluteExtruder), false, false, false, [])
      else if e.Line? && e.c.Move? then f' == FactsAfter(f, e.c)
      else f' == f.(m := LedgerOf(home, es + [e]).machine)
  {
    StrokesAppended(home, es, e);
    if IsStart(e) {
      FlagsAppended(es, e);
      NothingKnown(home, es + [e], AxisX);
      NothingKnown(home, es + [e], AxisY);
      NothingKnown(home, es + [e], AxisZ);
    } else {
      KnownAppended(home, es, e, AxisX);
      KnownAppended(home, es, e, AxisY);
      KnownAppended(home, es, e, AxisZ);
    }
  }

  /** START_PRINT: every axis is unknown, and the strokes begin anew. */
  lemma StartBelieved(p: Policy, home: Machine, s: Scan, f: Facts, line: nat)
    requires p.Validate() && Believes(p, home, s.motion, f)
    ensures Believes(p, home, Begin(s, line).motion,
                     Facts(home.(e := 0.0, absoluteAxes := f.m.absoluteAxes,
                                 absoluteExtruder := f.m.absoluteExtruder), false, false, false, []))
  {
  }

  /** Any other command that is not a move: at most the modes and the E origin change. */
  lemma OtherBelieved(p: Policy, home: Machine, s: Scan, l: Ledger, f: Facts, line: nat, c: Command)
    requires p.Validate() && Believes(p, home, s.motion, f) && f.m == l.machine
    requires !c.Move? && !c.StartPrint? && Step(p, s, line, c).1
    ensures Believes(p, home, Step(p, s, line, c).0.motion, f.(m := Obey(home, l, c).machine))
  {
    OtherKeepsAccount(p, s, line, c);
  }

  lemma OtherKeepsAccount(p: Policy, s: Scan, line: nat, c: Command)
    requires !c.Move? && !c.StartPrint? && Step(p, s, line, c).1
    ensures
      var m, m' := s.motion, Step(p, s, line, c).0.motion;
      && m'.account == m.account && m'.place.x == m.place.x && m'.place.y == m.place.y && m'.place.z == m.place.z
  {
  }

  lemma BelievesStep(p: Policy, home: Machine, es: seq<Entry>, s: Scan, e: Entry)
    requires p.Validate() && Believes(p, home, s.motion, FactsOf(home, es))
    requires (IsStart(e) ==> NoMoves(es)) && Reported(p, s, |es| + 1, e) == []
    ensures Believes(p, home, Next(p, s, |es| + 1, e).motion, FactsOf(home, es + [e]))
  {
    FactsStep(home, es, e);
    assert (es + [e])[..|es|] == es;
    var f := FactsOf(home, es);
    if IsStart(e) {
      StartBelieved(p, home, s, f, |es| + 1);
    } else if e.Line? && e.c.Move? {
      MoveBelieved(p, home, s.motion, f, e.c);
    } else if e.Line? {
      OtherBelieved(p, home, s, LedgerOf(home, es), f, |es| + 1, e.c);
    }
  }

  /** Before START_PRINT nothing moves. */
  lemma IdleStep(p: Policy, home: Machine, es: seq<Entry>, s: Scan, e: Entry)
    requires s.start.None? ==> s.motion == INITIAL_MOTION && StrokesOf(home, es) == [] && NoMoves(es)
    requires Reported(p, s, |es| + 1, e) == []
    ensures
      var s', es' := Next(p, s, |es| + 1, e), es + [e];
      && (s'.start.Some? <==> s.start.Some? || IsStart(e)) && (s'.end.Some? <==> s.end.Some? || IsEnd(e))
      && (IsStart(e) ==> s.start.None?)
      && (s'.start.None? ==> s'.motion == INITIAL_MOTION && StrokesOf(home, es') == [] && NoMoves(es'))
  {
    FlagsAppended(es, e);
    assert (es + [e])[..|es|] == es;
  }

  lemma CarriesStep(p: Policy, home: Machine, es: seq<Entry>, s: Scan, e: Entry)
    requires p.Validate() && Carries(p, home, es, s) && Reported(p, s, |es| + 1, e) == []
    ensures Carries(p, home, es + [e], Next(p, s, |es| + 1, e))
  {
    FlagsAppended(es, e);
    IdleStep(p, home, es, s, e);
    LowestStep(p, es, s, e);
    BelievesStep(p, home, es, s, e);
  }

  lemma CarriesNothing(p: Policy, home: Machine)
    requires p.Validate()
    ensures Carries(p, home, [], INITIAL)
  {
  }

  lemma {:induction false} CleanCarries(p: Policy, home: Machine, es: seq<Entry>)
    requires p.Validate() && ReportedBy(p, es) == []
    ensures Carries(p, home, es, ScanOf(p, es))
  {
    if es == [] {
      CarriesNothing(p, home);
    } else {
      CleanLast(p, es);
      var before, e := es[..|es| - 1], es[|es| - 1];
      CleanCarries(p, home, before);
      assert es == before + [e];
      CarriesStep(p, home, before, ScanOf(p, before), e);
    }
  }

  // ------------------------------------------------------------ whole files

  /** Behind clean lines, a line is reported exactly if it is not in order. */
  lemma LineExactly(p: Policy, home: Machine, es: seq<Entry>, e: Entry)
    requires p.Validate() && ReportedBy(p, es) == []
    ensures Reported(p, ScanOf(p, es), |es| + 1, e) == [] <==> LineMay(p, home, es, e)
  {
    CleanCarries(p, home, es);
    if e.Line? { StepExactly(p, home, es, ScanOf(p, es), |es| + 1, e.c); }
  }

  /** Every line may stand behind those before it. */
  ghost predicate LinesMay(p: Policy, home: Machine, es: seq<Entry>)
    requires p.maxExtrudeOnlyDistance > 0.0
  {
    forall k :: 0 <= k < |es| ==> LineMay(p, home, es[..k], es[k])
  }

  lemma LinesMayLast(p: Policy, home: Machine, es: seq<Entry>, e: Entry)
    requires p.maxExtrudeOnlyDistance > 0.0
    ensures LinesMay(p, home, es + [e]) <==> LinesMay(p, home, es) && LineMay(p, home, es, e)
  {
    var es' := es + [e];
    assert forall k :: 0 <= k < |es| ==> es'[..k] == es[..k] && es'[k] == es[k];
    assert es'[..|es|] == es;
    if LinesMay(p, home, es') {
      forall k | 0 <= k < |es| ensures LineMay(p, home, es[..k], es[k]) {
        assert LineMay(p, home, es'[..k], es'[k]);
      }
    }
  }

  lemma {:induction false} RunExactly(p: Policy, home: Machine, es: seq<Entry>)
    requires p.Validate()
    ensures ReportedBy(p, es) == [] <==> LinesMay(p, home, es)
  {
    if es != [] {
      var before, e := es[..|es| - 1], es[|es| - 1];
      RunExactly(p, home, before);
      assert es == before + [e];
      LinesMayLast(p, home, before, e);
      if ReportedBy(p, before) == [] { LineExactly(p, home, before, e); }
    }
  }

  /** The scanner accepts exactly the files within the size and line limits whose every line may stand
      behind those before it, with a START_PRINT and an END_PRINT. */
  lemma AcceptedExactly(p: Policy, parse: Parser, data: seq<byte>, home: Machine)
    requires p.Validate()
    ensures
      var es := Checked(p, parse, data);
      Admissible(p, parse, data) <==>
        && |data| <= p.maxFileBytes && |SplitLines(data, NEWLINE)| <= p.maxLines
        && LinesMay(p, home, es) && Started(es) && Ended(es)
  {
    var es := Checked(p, parse, data);
    RunExactly(p, home, es);
    if ReportedBy(p, es) == [] { CleanCarries(p, home, es); }
  }
}
