/** Custody of camera frames in mainline/moonraker/t300_timelapse.py. */
module Timelapse {
  import opened Wrappers

  /** One picture taken, told apart from all others even when the bytes agree. */
  datatype Shot = Shot(number: nat)

  /** frameNNNNNN.jpg, or another name of the form frame*.jpg. */
  datatype Name = Numbered(n: nat) | Stray(text: string)

  /** What stands under a frame name: a regular file, or something that must not be touched. */
  datatype Entry = Picture(shot: Shot) | Unsafe

  /** A name made from a time stamp, with a suffix from the second attempt on. */
  datatype Stamped = Stamped(stamp: string, suffix: nat)

  /** The directories on the USB stick, and what history has seen: every shot ever stored as a
      frame, and the inputs of every video that passed both verifications. */
  datatype Shelf = Shelf(
    frames: map<Name, Entry>,
    retained: map<Stamped, map<Name, Entry>>,
    videos: map<Stamped, seq<Shot>>,
    previews: map<Stamped, Shot>,
    captured: set<Shot>,
    published: map<Stamped, seq<Shot>>)

  // ------------------------------------------------------------- custody

  predicate InFrames(s: Shelf, shot: Shot) {
    exists n :: n in s.frames && s.frames[n] == Picture(shot)
  }

  predicate KeptIn(s: Shelf, d: Stamped, shot: Shot) {
    d in s.retained && exists n :: n in s.retained[d] && s.retained[d][n] == Picture(shot)
  }

  predicate InRetained(s: Shelf, shot: Shot) {
    exists d :: d in s.retained && KeptIn(s, d, shot)
  }

  predicate Shows(s: Shelf, v: Stamped, shot: Shot) {
    v in s.published && v in s.videos && s.videos[v] == s.published[v] && shot in s.published[v]
  }

  predicate InVideo(s: Shelf, shot: Shot) {
    exists v :: v in s.videos && Shows(s, v, shot)
  }

  /** Every shot ever stored is a frame, is retained, or went into a video that passed both
      verifications and is still there. */
  predicate Held(s: Shelf) {
    forall shot :: shot in s.captured ==> InFrames(s, shot) || InRetained(s, shot) || InVideo(s, shot)
  }

  /** Nothing is overwritten: what still has its name has its content, and retained directories and
      previews do not go away. */
  predicate NothingOverwritten(s: Shelf, s': Shelf) {
    && (forall n :: n in s.frames && n in s'.frames ==> s'.frames[n] == s.frames[n])
    && (forall d :: d in s.retained ==> d in s'.retained && s'.retained[d] == s.retained[d])
    && (forall v :: v in s.videos && v in s'.videos ==> s'.videos[v] == s.videos[v])
    && (forall v :: v in s.previews ==> v in s'.previews && s'.previews[v] == s.previews[v])
  }

  predicate VideosStay(s: Shelf, s': Shelf) { s.videos.Keys <= s'.videos.Keys }

  // ------------------------------------------------- effects on the shelf

  /** A shot stored under a free frame name. */
  function Stored(s: Shelf, name: Name, shot: Shot): Shelf {
    s.(frames := s.frames[name := Picture(shot)], captured := s.captured + {shot})
  }

  /** frame000001.jpg to the last one, without gaps and without strays. */
  predicate RenderSet(frames: map<Name, Entry>) {
    forall i :: 1 <= i <= |frames| ==> Numbered(i) in frames && frames[Numbered(i)].Picture?
  }

  function Inputs(frames: map<Name, Entry>): seq<Shot>
    requires RenderSet(frames)
  {
    seq(|frames|, i requires 0 <= i < |frames| => frames[Numbered(i + 1)].shot)
  }

  /** How a render ends, as far as files go: with nothing changed; with a file unlinked that it had
      not written; with its own video left unverified; or verified, with these frames left. */
  datatype RenderEnd =
    | Untouched
    | Unlinked(video: Stamped)
    | LeftUnverified(video: Stamped)
    | Verified(video: Stamped, preview: bool, left: set<Name>)

  predicate Possible(s: Shelf, end: RenderEnd) {
    match end
    case Untouched => true
    case Unlinked(_) => true
    case LeftUnverified(v) => RenderSet(s.frames) && v !in s.videos
    case Verified(v, preview, left) =>
      RenderSet(s.frames) && |s.frames| > 0 && v !in s.videos && (preview ==> v !in s.previews) && left <= s.frames.Keys
  }

  function After(s: Shelf, end: RenderEnd): Shelf
    requires Possible(s, end)
  {
    match end
    case Untouched => s
    case Unlinked(v) => s.(videos := s.videos - {v})
    case LeftUnverified(v) => s.(videos := s.videos[v := Inputs(s.frames)])
    case Verified(v, preview, left) =>
      var shots := Inputs(s.frames);
      s.(frames := map n | n in s.frames && n in left :: s.frames[n],
         videos := s.videos[v := shots], published := s.published[v := shots],
         previews := if preview then s.previews[v := shots[|shots| - 1]] else s.previews)
  }

  // ----------------------------------------------- what the effects keep

  lemma StoreKeeps(s: Shelf, name: Name, shot: Shot)
    requires Held(s) && name !in s.frames
    ensures Held(Stored(s, name, shot))
  {
    var s' := Stored(s, name, shot);
    assert s'.frames[name] == Picture(shot);
    forall t | t in s'.captured && t != shot ensures InFrames(s', t) || InRetained(s', t) || InVideo(s', t) {
      if InFrames(s, t) {
        var n :| n in s.frames && s.frames[n] == Picture(t);
        assert s'.frames[n] == Picture(t);
      } else {
        StaysElsewhere(s, s', t);
      }
    }
  }

  /** Retained frames and published videos are found again when their directories only grew. */
  lemma StaysElsewhere(s: Shelf, s': Shelf, shot: Shot)
    requires forall d :: d in s.retained ==>
      d in s'.retained &&
      forall n :: n in s.retained[d] ==> n in s'.retained[d] && s'.retained[d][n] == s.retained[d][n]
    requires forall v :: v in s.videos && v in s.published ==>
      v in s'.videos && s'.videos[v] == s.videos[v] && v in s'.published && s'.published[v] == s.published[v]
    requires InRetained(s, shot) || InVideo(s, shot)
    ensures InRetained(s', shot) || InVideo(s', shot)
  {
    if InRetained(s, shot) {
      var d :| d in s.retained && KeptIn(s, d, shot);
      var n :| n in s.retained[d] && s.retained[d][n] == Picture(shot);
      assert s'.retained[d][n] == Picture(shot);
      assert KeptIn(s', d, shot);
    } else {
      var v :| v in s.videos && Shows(s, v, shot);
      assert Shows(s', v, shot);
    }
  }

  /** From s to s', exactly the camera's picture was stored, as frame n, which was free. */
  predicate IsCapture(s: Shelf, s': Shelf, n: nat, response: Option<Shot>) {
    response.Some? && Numbered(n) !in s.frames && s' == Stored(s, Numbered(n), response.value)
  }

  /** From s to s', frames at most moved into the new directory d, each under its name. */
  predicate IsRetaining(s: Shelf, s': Shelf, d: Stamped) {
    && d !in s.retained && s'.retained - {d} == s.retained
    && s' == s.(frames := s'.frames, retained := s'.retained)
    && (forall n :: n in s'.frames ==> n in s.frames && s'.frames[n] == s.frames[n])
    && (forall n :: n in s.frames && n !in s'.frames ==>
          d in s'.retained && n in s'.retained[d] && s'.retained[d][n] == s.frames[n])
  }

  /** Custody is kept, nothing is overwritten and no video goes. */
  ghost predicate Keeps(s: Shelf, s': Shelf) {
    (Held(s) ==> Held(s')) && NothingOverwritten(s, s') && VideosStay(s, s')
  }

  lemma CaptureKeeps(s: Shelf, s': Shelf, n: nat, response: Option<Shot>)
    requires s' == s || IsCapture(s, s', n, response)
    ensures Keeps(s, s')
  {
    if s' != s && Held(s) {
      StoreKeeps(s, Numbered(n), response.value);
    }
  }

  lemma CleanupKeeps(s: Shelf, s': Shelf)
    requires s' == s || exists d :: IsRetaining(s, s', d)
    ensures Keeps(s, s')
  {
    if s' != s {
      var d :| IsRetaining(s, s', d);
      RetainOverwritesNothing(s, s', d);
      if Held(s) { RetainKeeps(s, s', d); }
    }
  }

  lemma RetainOverwritesNothing(s: Shelf, s': Shelf, d: Stamped)
    requires IsRetaining(s, s', d)
    ensures NothingOverwritten(s, s') && VideosStay(s, s')
  {
    assert forall e :: e in s.retained ==> e in s'.retained - {d} && s'.retained[e] == s.retained[e];
  }

  lemma RetainKeeps(s: Shelf, s': Shelf, d: Stamped)
    requires Held(s) && IsRetaining(s, s', d)
    ensures Held(s')
  {
    RetainOverwritesNothing(s, s', d);
    forall t | t in s'.captured ensures InFrames(s', t) || InRetained(s', t) || InVideo(s', t) {
      if InFrames(s, t) {
        var n :| n in s.frames && s.frames[n] == Picture(t);
        if n in s'.frames {
          assert s'.frames[n] == Picture(t);
        } else {
          assert s'.retained[d][n] == Picture(t);
          assert KeptIn(s', d, t);
        }
      } else {
        StaysElsewhere(s, s', t);
      }
    }
  }

  function FirstNames(k: nat): set<Name> { set i | 1 <= i <= k :: Numbered(i) }

  lemma {:induction false} FirstNamesCount(k: nat)
    ensures |FirstNames(k)| == k
  {
    if k > 0 {
      FirstNamesCount(k - 1);
      assert FirstNames(k) == FirstNames(k - 1) + {Numbered(k)};
    } else {
      assert FirstNames(0) == {};
    }
  }

  lemma {:induction false} SubsetCount<T>(a: set<T>, b: set<T>)
    requires a <= b
    ensures |a| <= |b| && (|a| == |b| ==> a == b)
  {
    if a != {} {
      var x :| x in a;
      SubsetCount(a - {x}, b - {x});
    }
  }

  /** A set of frames that can be rendered has no other names in it. */
  lemma RenderSetIsNumbered(frames: map<Name, Entry>)
    requires RenderSet(frames)
    ensures forall n :: n in frames <==> n.Numbered? && 1 <= n.n <= |frames|
  {
    FirstNamesCount(|frames|);
    SubsetCount(FirstNames(|frames|), frames.Keys);
  }

  /** Every frame is an input. */
  lemma EveryFrameIsInput(frames: map<Name, Entry>, name: Name)
    requires RenderSet(frames) && name in frames
    ensures frames[name].Picture? && frames[name].shot in Inputs(frames)
  {
    RenderSetIsNumbered(frames);
    assert Inputs(frames)[name.n - 1] == frames[name].shot;
  }

  /** A render keeps custody of every shot, unless it unlinks a video of another render. */
  lemma RenderKeeps(s: Shelf, end: RenderEnd)
    requires Held(s) && Possible(s, end) && !(end.Unlinked? && end.video in s.videos)
    ensures Held(After(s, end))
  {
    var s' := After(s, end);
    forall t | t in s'.captured ensures InFrames(s', t) || InRetained(s', t) || InVideo(s', t) {
      if InRetained(s, t) || InVideo(s, t) {
        StaysElsewhere(s, s', t);
      } else {
        var n :| n in s.frames && s.frames[n] == Picture(t);
        if end.Verified? {
          EveryFrameIsInput(s.frames, n);
          assert Shows(s', end.video, t);
        } else {
          assert s'.frames[n] == Picture(t);
        }
      }
    }
  }

  /** No end overwrites anything, and the videos stay unless one of them was unlinked. */
  lemma RenderOverwritesNothing(s: Shelf, end: RenderEnd)
    requires Possible(s, end)
    ensures NothingOverwritten(s, After(s, end))
    ensures VideosStay(s, After(s, end)) <==> !(end.Unlinked? && end.video in s.videos)
  {
    if end.Unlinked? && end.video in s.videos {
      assert end.video in s.videos.Keys && end.video !in After(s, end).videos.Keys;
    }
  }

  /** Nothing but video v holds this shot. */
  predicate HeldOnlyBy(s: Shelf, v: Stamped, shot: Shot) {
    && shot in s.captured && Shows(s, v, shot) && !InFrames(s, shot) && !InRetained(s, shot)
    && forall w :: w in s.videos && Shows(s, w, shot) ==> w == v
  }

  /** Unlinking a video keeps custody exactly if nothing was held by it alone. */
  lemma UnlinkLosesShots(s: Shelf, v: Stamped)
    requires Held(s)
    ensures Held(After(s, Unlinked(v))) <==> !exists shot :: HeldOnlyBy(s, v, shot)
  {
    var s' := After(s, Unlinked(v));
    forall shot | shot in s.captured
      ensures InFrames(s', shot) || InRetained(s', shot) || InVideo(s', shot) <==> !HeldOnlyBy(s, v, shot)
    {
      StillHeld(s, v, shot);
    }
  }

  lemma StillHeld(s: Shelf, v: Stamped, shot: Shot)
    requires shot in s.captured && (InFrames(s, shot) || InRetained(s, shot) || InVideo(s, shot))
    ensures
      var s' := After(s, Unlinked(v));
      InFrames(s', shot) || InRetained(s', shot) || InVideo(s', shot) <==> !HeldOnlyBy(s, v, shot)
  {
    var s' := After(s, Unlinked(v));
    forall d ensures KeptIn(s', d, shot) <==> KeptIn(s, d, shot) {}
    forall w ensures Shows(s', w, shot) <==> w != v && Shows(s, w, shot) {}
    assert InRetained(s', shot) <==> InRetained(s, shot) by {
      if InRetained(s, shot) { var d :| d in s.retained && KeptIn(s, d, shot); assert KeptIn(s', d, shot); }
      if InRetained(s', shot) { var d :| d in s'.retained && KeptIn(s', d, shot); assert KeptIn(s, d, shot); }
    }
    if w :| w in s.videos && w != v && Shows(s, w, shot) { assert Shows(s', w, shot); }
  }

  // --------------------------------------------- when a render loses a video

  /** A verification that passed: of the partial file, or of a video at its final path. */
  datatype Check = Draft | Final(video: Stamped)

  /** How an awaited step can end. */
  datatype Step = Done | Raise | Cancel

  /** How the write of a frame ends: it returns, or raises with the file in place, or without. */
  datatype Write = Returned | Placed | NotPlaced

  /** What the world answers during one capture: whether the stick is ready, the picture the camera
      sends, if it is a good one, whether there is room for it, and how the write ends. */
  datatype CaptureAnswers = CaptureAnswers(ready: bool, response: Option<Shot>, room: bool, write: Write)

  /** How the move of a frame ends: it may fail half-way, with a copy left behind. */
  datatype Move = Moved | HalfMoved | NotMoved

  /** What the world answers during one clean-up: whether the stick is ready, the time stamp, which
      names cannot be asked about, whether the directory can be made, and how each move ends. */
  datatype CleanAnswers = CleanAnswers(
    ready: bool, stamp: string, probeFails: Stamped -> bool, made: bool, moves: Name -> Move)

  /** What the world answers during one render: the time stamp, which names cannot be asked about,
      whether the frames can be read, the space is enough and the printer answers; how ffmpeg, the
      verification of its output, the move and the verification at the final path end; whether an
      unlink works, and the removal of a partial file; and after a verification whether the digest, the
      preview and the removal of each frame do. */
  datatype Answers = Answers(
    stamp: string, probeFails: Stamped -> bool, readable: bool, space: bool, printer: bool,
    encodes: Step, draft: Step, moves: bool, final: Step, unlinks: bool, clears: bool,
    digests: bool, writesPreview: bool, removes: Name -> bool)

  /** Everything from the name on works, both verifications included. */
  predicate Verifies(a: Answers) { a.encodes.Done? && a.draft.Done? && a.moves && a.final.Done? }

  /** What the calls of the component depend on, and the verifications that have passed. */
  datatype Component = Component(
    shelf: Shelf, framecount: nat, takingframe: bool, rendering: bool, printing: bool,
    enabled: bool, autorender: bool, passed: seq<Check>)

  /** The render gets as far as looking for a name. */
  predicate Searches(c: Component, maximumFrames: nat, a: Answers) {
    && !c.rendering && !c.printing && !c.takingframe
    && a.readable && RenderSet(c.shelf.frames) && 0 < |c.shelf.frames| <= maximumFrames
    && a.space && a.printer
  }

  /** The names before suffix k are taken and can be asked about; suffix k is taken, and asking raises. */
  predicate TrapAt(taken: set<Stamped>, a: Answers, k: nat) {
    && (forall j :: 0 <= j < k ==> Stamped(a.stamp, j) in taken && !a.probeFails(Stamped(a.stamp, j)))
    && Stamped(a.stamp, k) in taken && a.probeFails(Stamped(a.stamp, k))
  }

  /** The names before suffix k are taken and can be asked about; suffix k can be asked about and is free. */
  predicate IsFree(taken: set<Stamped>, stamp: string, probeFails: Stamped -> bool, k: nat) {
    && (forall j :: 0 <= j < k ==> Stamped(stamp, j) in taken && !probeFails(Stamped(stamp, j)))
    && Stamped(stamp, k) !in taken && !probeFails(Stamped(stamp, k))
  }

  predicate FreeAt(taken: set<Stamped>, a: Answers, k: nat) { IsFree(taken, a.stamp, a.probeFails, k) }

  /** The frames a verified render leaves behind. */
  function FramesLeft(frames: map<Name, Entry>, a: Answers): set<Name> {
    set n | n in frames && !(a.digests && a.removes(n))
  }

  predicate Busy(c: Component) { c.rendering || c.printing || c.takingframe }

  predicate Readable(c: Component, maximumFrames: nat, a: Answers) {
    a.readable && RenderSet(c.shelf.frames) && |c.shelf.frames| <= maximumFrames
  }

  /** Captures are turned off: the storage, or the frame limit, does not allow any more. */
  function TurnedOff(c: Component, off: bool): Component {
    if off then c.(enabled := false, autorender := false, takingframe := false) else c
  }

  /** Making the video fails before it is moved into place. */
  predicate Aborts(a: Answers) { !a.encodes.Done? || !a.draft.Done? || !a.moves }

  /** The component after a render, files and verifications aside: the frames are counted if they can be
      read; too little space turns captures off; and the render is over, unless a partial file is left
      that cannot be removed. */
  ghost predicate RenderLeaves(c: Component, maximumFrames: nat, a: Answers, c': Component) {
    if Busy(c) then c' == c
    else
      var counted := Readable(c, maximumFrames, a);
      var off := counted && |c.shelf.frames| > 0 && !a.space;
      var stuck := Searches(c, maximumFrames, a) && Aborts(a) && !a.clears
                   && exists k: nat :: FreeAt(c.shelf.videos.Keys, a, k);
      c' == TurnedOff(c, off).(framecount := if counted then |c.shelf.frames| else c.framecount,
                               rendering := stuck, shelf := c'.shelf, passed := c'.passed)
  }

  predicate CaptureTurnsOff(c: Component, maximumFrames: nat, a: CaptureAnswers) {
    c.framecount >= maximumFrames || !a.ready || (a.response.Some? && !a.room)
  }

  ghost predicate CleanUpTurnsOff(s: Shelf, a: CleanAnswers) {
    && s.frames != map[] && a.ready && !(a.made && AllMove(s.frames, a))
    && exists k: nat :: IsFree(s.retained.Keys, a.stamp, a.probeFails, k)
  }

  /** A capture gets as far as storing its picture. */
  predicate Captures(c: Component, maximumFrames: nat, a: CaptureAnswers) {
    && c.framecount < maximumFrames && a.ready && a.response.Some? && a.room
    && Numbered(c.framecount + 1) !in c.shelf.frames && !a.write.NotPlaced?
  }

  /** Every frame can be moved into a new directory. */
  ghost predicate Retains(s: Shelf, a: CleanAnswers) {
    && (exists k: nat :: IsFree(s.retained.Keys, a.stamp, a.probeFails, k))
    && a.made && AllMove(s.frames, a)
  }

  predicate AllMove(frames: map<Name, Entry>, a: CleanAnswers) {
    forall n :: n in frames ==> frames[n].Picture? && a.moves(n).Moved?
  }

  /** The counter goes back to zero: there is nothing left to retain, or the stick is not ready. */
  ghost predicate Resets(s: Shelf, a: CleanAnswers) { s.frames == map[] || !a.ready || Retains(s, a) }

  ghost predicate LosesVideo(c: Component, maximumFrames: nat, a: Answers) {
    Searches(c, maximumFrames, a) && a.unlinks && exists k: nat :: TrapAt(c.shelf.videos.Keys, a, k)
  }

  ghost predicate LosesCustody(c: Component, maximumFrames: nat, a: Answers) {
    && Searches(c, maximumFrames, a) && a.unlinks
    && exists k: nat, shot ::
         TrapAt(c.shelf.videos.Keys, a, k) && HeldOnlyBy(c.shelf, Stamped(a.stamp, k), shot)
  }

  lemma OneTrap(taken: set<Stamped>, a: Answers, k: nat, l: nat)
    requires TrapAt(taken, a, k) && TrapAt(taken, a, l)
    ensures k == l
  {
  }

  /** A shot taken since the last video, and a video whose name the next render will ask about. */
  const OLD_SHELF := Shelf(
    map[Numbered(1) := Picture(Shot(1))], map[], map[Stamped("20260101T000000Z", 0) := [Shot(0)]], map[],
    {Shot(0), Shot(1)}, map[Stamped("20260101T000000Z", 0) := [Shot(0)]])

  const NO_PROBES := Answers("20260101T000000Z", _ => true, true, true, true, Done, Done, true, Done, true, true,
                             true, true, _ => true)

  lemma ProbeLosesShot()
    ensures Held(OLD_SHELF)
    ensures LosesCustody(Component(OLD_SHELF, 1, false, false, false, true, true, []), 1, NO_PROBES)
  {
    var s, v := OLD_SHELF, Stamped("20260101T000000Z", 0);
    assert s.frames[Numbered(1)] == Picture(Shot(1));
    assert Shows(s, v, Shot(0));
    assert |s.frames| == 1;
    assert TrapAt(s.videos.Keys, NO_PROBES, 0) && HeldOnlyBy(s, v, Shot(0));
  }

  function FirstStamps(stamp: string, k: nat): set<Stamped> { set i | 0 <= i < k :: Stamped(stamp, i) }

  /** Only finitely many suffixes can be taken. */
  lemma {:induction false} FirstStampsCount(stamp: string, k: nat)
    ensures |FirstStamps(stamp, k)| == k
  {
    if k > 0 {
      FirstStampsCount(stamp, k - 1);
      assert FirstStamps(stamp, k) == FirstStamps(stamp, k - 1) + {Stamped(stamp, k - 1)};
    } else {
      assert FirstStamps(stamp, 0) == {};
    }
  }

  predicate NoDuplicates(names: seq<Name>) {
    forall i, j :: 0 <= i < j < |names| ==> names[i] != names[j]
  }

  /** The first i listed frames have been moved, and no other. */
  predicate MovedFirst(before: map<Name, Entry>, listing: seq<Name>, i: nat,
                       frames: map<Name, Entry>, dir: map<Name, Entry>)
  {
    && (forall n :: n in frames ==> n in before && frames[n] == before[n])
    && (forall n :: n in dir ==> n in before && dir[n] == before[n])
    && (forall n :: n in before ==> n in frames || n in dir)
    && (forall j :: 0 <= j < |listing| ==> (listing[j] in frames <==> i <= j))
    && (forall j :: i <= j < |listing| ==> listing[j] !in dir)
  }

  lemma MovedOne(before: map<Name, Entry>, listing: seq<Name>, i: nat, frames: map<Name, Entry>, dir: map<Name, Entry>)
    requires MovedFirst(before, listing, i, frames, dir) && i < |listing| && NoDuplicates(listing)
    ensures listing[i] in frames && listing[i] !in dir && listing[i] in before
    ensures MovedFirst(before, listing, i + 1, frames - {listing[i]}, dir[listing[i] := frames[listing[i]]])
  {
  }

  class T300Timelapse {
    const maximumFrames: nat
    const previewImage: bool
    var frames: map<Name, Entry>
    var retained: map<Stamped, map<Name, Entry>>
    var videos: map<Stamped, seq<Shot>>
    var previews: map<Stamped, Shot>
    ghost var captured: set<Shot>
    ghost var published: map<Stamped, seq<Shot>>
    ghost var passed: seq<Check>
    var framecount: nat
    var takingframe: bool
    var renderisrunning: bool
    var printing: bool
    var enabled: bool
    var autorender: bool

    ghost function Now(): Shelf
      reads this
    {
      Shelf(frames, retained, videos, previews, captured, published)
    }

    ghost function State(): Component
      reads this
    {
      Component(Now(), framecount, takingframe, renderisrunning, printing, enabled, autorender, passed)
    }

    predicate Valid()
      reads this
    {
      framecount <= maximumFrames
    }

    method DisableStorage()
      modifies this`enabled, this`autorender, this`takingframe
      ensures !enabled && !autorender && !takingframe
    {
      enabled, autorender, takingframe := false, false, false;
    }

    /** call_newframe, up to the delayed capture: returns whether one was scheduled. */
    method CallNewframe(ready: bool) returns (scheduled: bool)
      requires Valid()
      modifies this`enabled, this`autorender, this`takingframe
      ensures scheduled <==> old(enabled) && !old(takingframe) && framecount < maximumFrames && ready
      ensures scheduled ==> takingframe && enabled && autorender == old(autorender)
      // the limit, or a stick that is not ready, turns captures off
      ensures !scheduled && old(enabled) && !old(takingframe) ==> !enabled && !autorender && !takingframe
      ensures !scheduled && (!old(enabled) || old(takingframe)) ==>
        enabled == old(enabled) && autorender == old(autorender) && takingframe == old(takingframe)
    {
      if !enabled || takingframe { return false; }
      if framecount >= maximumFrames || !ready {
        DisableStorage();
        return false;
      }
      takingframe := true;
      scheduled := true;
    }

    /** _write_atomic, for a frame. */
    method WriteAtomic(name: Name, shot: Shot, write: Write) returns (ok: bool)
      modifies this`frames, this`captured
      ensures ok <==> name !in old(frames) && write.Returned?
      ensures Now() == if name in old(frames) || write.NotPlaced? then old(Now()) else Stored(old(Now()), name, shot)
    {
      if name in frames || write.NotPlaced? { return false; }
      frames := frames[name := Picture(shot)];
      captured := captured + {shot};
      ok := write.Returned?;
    }

    /** newframe */
    method NewFrame(a: CaptureAnswers) returns (ok: bool)
      requires Valid()
      modifies this
      ensures Valid()
      ensures State() == TurnedOff(old(State()), CaptureTurnsOff(old(State()), maximumFrames, a)).(
        shelf := Now(), takingframe := false, framecount := old(framecount) + if ok then 1 else 0)
      ensures ok <==> Captures(old(State()), maximumFrames, a) && a.write.Returned?
      ensures Now() == if Captures(old(State()), maximumFrames, a)
                       then Stored(old(Now()), Numbered(old(framecount) + 1), a.response.value) else old(Now())
    {
      takingframe := false;
      if framecount >= maximumFrames || !a.ready {
        DisableStorage();
        return false;
      }
      if a.response.None? { return false; }
      if !a.room {
        DisableStorage();
        return false;
      }
      ok := WriteAtomic(Numbered(framecount + 1), a.response.value, a.write);
      if ok { framecount := framecount + 1; }
    }

    /** The first stamped name that is not taken. Asking may raise, leaving the name asked about. */
    method FreeName(stamp: string, taken: set<Stamped>, probeFails: Stamped -> bool)
      returns (name: Stamped, ok: bool)
      ensures name.stamp == stamp
      ensures forall j :: 0 <= j < name.suffix ==> Stamped(stamp, j) in taken && !probeFails(Stamped(stamp, j))
      ensures if ok then name !in taken && !probeFails(name) else probeFails(name)
    {
      name := Stamped(stamp, 0);
      assert FirstStamps(stamp, 0) == {};
      while true
        invariant name.stamp == stamp && FirstStamps(stamp, name.suffix) <= taken
        invariant forall j :: 0 <= j < name.suffix ==> Stamped(stamp, j) in taken && !probeFails(Stamped(stamp, j))
        decreases |taken| - name.suffix
      {
        if probeFails(name) { return name, false; }
        if name !in taken { return name, true; }
        assert FirstStamps(stamp, name.suffix + 1) == FirstStamps(stamp, name.suffix) + {name};
        FirstStampsCount(stamp, name.suffix + 1);
        SubsetCount(FirstStamps(stamp, name.suffix + 1), taken);
        name := Stamped(stamp, name.suffix + 1);
      }
    }

    /** One move of cleanup. */
    method MoveOne(d: Stamped, name: Name, move: Move) returns (ok: bool)
      requires d in retained && name in frames && name !in retained[d]
      modifies this`frames, this`retained
      ensures ok <==> old(frames)[name].Picture? && move.Moved?
      ensures frames == if ok then old(frames) - {name} else old(frames)
      ensures ok ==> retained == old(retained)[d := old(retained)[d][name := old(frames)[name]]]
      ensures old(frames)[name].Picture? && move.HalfMoved? ==>
        retained == old(retained)[d := old(retained)[d][name := Unsafe]]
      ensures old(frames)[name].Unsafe? || move.NotMoved? ==> retained == old(retained)
    {
      if frames[name].Unsafe? { return false; }
      match move {
        case Moved =>
          retained := retained[d := retained[d][name := frames[name]]];
          frames := frames - {name};
        case HalfMoved => retained := retained[d := retained[d][name := Unsafe]];
        case NotMoved =>
      }
      ok := move.Moved?;
    }

    /** The try block of cleanup: a new directory, and every listed frame moved into it. */
    method Retain(d: Stamped, listing: seq<Name>, a: CleanAnswers) returns (ok: bool)
      requires d !in retained && NoDuplicates(listing) && forall n :: n in listing <==> n in frames
      modifies this`frames, this`retained
      ensures IsRetaining(old(Now()), Now(), d)
      ensures ok <==> a.made && AllMove(old(frames), a)
      ensures ok ==> frames == map[] && d in retained && retained[d] == old(frames)
    {
      ok := a.made;
      if !ok { return; }
      retained := retained[d := map[]];
      assert retained - {d} == old(retained);
      ok := MoveAll(d, listing, a);
    }

    method MoveAll(d: Stamped, listing: seq<Name>, a: CleanAnswers) returns (ok: bool)
      requires d in retained && retained[d] == map[]
      requires NoDuplicates(listing) && forall n :: n in listing <==> n in frames
      modifies this`frames, this`retained
      ensures d in retained && retained - {d} == old(retained) - {d}
      ensures forall n :: n in frames ==> n in old(frames) && frames[n] == old(frames)[n]
      ensures forall n :: n in old(frames) && n !in frames ==> n in retained[d] && retained[d][n] == old(frames)[n]
      ensures ok <==> AllMove(old(frames), a)
      ensures ok ==> frames == map[] && retained[d] == old(frames)
    {
      ghost var before, others := frames, retained - {d};
      for i := 0 to |listing|
        invariant d in retained && retained - {d} == others
        invariant MovedFirst(before, listing, i, frames, retained[d])
        invariant forall j :: 0 <= j < i ==> before[listing[j]].Picture? && a.moves(listing[j]).Moved?
      {
        MovedOne(before, listing, i, frames, retained[d]);
        ok := MoveOne(d, listing[i], a.moves(listing[i]));
        if !ok { return; }
      }
      assert frames == map[];
      assert retained[d] == before;
      ok := true;
    }

    method Glob() returns (listing: seq<Name>)
      ensures NoDuplicates(listing) && forall n :: n in listing <==> n in frames
    {
      listing := [];
      var left := frames.Keys;
      while left != {}
        invariant left <= frames.Keys && NoDuplicates(listing)
        invariant forall n :: n in frames <==> n in left || n in listing
        invariant forall n :: n in listing ==> n !in left
      {
        var name :| name in left;
        left := left - {name};
        listing := listing + [name];
      }
    }

    /** cleanup. When the stick is not ready the frames stay and the counter is reset all the same;
        _write_atomic then refuses to reuse their names. */
    method Cleanup(a: CleanAnswers) returns (reset: bool)
      requires Valid()
      modifies this
      ensures Valid()
      ensures State() == TurnedOff(old(State()), CleanUpTurnsOff(old(Now()), a)).(
        shelf := Now(), framecount := if reset then 0 else old(framecount))
      ensures reset <==> Resets(old(Now()), a)
      ensures old(frames) == map[] || !a.ready ==> Now() == old(Now())
      ensures a.ready && Retains(old(Now()), a) ==> frames == map[]
      ensures Now() == old(Now()) || exists d :: IsRetaining(old(Now()), Now(), d)
    {
      var listing := Glob();
      assert listing == [] <==> frames == map[] by {
        if listing != [] { assert listing[0] in frames; }
      }
      if listing != [] && a.ready {
        var ok := RetainAll(listing, a);
        if !ok { return false; }
      }
      framecount := 0;
      reset := true;
    }

    /** cleanup with frames on a ready stick. A name that cannot be asked about raises past it all. */
    method RetainAll(listing: seq<Name>, a: CleanAnswers) returns (ok: bool)
      requires NoDuplicates(listing) && forall n :: n in listing <==> n in frames
      modifies this`frames, this`retained, this`enabled, this`autorender, this`takingframe
      ensures ok <==> Retains(old(Now()), a)
      ensures ok ==> frames == map[]
      ensures
        var free := exists k: nat :: IsFree(old(retained).Keys, a.stamp, a.probeFails, k);
        State() == TurnedOff(old(State()), free && !(a.made && AllMove(old(frames), a))).(shelf := Now())
      ensures Now() == old(Now()) || exists d :: IsRetaining(old(Now()), Now(), d)
    {
      var d, free := FreeName(a.stamp, retained.Keys, a.probeFails);
      FreeNameIs(retained.Keys, a.stamp, a.probeFails, d, free);
      if !free { return false; }
      ok := Retain(d, listing, a);
      if !ok { DisableStorage(); }
    }

    /** _render_frames: the sorted frames, if they are numbered from one without a gap and each can
        be read as a JPEG. */
    method RenderFrames(readable: bool) returns (r: Result<seq<Shot>>)
      ensures r.Ok? <==> readable && RenderSet(frames) && |frames| <= maximumFrames
      ensures r.Ok? ==> r.value == Inputs(frames)
    {
      if !readable || |frames| > maximumFrames { return Raised; }
      var shots: seq<Shot> := [];
      for index := 1 to |frames| + 1
        invariant |shots| == index - 1
        invariant forall i :: 1 <= i < index ==>
          Numbered(i) in frames && frames[Numbered(i)].Picture? && shots[i - 1] == frames[Numbered(i)].shot
      {
        if Numbered(index) !in frames || frames[Numbered(index)].Unsafe? { return Raised; }
        shots := shots + [frames[Numbered(index)].shot];
      }
      r := Ok(shots);
    }

    /** The end of render's finally block; removing the partial file may raise first. */
    method Finish(partial: bool, clears: bool)
      modifies this`renderisrunning
      ensures renderisrunning == (old(renderisrunning) && partial && !clears)
    {
      if partial && !clears { return; }
      renderisrunning := false;
    }

    /** _verify_video. A video that does not pass makes render raise. */
    method VerifyVideo(c: Check, answer: Step) returns (step: Step)
      modifies this`passed
      ensures step == answer && passed == if step.Done? then old(passed) + [c] else old(passed)
    {
      step := answer;
      if step.Done? { passed := passed + [c]; }
    }

    /** The temporary file, ffmpeg within its budget, and the first verification. */
    method Encode(a: Answers) returns (step: Step)
      modifies this`passed
      ensures step == if a.encodes.Done? then a.draft else a.encodes
      ensures passed == if step.Done? then old(passed) + [Draft] else old(passed)
    {
      step := a.encodes;
      if step.Done? { step := VerifyVideo(Draft, a.draft); }
    }

    /** The frames a verified video has consumed, unlinked one by one. */
    method RemoveInputs(a: Answers) returns (removed: nat)
      requires RenderSet(frames)
      modifies this`frames
      ensures forall n :: n in frames <==> n in old(frames) && !a.removes(n)
      ensures forall n :: n in frames ==> frames[n] == old(frames)[n]
      ensures removed + |frames| == |old(frames)|
    {
      removed := 0;
      ghost var before := frames;
      var count := |frames|;
      RenderSetIsNumbered(frames);
      for i := 1 to count + 1
        invariant forall n :: n in frames <==> n in before && !(n.n < i && a.removes(n))
        invariant forall n :: n in frames ==> frames[n] == before[n]
        invariant removed + |frames| == count
      {
        if a.removes(Numbered(i)) {
          assert frames.Keys - {Numbered(i)} == (frames - {Numbered(i)}).Keys;
          frames := frames - {Numbered(i)};
          removed := removed + 1;
        }
      }
    }

    /** After the second verification: digest, preview and the removal of the inputs. */
    method Commit(final: Stamped, shots: seq<Shot>, a: Answers) returns (end: RenderEnd, removed: nat)
      requires RenderSet(frames) && |frames| > 0 && shots == Inputs(frames)
      requires final in videos && videos[final] == shots
      modifies this`frames, this`previews, this`published
      ensures end.Verified? && end.video == final && end.left == frames.Keys == FramesLeft(old(frames), a)
      ensures forall n :: n in frames ==> frames[n] == old(frames)[n]
      ensures published == old(published)[final := shots]
      ensures end.preview <==> a.digests && previewImage && a.writesPreview && final !in old(previews)
      ensures previews == if end.preview then old(previews)[final := shots[|shots| - 1]] else old(previews)
      ensures removed + |frames| == |old(frames)|
    {
      published := published[final := shots];
      if !a.digests {
        assert frames.Keys == FramesLeft(frames, a);
        return Verified(final, false, frames.Keys), 0;
      }
      var written := previewImage && a.writesPreview && final !in previews;
      if written { previews := previews[final := shots[|shots| - 1]]; }
      removed := RemoveInputs(a);
      end := Verified(final, written, frames.Keys);
    }

    /** From the chosen name on: encode, move into place, verify again, commit. */
    method RenderTo(final: Stamped, shots: seq<Shot>, a: Answers) returns (end: RenderEnd, removed: nat)
      requires RenderSet(frames) && |frames| > 0 && shots == Inputs(frames) && final !in videos
      requires renderisrunning
      modifies this`videos, this`frames, this`previews, this`published, this`passed, this`renderisrunning
      ensures !end.Unlinked? && Possible(old(Now()), end) && Now() == After(old(Now()), end)
      ensures removed + |frames| == |old(frames)|
      ensures renderisrunning <==> Aborts(a) && !a.clears
      ensures Vetted(old(passed), a, end, passed)
      ensures end.Verified? <==> Verifies(a)
      ensures end.Verified? ==> end.video == final && end.left == FramesLeft(old(frames), a)
    {
      ghost var before := Now();
      removed := 0;
      var step := Encode(a);
      if !step.Done? || !a.moves {
        Finish(true, a.clears);
        return Untouched, 0;
      }
      videos := videos[final := shots];
      end, removed := Publish(final, shots, a, before);
    }

    /** From the final path on: verify again, then commit, or take the video back. */
    method Publish(final: Stamped, shots: seq<Shot>, a: Answers, ghost before: Shelf)
      returns (end: RenderEnd, removed: nat)
      requires RenderSet(frames) && |frames| > 0 && shots == Inputs(frames) && final !in before.videos
      requires Now() == before.(videos := before.videos[final := shots])
      modifies this`videos, this`frames, this`previews, this`published, this`passed, this`renderisrunning
      ensures !end.Unlinked? && Possible(before, end) && Now() == After(before, end)
      ensures removed + |frames| == |before.frames|
      ensures !renderisrunning
      ensures end.Verified? <==> a.final.Done?
      ensures end.Verified? ==> end.video == final && end.left == FramesLeft(before.frames, a)
      ensures passed == if end.Verified? then old(passed) + [Final(final)] else old(passed)
    {
      var step := VerifyVideo(Final(final), a.final);
      if step.Done? {
        end, removed := Commit(final, shots, a);
        assert frames == map n | n in before.frames && n in end.left :: before.frames[n];
      } else {
        end := TakeBack(final, step.Raise? && a.unlinks, before);
        removed := 0;
      }
      Finish(false, a.clears);
    }

    /** A video that failed its second verification is unlinked, unless the call was cancelled. */
    method TakeBack(final: Stamped, unlinked: bool, ghost before: Shelf) returns (end: RenderEnd)
      requires RenderSet(frames) && final !in before.videos
      requires Now() == before.(videos := before.videos[final := Inputs(frames)])
      modifies this`videos
      ensures end == if unlinked then Untouched else LeftUnverified(final)
      ensures Possible(before, end) && Now() == After(before, end)
    {
      if unlinked {
        videos := videos - {final};
        assert videos == before.videos;
        end := Untouched;
      } else {
        end := LeftUnverified(final);
      }
    }

    /** render. An older video goes exactly if the render gets to look for a name, the first name it
        cannot ask about is taken, and the unlink in the error branch works. */
    method Render(a: Answers) returns (end: RenderEnd, removed: nat)
      requires Valid()
      modifies this
      ensures Valid() && printing == old(printing) && RenderStep(old(State()), maximumFrames, a, end, State())
      ensures end.Verified? ==> !old(printing) && !old(takingframe) && framecount == |old(frames)|
      ensures removed + |frames| == |old(frames)|
    {
      end, removed := Untouched, 0;
      var r := Prepare(a);
      if r.Some? { end, removed := RenderNamed(a, r.value); }
    }

    /** render up to the search for a name: the inputs, if it gets that far. */
    method Prepare(a: Answers) returns (r: Option<seq<Shot>>)
      requires Valid()
      modifies this`framecount, this`renderisrunning, this`enabled, this`autorender, this`takingframe
      ensures Valid() && (r.Some? <==> Searches(old(State()), maximumFrames, a))
      ensures r.Some? ==> State() == old(State()).(framecount := |frames|, rendering := true)
      ensures r.None? ==> RenderLeaves(old(State()), maximumFrames, a, State())
      ensures r.Some? ==> RenderSet(frames) && r.value == Inputs(frames) && framecount == |frames| > 0
    {
      if renderisrunning || printing || takingframe { return None; }
      var shots := RenderFrames(a.readable);
      if shots.Raised? {
        Finish(false, a.clears);
        return None;
      }
      framecount := |frames|;
      if shots.value == [] {
        Finish(false, a.clears);
        return None;
      }
      if !a.space {
        DisableStorage();
        Finish(false, a.clears);
        return None;
      }
      renderisrunning := true;
      if !a.printer {
        Finish(false, a.clears);
        return None;
      }
      r := Some(shots.value);
    }

    /** render from the search for a name on. */
    method RenderNamed(a: Answers, shots: seq<Shot>) returns (end: RenderEnd, removed: nat)
      requires RenderSet(frames) && |frames| > 0 && shots == Inputs(frames) && renderisrunning
      modifies this`videos, this`frames, this`previews, this`published, this`passed, this`renderisrunning
      ensures Possible(old(Now()), end)
      ensures renderisrunning <==> Aborts(a) && !a.clears && exists k: nat :: FreeAt(old(videos).Keys, a, k)
      ensures Now() == After(old(Now()), end) && Trapped(old(videos).Keys, a, end)
      ensures Vetted(old(passed), a, end, passed)
      ensures end.Verified? <==> Verifies(a) && exists k: nat :: FreeAt(old(videos).Keys, a, k)
      ensures end.Verified? ==> end.left == FramesLeft(old(frames), a)
      ensures removed + |frames| == |old(frames)|
    {
      var final, free := FreeName(a.stamp, videos.Keys, a.probeFails);
      SearchFindsTrap(videos.Keys, a, final, free);
      if free {
        end, removed := RenderTo(final, shots, a);
      } else {
        end, removed := Untouched, 0;
        if a.unlinks {
          videos := videos - {final};
          end := Unlinked(final);
        }
        Finish(false, a.clears);
      }
    }

    /** One call, or a print beginning or ending. */
    method Perform(call: Call)
      requires Valid()
      modifies this
      ensures Valid() && Follows(old(State()), maximumFrames, call, State())
    {
      match call {
        case Printing(on) => printing := on;
        case Capture(capture) => var _ := NewFrame(capture);
        case CleanUp(clean) => var _ := Cleanup(clean);
        case Rendering(a) => var end, _ := Render(a);
      }
    }

    /** Any number of calls, one at a time: how each one changed the component, and what that means for
        custody, videos and overwriting. */
    method Session(calls: seq<Call>) returns (ghost trace: seq<Component>)
      requires Valid()
      modifies this
      ensures Valid() && IsSession(maximumFrames, calls, trace)
      ensures trace[0] == old(State()) && trace[|calls|] == State()
      ensures SessionKept(maximumFrames, calls, trace)
    {
      trace := [State()];
      for i := 0 to |calls|
        invariant Valid() && |trace| == i + 1 && trace[0] == old(State()) && trace[i] == State()
        invariant forall j :: 0 <= j < i ==> Follows(trace[j], maximumFrames, calls[j], trace[j + 1])
      {
        Perform(calls[i]);
        trace := trace + [State()];
      }
      SessionKeeps(maximumFrames, calls, trace);
    }
  }

  // ---------------------------------------------------------- whole sessions

  datatype Call =
    | Capture(capture: CaptureAnswers)
    | CleanUp(clean: CleanAnswers)
    | Rendering(a: Answers)
    | Printing(on: bool)

  /** An older video was unlinked: the one in the trap, with an unlink that works. */
  ghost predicate Trapped(taken: set<Stamped>, a: Answers, end: RenderEnd) {
    && (end.Unlinked? && end.video in taken <==> a.unlinks && exists k: nat :: TrapAt(taken, a, k))
    && (forall k: nat :: TrapAt(taken, a, k) && end.Unlinked? ==> end.video == Stamped(a.stamp, k))
    && (forall k: nat :: TrapAt(taken, a, k) && !a.unlinks ==> end.Untouched?)
  }

  /** The verifications that passed: both, for a verified end, and never the second for another. */
  predicate Vetted(before: seq<Check>, a: Answers, end: RenderEnd, after: seq<Check>) {
    if end.Verified? then Verifies(a) && after == before + [Draft, Final(end.video)]
    else after == before || after == before + [Draft]
  }

  /** The search ends at a free name exactly if there is one to be found. */
  lemma FreeNameIs(taken: set<Stamped>, stamp: string, probeFails: Stamped -> bool, name: Stamped, ok: bool)
    requires name.stamp == stamp
    requires forall j :: 0 <= j < name.suffix ==> Stamped(stamp, j) in taken && !probeFails(Stamped(stamp, j))
    requires if ok then name !in taken && !probeFails(name) else probeFails(name)
    ensures (exists k: nat :: IsFree(taken, stamp, probeFails, k)) <==> ok
  {
    assert name == Stamped(stamp, name.suffix);
    if ok { assert IsFree(taken, stamp, probeFails, name.suffix); }
    if k: nat :| IsFree(taken, stamp, probeFails, k) {
      assert k == name.suffix || (k < name.suffix && Stamped(stamp, k) in taken)
          || (k > name.suffix && Stamped(stamp, name.suffix) in taken && !probeFails(Stamped(stamp, name.suffix)));
    }
  }

  lemma SearchFindsTrap(taken: set<Stamped>, a: Answers, name: Stamped, ok: bool)
    requires name.stamp == a.stamp
    requires forall j :: 0 <= j < name.suffix ==> Stamped(a.stamp, j) in taken && !a.probeFails(Stamped(a.stamp, j))
    requires if ok then name !in taken && !a.probeFails(name) else a.probeFails(name)
    ensures forall k: nat :: TrapAt(taken, a, k) ==> k == name.suffix
    ensures (exists k: nat :: TrapAt(taken, a, k)) <==> !ok && name in taken
    ensures (exists k: nat :: FreeAt(taken, a, k)) <==> ok
  {
    assert name == Stamped(a.stamp, name.suffix);
    FreeNameIs(taken, a.stamp, a.probeFails, name, ok);
    assert (exists k: nat :: FreeAt(taken, a, k)) <==> (exists k: nat :: IsFree(taken, a.stamp, a.probeFails, k)) by {
      if k: nat :| FreeAt(taken, a, k) { assert IsFree(taken, a.stamp, a.probeFails, k); }
      if k: nat :| IsFree(taken, a.stamp, a.probeFails, k) { assert FreeAt(taken, a, k); }
    }
    if !ok && name in taken { assert TrapAt(taken, a, name.suffix); }
  }

  ghost predicate RenderStep(c: Component, maximumFrames: nat, a: Answers, end: RenderEnd, c': Component) {
    && Possible(c.shelf, end) && c'.shelf == After(c.shelf, end)
    && (if Searches(c, maximumFrames, a) then Trapped(c.shelf.videos.Keys, a, end) else end.Untouched?)
    && Vetted(c.passed, a, end, c'.passed) && (end.Verified? ==> end.left == FramesLeft(c.shelf.frames, a))
    && (end.Verified? <==>
          Searches(c, maximumFrames, a) && Verifies(a) && exists k: nat :: FreeAt(c.shelf.videos.Keys, a, k))
    && RenderLeaves(c, maximumFrames, a, c')
  }

  ghost predicate Follows(c: Component, maximumFrames: nat, call: Call, c': Component) {
    match call
    case Printing(on) => c' == c.(printing := on)
    case Capture(a) =>
      var stores := Captures(c, maximumFrames, a);
      c' == TurnedOff(c, CaptureTurnsOff(c, maximumFrames, a)).(
        shelf := if stores then Stored(c.shelf, Numbered(c.framecount + 1), a.response.value) else c.shelf,
        framecount := c.framecount + (if stores && a.write.Returned? then 1 else 0), takingframe := false)
    case CleanUp(a) =>
      && c' == TurnedOff(c, CleanUpTurnsOff(c.shelf, a)).(
                 shelf := c'.shelf, framecount := if Resets(c.shelf, a) then 0 else c.framecount)
      && (c'.shelf == c.shelf || exists d :: IsRetaining(c.shelf, c'.shelf, d))
      && (c.shelf.frames == map[] || !a.ready ==> c'.shelf == c.shelf)
      && (a.ready && Retains(c.shelf, a) ==> c'.shelf.frames == map[])
    case Rendering(a) => exists end :: RenderStep(c, maximumFrames, a, end, c')
  }

  ghost predicate IsSession(maximumFrames: nat, calls: seq<Call>, trace: seq<Component>) {
    && |trace| == |calls| + 1
    && forall i :: 0 <= i < |calls| ==> Follows(trace[i], maximumFrames, calls[i], trace[i + 1])
  }

  ghost predicate CallLosesVideo(c: Component, maximumFrames: nat, call: Call) {
    call.Rendering? && LosesVideo(c, maximumFrames, call.a)
  }

  ghost predicate CallLosesCustody(c: Component, maximumFrames: nat, call: Call) {
    call.Rendering? && LosesCustody(c, maximumFrames, call.a)
  }

  /** No call overwrites anything. A call takes an older video exactly if it is a render that loses
      one, and ends the custody of a shot exactly if that video alone held one: both can be seen
      before the call. */
  lemma CallKeeps(c: Component, maximumFrames: nat, call: Call, c': Component)
    requires Follows(c, maximumFrames, call, c')
    ensures NothingOverwritten(c.shelf, c'.shelf)
    ensures VideosStay(c.shelf, c'.shelf) <==> !CallLosesVideo(c, maximumFrames, call)
    ensures Held(c.shelf) ==> (Held(c'.shelf) <==> !CallLosesCustody(c, maximumFrames, call))
  {
    match call {
      case Printing(on) =>
      case Capture(a) => CaptureKeeps(c.shelf, c'.shelf, c.framecount + 1, a.response);
      case CleanUp(_) => CleanupKeeps(c.shelf, c'.shelf);
      case Rendering(a) =>
        var end :| RenderStep(c, maximumFrames, a, end, c');
        RenderOverwritesNothing(c.shelf, end);
        RenderStepKeeps(c, maximumFrames, a, end, c');
    }
  }

  lemma RenderStepKeeps(c: Component, maximumFrames: nat, a: Answers, end: RenderEnd, c': Component)
    requires RenderStep(c, maximumFrames, a, end, c')
    ensures end.Unlinked? && end.video in c.shelf.videos <==> LosesVideo(c, maximumFrames, a)
    ensures Held(c.shelf) ==> (Held(c'.shelf) <==> !LosesCustody(c, maximumFrames, a))
  {
    if LosesVideo(c, maximumFrames, a) {
      var k: nat :| TrapAt(c.shelf.videos.Keys, a, k);
      forall l: nat | TrapAt(c.shelf.videos.Keys, a, l) ensures l == k {
        OneTrap(c.shelf.videos.Keys, a, l, k);
      }
      if Held(c.shelf) { UnlinkLosesShots(c.shelf, end.video); }
    } else if Held(c.shelf) {
      RenderKeeps(c.shelf, end);
    }
  }

  /** Video v was published in this form by this call. */
  predicate PublishedBy(s: Shelf, s': Shelf, v: Stamped) {
    v in s'.published && (v in s.published ==> s'.published[v] != s.published[v])
  }

  /** A call publishes a video only as a render whose output passed both verifications, in order. */
  ghost predicate PublishesVerified(c: Component, call: Call, c': Component) {
    forall v :: PublishedBy(c.shelf, c'.shelf, v) ==>
      call.Rendering? && Verifies(call.a) && c'.passed == c.passed + [Draft, Final(v)]
  }

  lemma CallVerifies(c: Component, maximumFrames: nat, call: Call, c': Component)
    requires Follows(c, maximumFrames, call, c')
    ensures PublishesVerified(c, call, c') && c.passed <= c'.passed
  {
  }

  /** Both verifications of video v are on record, one after the other. */
  predicate OnRecord(passed: seq<Check>, v: Stamped) {
    exists j :: 0 <= j < |passed| - 1 && passed[j] == Draft && passed[j + 1] == Final(v)
  }

  predicate AllOnRecord(c: Component) {
    forall v :: v in c.shelf.published ==> OnRecord(c.passed, v)
  }

  lemma CallRecords(c: Component, maximumFrames: nat, call: Call, c': Component)
    requires Follows(c, maximumFrames, call, c') && AllOnRecord(c)
    ensures AllOnRecord(c')
  {
    CallVerifies(c, maximumFrames, call, c');
    forall v | v in c'.shelf.published ensures OnRecord(c'.passed, v) {
      if PublishedBy(c.shelf, c'.shelf, v) {
        var j := |c.passed|;
        assert c'.passed[j] == Draft && c'.passed[j + 1] == Final(v);
      } else {
        assert v in c.shelf.published;
        var j :| 0 <= j < |c.passed| - 1 && c.passed[j] == Draft && c.passed[j + 1] == Final(v);
        assert c'.passed[j] == Draft && c'.passed[j + 1] == Final(v);
      }
    }
  }

  lemma {:induction false} SessionRecords(maximumFrames: nat, calls: seq<Call>, trace: seq<Component>, n: nat)
    requires IsSession(maximumFrames, calls, trace) && AllOnRecord(trace[0]) && n <= |calls|
    ensures AllOnRecord(trace[n])
  {
    if n > 0 {
      SessionRecords(maximumFrames, calls, trace, n - 1);
      CallRecords(trace[n - 1], maximumFrames, calls[n - 1], trace[n]);
    }
  }

  /** A partial file that cannot be removed leaves the component rendering: from then on no call ends
      that, and every render is refused without an effect. */
  lemma StuckStays(c: Component, maximumFrames: nat, call: Call, c': Component)
    requires Follows(c, maximumFrames, call, c') && c.rendering
    ensures c'.rendering && (call.Rendering? ==> c' == c)
  {
  }

  /** Otherwise a render that is over lets the next one begin. */
  lemma RenderIsOver(c: Component, maximumFrames: nat, a: Answers, c': Component)
    requires Follows(c, maximumFrames, Rendering(a), c') && !c.rendering && (a.clears || !Aborts(a))
    ensures !c'.rendering
  {
  }

  /** No call of the session ends the custody of a shot. */
  ghost predicate Careful(maximumFrames: nat, calls: seq<Call>, trace: seq<Component>)
    requires |trace| == |calls| + 1
  {
    forall i :: 0 <= i < |calls| ==> !CallLosesCustody(trace[i], maximumFrames, calls[i])
  }

  lemma {:induction false} CarefulHolds(maximumFrames: nat, calls: seq<Call>, trace: seq<Component>, n: nat)
    requires IsSession(maximumFrames, calls, trace) && Careful(maximumFrames, calls, trace)
    requires Held(trace[0].shelf) && n <= |calls|
    ensures Held(trace[n].shelf)
  {
    if n > 0 {
      CarefulHolds(maximumFrames, calls, trace, n - 1);
      CallKeeps(trace[n - 1], maximumFrames, calls[n - 1], trace[n]);
    }
  }

  /** Over a whole session: nothing is ever overwritten, a video is published only by a render that
      verified it twice, videos go exactly in the renders that lose one, and every shot stays in custody
      throughout exactly if no render ends the custody of one. */
  ghost predicate SessionKept(maximumFrames: nat, calls: seq<Call>, trace: seq<Component>)
    requires |trace| == |calls| + 1
  {
    && (forall i :: 0 <= i < |calls| ==>
          && NothingOverwritten(trace[i].shelf, trace[i + 1].shelf)
          && PublishesVerified(trace[i], calls[i], trace[i + 1])
          && (VideosStay(trace[i].shelf, trace[i + 1].shelf) <==>
              !CallLosesVideo(trace[i], maximumFrames, calls[i])))
    && (AllOnRecord(trace[0]) ==> forall i :: 0 <= i <= |calls| ==> AllOnRecord(trace[i]))
    && (Held(trace[0].shelf) ==>
          (Careful(maximumFrames, calls, trace) <==> forall i :: 0 <= i <= |calls| ==> Held(trace[i].shelf)))
  }

  lemma SessionKeeps(maximumFrames: nat, calls: seq<Call>, trace: seq<Component>)
    requires IsSession(maximumFrames, calls, trace)
    ensures SessionKept(maximumFrames, calls, trace)
  {
    forall i | 0 <= i < |calls|
      ensures NothingOverwritten(trace[i].shelf, trace[i + 1].shelf)
      ensures PublishesVerified(trace[i], calls[i], trace[i + 1])
      ensures VideosStay(trace[i].shelf, trace[i + 1].shelf) <==> !CallLosesVideo(trace[i], maximumFrames, calls[i])
    {
      CallKeeps(trace[i], maximumFrames, calls[i], trace[i + 1]);
      CallVerifies(trace[i], maximumFrames, calls[i], trace[i + 1]);
    }
    if AllOnRecord(trace[0]) {
      forall i | 0 <= i <= |calls| ensures AllOnRecord(trace[i]) { SessionRecords(maximumFrames, calls, trace, i); }
    }
    if Held(trace[0].shelf) { CustodyThroughout(maximumFrames, calls, trace); }
  }

  lemma CustodyThroughout(maximumFrames: nat, calls: seq<Call>, trace: seq<Component>)
    requires IsSession(maximumFrames, calls, trace) && Held(trace[0].shelf)
    ensures Careful(maximumFrames, calls, trace) <==> forall i :: 0 <= i <= |calls| ==> Held(trace[i].shelf)
  {
    if Careful(maximumFrames, calls, trace) {
      forall i | 0 <= i <= |calls| ensures Held(trace[i].shelf) {
        CarefulHolds(maximumFrames, calls, trace, i);
      }
    } else {
      var i :| 0 <= i < |calls| && CallLosesCustody(trace[i], maximumFrames, calls[i]);
      CallKeeps(trace[i], maximumFrames, calls[i], trace[i + 1]);
      assert !Held(trace[i].shelf) || !Held(trace[i + 1].shelf);
    }
  }
}
