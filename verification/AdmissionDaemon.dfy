/** The polling admission worker (t300_mainline/admission_daemon.py), with admit_gcode and the
    snapshot functions of t300_mainline/gcode_policy.py. Everything outside the daemon that can
    change under it is a function of time, so a theorem about all runs is one about all functions. */
module AdmissionDaemon {
  import opened Wrappers
  import opened GcodePolicy
  import opened GcodeReader
  import opened RejectionRecords

  type Path = string
  datatype File = File(content: seq<byte>, mtime: int, inode: int, regular: bool)
  datatype Fingerprint = Fingerprint(size: nat, mtime: int, inode: int)
  type Root = map<Path, File>

  /** An approval file is named by path and digest. */
  type Key = (Path, Digest)
  datatype Record = Record(path: Path, digest: Digest, size: nat, policySha: Digest, spoolFile: Digest)
  datatype Rejection = Rejected(digest: Digest) | PolicyError(path: Path, fingerprint: Fingerprint)
                     | Global(overflow: bool)

  datatype Admission = Failed | Denied(digest: Digest) | Approved(key: Key, record: Record)

  function FingerprintOf(f: File): Fingerprint { Fingerprint(|f.content|, f.mtime, f.inode) }

  /** lstat of a candidate: None when it is gone or not a regular file. */
  function Stat(root: Root, q: Path): Option<Fingerprint> {
    if q in root && root[q].regular then Some(FingerprintOf(root[q])) else None
  }

  const BLOCK: nat := 1048576

  /** read() of one block. */
  function BlockAt(content: seq<byte>, from: nat): seq<byte> {
    if |content| <= from then [] else content[from..if from + BLOCK < |content| then from + BLOCK else |content|]
  }

  /** A file with this inode, and the one at the path if that is still it. */
  predicate ShownAs(f: File, r: Root, q: Path, inode: int) {
    f.inode == inode && (q in r && r[q].regular && r[q].inode == inode ==> f == r[q])
  }

  /** Every byte of a copy is what the file held at that place at one of these moments. */
  predicate CopiedFrom(copy: seq<byte>, seen: seq<File>) {
    forall i :: 0 <= i < |copy| ==> exists f :: f in seen && i < |f.content| && f.content[i] == copy[i]
  }

  lemma CopyGrows(copied: seq<byte>, seen: seq<File>, now: File)
    requires CopiedFrom(copied, seen)
    ensures CopiedFrom(copied, seen + [now])
    ensures CopiedFrom(copied + BlockAt(now.content, |copied|), seen + [now])
  {
    var seen' := seen + [now];
    var copied' := copied + BlockAt(now.content, |copied|);
    assert now in seen' by { assert seen'[|seen|] == now; }
    forall i | 0 <= i < |copied'| ensures exists f :: f in seen' && i < |f.content| && f.content[i] == copied'[i] {
      if i < |copied| {
        var f :| f in seen && i < |f.content| && f.content[i] == copied[i];
        assert f in seen';
      } else {
        assert now.content[i] == copied'[i];
      }
    }
  }

  /** Two looks at a path agree exactly if they see a regular file with the same size, time stamp and
      inode, or neither sees a regular file. */
  lemma StatExactly(r: Root, r': Root, q: Path)
    ensures Stat(r, q).Some? <==> q in r && r[q].regular
    ensures Stat(r, q).Some? && Stat(r', q).Some? ==>
      (Stat(r, q) == Stat(r', q) <==>
        |r[q].content| == |r'[q].content| && r[q].mtime == r'[q].mtime && r[q].inode == r'[q].inode)
  {
  }

  function Get<K, V>(m: map<K, V>, k: K): Option<V> { if k in m then Some(m[k]) else None }

  /** The approvals of every path but q. */
  function Others(a: map<Key, Record>, q: Path): map<Key, Record> {
    map k | k in a && k.0 != q :: a[k]
  }

  /** What _revoke_relative leaves. */
  function Revoked(a: map<Key, Record>, q: Path, keep: Option<Key>): map<Key, Record> {
    map k | k in a && (k.0 != q || keep == Some(k)) :: a[k]
  }

  predicate References(a: map<Key, Record>, d: Digest) {
    exists k :: k in a && a[k].spoolFile == d
  }

  /** The daemon's whole memory. `basis` is what was scanned when a path was last marked
      processed (None if admission raised); `overflowed` says that some scan since the last
      restart found too many candidates; `dropped` are paths whose file changed while it was
      being admitted. */
  datatype Books = Books(
    observed: map<Path, Fingerprint>, processed: map<Path, Fingerprint>,
    approvals: map<Key, Record>, spool: map<Digest, seq<byte>>,
    basis: map<Path, Option<seq<byte>>>, overflowed: bool, dropped: set<Path>)

  /** Exactly the approval that scanning `content` from scratch would give. */
  ghost predicate Vouches(accepts: seq<byte> -> bool, a: map<Key, Record>, q: Path, content: Option<seq<byte>>) {
    forall d :: (q, d) in a <==> (content.Some? && accepts(content.value) && d == Sha256(content.value))
  }

  predicate RecordOf(rec: Record, q: Path, content: seq<byte>) {
    && rec.path == q && rec.digest == Sha256(content) == rec.spoolFile && rec.size == |content|
  }

  /** An approval never dangles: its snapshot exists, hashes to the recorded digest, and
      was accepted under the loaded policy. */
  ghost predicate ApprovalSound(accepts: seq<byte> -> bool, k: Books, key: Key) {
    key in k.approvals ==>
      && key.1 in k.spool && key.1 == Sha256(k.spool[key.1])
      && RecordOf(k.approvals[key], key.0, k.spool[key.1]) && accepts(k.spool[key.1])
  }

  ghost predicate SnapshotSound(k: Books, d: Digest) {
    d in k.spool ==> Sha256(k.spool[d]) == d
  }

  /** A path is processed at the fingerprint it was observed at, and, unless a scan overflowed,
      its approvals are what a scan of its basis would give. */
  ghost predicate CacheSound(accepts: seq<byte> -> bool, k: Books, q: Path) {
    q in k.processed ==>
      && Get(k.observed, q) == Some(k.processed[q]) && q in k.basis
      && (!k.overflowed ==> Vouches(accepts, k.approvals, q, k.basis[q]))
  }

  /** Every approved path is still watched, or changed under the scanner's hands. */
  ghost predicate Watched(k: Books, key: Key) {
    key in k.approvals ==> key.0 in k.observed || key.0 in k.dropped
  }

  ghost predicate Consistent(accepts: seq<byte> -> bool, k: Books) {
    && (forall key :: ApprovalSound(accepts, k, key))
    && (forall d :: SnapshotSound(k, d))
    && (forall q :: CacheSound(accepts, k, q))
    && (forall key :: Watched(k, key))
  }

  // The steps of the daemon, on values.

  function Withdrawn(k: Books, q: Path): Books {
    k.(approvals := Revoked(k.approvals, q, None), processed := k.processed - {q})
  }

  function Forgotten(k: Books, q: Path): Books {
    Withdrawn(k, q).(observed := k.observed - {q})
  }

  function Observed(k: Books, q: Path, f: Fingerprint): Books {
    k.(observed := k.observed[q := f], processed := k.processed - {q})
  }

  function Concluded(k: Books, q: Path, f: Fingerprint, keep: Option<Key>, scanned: Option<seq<byte>>): Books {
    k.(approvals := Revoked(k.approvals, q, keep), processed := k.processed[q := f], basis := k.basis[q := scanned])
  }

  function Spooled(k: Books, content: seq<byte>): Books {
    k.(spool := k.spool[Sha256(content) := content])
  }

  function ApprovedAs(k: Books, q: Path, content: seq<byte>, rec: Record): Books {
    Spooled(k, content).(approvals := k.approvals[(q, Sha256(content)) := rec])
  }

  function Dropped(k: Books, q: Path): Books {
    k.(observed := k.observed - {q}, dropped := k.dropped + {q})
  }

  function Pruned(k: Books): Books {
    k.(spool := map d | d in k.spool && References(k.approvals, d) :: k.spool[d])
  }

  lemma WithdrawKeeps(accepts: seq<byte> -> bool, k: Books, q: Path)
    requires Consistent(accepts, k)
    ensures Consistent(accepts, Withdrawn(k, q))
  {
    var k' := Withdrawn(k, q);
    forall key ensures ApprovalSound(accepts, k', key) && Watched(k', key) {
      assert ApprovalSound(accepts, k, key) && Watched(k, key);
    }
    forall d ensures SnapshotSound(k', d) { assert SnapshotSound(k, d); }
    forall q' ensures CacheSound(accepts, k', q') { assert CacheSound(accepts, k, q'); }
  }

  lemma ObserveKeeps(accepts: seq<byte> -> bool, k: Books, q: Path, f: Fingerprint)
    requires Consistent(accepts, k)
    ensures Consistent(accepts, Observed(k, q, f))
  {
    var k' := Observed(k, q, f);
    forall key ensures ApprovalSound(accepts, k', key) && Watched(k', key) {
      assert ApprovalSound(accepts, k, key) && Watched(k, key);
    }
    forall d ensures SnapshotSound(k', d) { assert SnapshotSound(k, d); }
    forall q' ensures CacheSound(accepts, k', q') { assert CacheSound(accepts, k, q'); }
  }

  lemma ConcludeKeeps(accepts: seq<byte> -> bool, k: Books, q: Path, f: Fingerprint,
                      keep: Option<Key>, scanned: Option<seq<byte>>)
    requires Consistent(accepts, k) && Get(k.observed, q) == Some(f)
    requires keep == if scanned.Some? && accepts(scanned.value) then Some((q, Sha256(scanned.value))) else None
    requires keep.Some? ==> keep.value in k.approvals
    ensures Consistent(accepts, Concluded(k, q, f, keep, scanned))
    ensures Vouches(accepts, Concluded(k, q, f, keep, scanned).approvals, q, scanned)
  {
    var k' := Concluded(k, q, f, keep, scanned);
    forall key ensures ApprovalSound(accepts, k', key) && Watched(k', key) {
      assert ApprovalSound(accepts, k, key) && Watched(k, key);
    }
    forall d ensures SnapshotSound(k', d) { assert SnapshotSound(k, d); }
    forall q' ensures CacheSound(accepts, k', q') { assert CacheSound(accepts, k, q'); }
  }

  lemma DropKeeps(accepts: seq<byte> -> bool, k: Books, q: Path)
    requires Consistent(accepts, k) && q !in k.processed
    ensures Consistent(accepts, Dropped(k, q))
  {
    var k' := Dropped(k, q);
    forall key ensures ApprovalSound(accepts, k', key) && Watched(k', key) {
      assert ApprovalSound(accepts, k, key) && Watched(k, key);
    }
    forall d ensures SnapshotSound(k', d) { assert SnapshotSound(k, d); }
    forall q' ensures CacheSound(accepts, k', q') { assert CacheSound(accepts, k, q'); }
  }

  lemma AdmitKeeps(accepts: seq<byte> -> bool, k: Books, q: Path, content: seq<byte>, rec: Record)
    requires Consistent(accepts, k) && accepts(content) && RecordOf(rec, q, content)
    requires q in k.observed && q !in k.processed
    ensures Consistent(accepts, ApprovedAs(k, q, content, rec))
  {
    var k' := ApprovedAs(k, q, content, rec);
    forall key ensures ApprovalSound(accepts, k', key) && Watched(k', key) {
      assert ApprovalSound(accepts, k, key) && Watched(k, key);
    }
    forall d ensures SnapshotSound(k', d) { assert SnapshotSound(k, d); }
    forall q' ensures CacheSound(accepts, k', q') { assert CacheSound(accepts, k, q'); }
  }

  lemma SpoolMayGrow(accepts: seq<byte> -> bool, k: Books, content: seq<byte>)
    requires Consistent(accepts, k)
    ensures Consistent(accepts, Spooled(k, content))
  {
    var k' := Spooled(k, content);
    forall key ensures ApprovalSound(accepts, k', key) && Watched(k', key) {
      assert ApprovalSound(accepts, k, key) && Watched(k, key);
    }
    forall d ensures SnapshotSound(k', d) { assert SnapshotSound(k, d); }
    forall q' ensures CacheSound(accepts, k', q') { assert CacheSound(accepts, k, q'); }
  }

  lemma PruneKeeps(accepts: seq<byte> -> bool, k: Books)
    requires Consistent(accepts, k)
    ensures Consistent(accepts, Pruned(k)) && SpoolExact(Pruned(k))
  {
    var k' := Pruned(k);
    forall key ensures ApprovalSound(accepts, k', key) && Watched(k', key) {
      assert ApprovalSound(accepts, k, key) && Watched(k, key);
    }
    forall d ensures SnapshotSound(k', d) { assert SnapshotSound(k, d); }
    forall q' ensures CacheSound(accepts, k', q') { assert CacheSound(accepts, k, q'); }
    PrunedExactly(accepts, k);
  }

  /** After pruning, the snapshots are exactly the approved ones. */
  lemma PrunedExactly(accepts: seq<byte> -> bool, k: Books)
    requires Consistent(accepts, k)
    ensures SpoolExact(Pruned(k))
  {
    ConsistentFiles(accepts, k);
    var k' := Pruned(k);
    forall d | d in k'.spool ensures exists key :: key in k.approvals && key.1 == d {
      var key :| key in k.approvals && k.approvals[key].spoolFile == d;
    }
  }

  /** Every record names the snapshot of its digest, which is there. */
  lemma ConsistentFiles(accepts: seq<byte> -> bool, k: Books)
    requires Consistent(accepts, k)
    ensures forall key :: key in k.approvals ==> k.approvals[key].spoolFile == key.1 && key.1 in k.spool
  {
    forall key | key in k.approvals ensures k.approvals[key].spoolFile == key.1 && key.1 in k.spool {
      assert ApprovalSound(accepts, k, key);
    }
  }

  /** Every record carries the path it is filed under. */
  predicate Named(a: map<Key, Record>) {
    forall key :: key in a ==> a[key].path == key.0
  }

  lemma ConsistentNames(accepts: seq<byte> -> bool, k: Books)
    requires Consistent(accepts, k)
    ensures Named(k.approvals)
  {
    forall key | key in k.approvals ensures k.approvals[key].path == key.0 {
      assert ApprovalSound(accepts, k, key);
    }
  }

  lemma ConsistentCache(accepts: seq<byte> -> bool, k: Books, q: Path)
    requires Consistent(accepts, k)
    ensures q in k.processed ==> Get(k.observed, q) == Some(k.processed[q])
  {
    assert CacheSound(accepts, k, q);
  }

  /** The spool holds exactly the snapshots that approvals name. */
  ghost predicate SpoolExact(k: Books) {
    forall d :: d in k.spool <==> exists key :: key in k.approvals && key.1 == d
  }

  /** An overflow scan revokes everything but still remembers what was processed. */
  function Overflowed(k: Books): Books {
    k.(approvals := map[], spool := map[], overflowed := true)
  }

  lemma OverflowKeeps(accepts: seq<byte> -> bool, k: Books)
    requires Consistent(accepts, k)
    ensures Consistent(accepts, Overflowed(k))
    ensures Pruned(Pruned(k).(approvals := map[], overflowed := true)) == Overflowed(k)
  {
    var k' := Overflowed(k);
    forall key ensures ApprovalSound(accepts, k', key) && Watched(k', key) {
      assert ApprovalSound(accepts, k, key) && Watched(k, key);
    }
    forall d ensures SnapshotSound(k', d) { assert SnapshotSound(k, d); }
    forall q' ensures CacheSound(accepts, k', q') { assert CacheSound(accepts, k, q'); }
  }

  // ------------------------------------------ one turn of the loop, on values

  ghost predicate SameAt(k: Books, k': Books, q: Path) {
    forall d :: Get(k'.approvals, (q, d)) == Get(k.approvals, (q, d))
  }

  /** Only path q was touched. */
  ghost predicate Only(q: Path, k: Books, k': Books) {
    && Others(k'.approvals, q) == Others(k.approvals, q)
    && k'.observed - {q} == k.observed - {q} && k'.processed - {q} == k.processed - {q}
    && k'.overflowed == k.overflowed && k.dropped <= k'.dropped <= k.dropped + {q}
  }

  /** q is judged in this scan: it looks as it did in the last scan and was not judged at that. */
  predicate Judged(r: Root, k: Books, q: Path) {
    var stat := Stat(r, q);
    stat.Some? && Get(k.observed, q) == stat && Get(k.processed, q) != stat
  }

  /** What one turn does to path q while the root is r and nothing outside changes: a file seen
      for the first time at this fingerprint waits; one seen twice is judged; one already
      judged is left alone. */
  ghost predicate Settled(accepts: seq<byte> -> bool, r: Root, q: Path, k: Books, k': Books) {
    match Stat(r, q)
    case None =>
      Get(k'.observed, q) == Get(k.observed, q) && q !in k'.processed && forall d :: (q, d) !in k'.approvals
    case Some(f) =>
      && Get(k'.observed, q) == Some(f)
      && if Judged(r, k, q) then
           Get(k'.processed, q) == Some(f) && Vouches(accepts, k'.approvals, q, Some(r[q].content))
         else
           SameAt(k, k', q) && Get(k'.processed, q) == if Get(k.observed, q) == Some(f) then Some(f) else None
  }

  predicate Counted(accepts: seq<byte> -> bool, r: Root, q: Path, k: Books, admitted: nat, rejected: nat) {
    && admitted == (if Judged(r, k, q) && accepts(r[q].content) then 1 else 0)
    && rejected == (if Judged(r, k, q) && !accepts(r[q].content) then 1 else 0)
  }

  ghost predicate Done(accepts: seq<byte> -> bool, r: Root, q: Path, k: Books, k': Books,
                       admitted: nat, rejected: nat)
  {
    k'.dropped == k.dropped && Settled(accepts, r, q, k, k') && Counted(accepts, r, q, k, admitted, rejected)
  }

  lemma OnlyOthersSame(q: Path, k: Books, k': Books, q': Path)
    requires Only(q, k, k') && q' != q
    ensures Get(k'.observed, q') == Get(k.observed, q') && Get(k'.processed, q') == Get(k.processed, q')
    ensures SameAt(k, k', q')
  {
    assert Get(k'.observed - {q}, q') == Get(k.observed - {q}, q');
    assert Get(k'.processed - {q}, q') == Get(k.processed - {q}, q');
    forall d ensures Get(k'.approvals, (q', d)) == Get(k.approvals, (q', d)) {
      assert Get(Others(k'.approvals, q), (q', d)) == Get(Others(k.approvals, q), (q', d));
    }
  }

  lemma WithdrawTurn(accepts: seq<byte> -> bool, r: Root, k: Books, q: Path)
    requires Consistent(accepts, k)
    ensures Consistent(accepts, Withdrawn(k, q)) && Only(q, k, Withdrawn(k, q))
    ensures Stat(r, q).None? ==> Done(accepts, r, q, k, Withdrawn(k, q), 0, 0)
  {
    WithdrawKeeps(accepts, k, q);
  }

  lemma ObserveTurn(accepts: seq<byte> -> bool, r: Root, k: Books, q: Path, f: Fingerprint)
    requires Consistent(accepts, k) && Get(k.observed, q) != Some(f)
    ensures Consistent(accepts, Observed(k, q, f)) && Only(q, k, Observed(k, q, f))
    ensures Stat(r, q) == Some(f) ==> Done(accepts, r, q, k, Observed(k, q, f), 0, 0)
  {
    ObserveKeeps(accepts, k, q, f);
  }

  /** The books after admit_gcode: perhaps a new approval of q, perhaps a new snapshot. */
  predicate Admitted(k: Books, k': Books, q: Path, keep: Option<Key>) {
    && k' == k.(approvals := k'.approvals, spool := k'.spool)
    && (keep.None? ==> k'.approvals == k.approvals)
    && (keep.Some? ==> keep.value.0 == q && keep.value in k'.approvals
                       && k'.approvals == k.approvals[keep.value := k'.approvals[keep.value]])
  }

  /** A file that changed under the scanner's hands is forgotten, and keeps the approvals it has. */
  ghost predicate JudgedInVain(q: Path, k: Books, k': Books, r: Admission) {
    && q !in k'.observed && q in k'.dropped && Get(k'.processed, q) == Get(k.processed, q)
    && (forall d :: (q, d) in k.approvals ==> (q, d) in k'.approvals)
    && (r.Approved? ==> Get(k'.approvals, r.key) == Some(r.record))
  }

  /** Any other has been judged at this fingerprint, and has the approval just written, or none. */
  ghost predicate JudgedWell(q: Path, f: Fingerprint, k': Books, r: Admission) {
    && Get(k'.observed, q) == Some(f) == Get(k'.processed, q)
    && (forall d :: (q, d) in k'.approvals <==> r.Approved? && (q, d) == r.key)
    && (r.Approved? ==> Get(k'.approvals, r.key) == Some(r.record))
  }

  function KeyOf(r: Admission): Option<Key> { if r.Approved? then Some(r.key) else None }

  lemma DroppedInVain(k: Books, k': Books, q: Path, r: Admission)
    requires Admitted(k, k', q, KeyOf(r)) && (r.Approved? ==> Get(k'.approvals, r.key) == Some(r.record))
    ensures JudgedInVain(q, k, Dropped(k', q), r)
  {
  }

  lemma ConcludedWell(k: Books, k': Books, q: Path, f: Fingerprint, r: Admission, scanned: Option<seq<byte>>)
    requires Admitted(k, k', q, KeyOf(r)) && (r.Approved? ==> Get(k'.approvals, r.key) == Some(r.record))
    requires Get(k.observed, q) == Some(f)
    ensures JudgedWell(q, f, Concluded(k', q, f, KeyOf(r), scanned), r)
  {
  }

  lemma DropTurn(accepts: seq<byte> -> bool, k: Books, k': Books, q: Path, keep: Option<Key>)
    requires Consistent(accepts, k') && q !in k'.processed && Admitted(k, k', q, keep)
    ensures Consistent(accepts, Dropped(k', q)) && Only(q, k, Dropped(k', q))
  {
    DropKeeps(accepts, k', q);
  }

  lemma ConcludeTurn(accepts: seq<byte> -> bool, r: Root, k: Books, k': Books, q: Path, f: Fingerprint,
                     keep: Option<Key>, scanned: Option<seq<byte>>)
    requires Consistent(accepts, k') && Admitted(k, k', q, keep)
    requires Get(k.observed, q) == Some(f) && q !in k.processed
    requires keep == if scanned.Some? && accepts(scanned.value) then Some((q, Sha256(scanned.value))) else None
    ensures
      var k'' := Concluded(k', q, f, keep, scanned);
      && Consistent(accepts, k'') && Only(q, k, k'')
      && (Stat(r, q) == Some(f) && (scanned == Some(r[q].content) || (scanned.None? && !accepts(r[q].content))) ==>
            var n := if keep.Some? then 1 else 0;
            Done(accepts, r, q, k, k'', n, 1 - n))
  {
    ConcludeKeeps(accepts, k', q, f, keep, scanned);
  }

  /** The observed paths that are no longer candidates are forgotten, approvals included. */
  function Unwatched(k: Books, current: set<Path>): Books {
    k.(observed := map q | q in k.observed && q in current :: k.observed[q],
       processed := map q | q in k.processed && (q in current || q !in k.observed) :: k.processed[q],
       approvals := map key | key in k.approvals && (key.0 in current || key.0 !in k.observed) :: k.approvals[key])
  }

  lemma UnwatchOne(k: Books, kept: set<Path>, q: Path)
    requires q in kept && q in k.observed
    ensures Unwatched(k, kept - {q}) == Forgotten(Unwatched(k, kept), q)
  {
    var a, b := Unwatched(k, kept - {q}), Forgotten(Unwatched(k, kept), q);
    assert a.observed == b.observed;
    assert a.processed == b.processed;
    assert a.approvals == b.approvals;
  }

  lemma UnwatchKeeps(accepts: seq<byte> -> bool, k: Books, current: set<Path>)
    requires Consistent(accepts, k)
    ensures Consistent(accepts, Unwatched(k, current))
  {
    var k' := Unwatched(k, current);
    forall key ensures ApprovalSound(accepts, k', key) && Watched(k', key) {
      assert ApprovalSound(accepts, k, key) && Watched(k, key);
    }
    forall d ensures SnapshotSound(k', d) { assert SnapshotSound(k, d); }
    forall q' ensures CacheSound(accepts, k', q') { assert CacheSound(accepts, k, q'); }
  }

  // ------------------------------------------------------ one scan, on values

  ghost predicate Unchanged(k: Books, k': Books, q: Path) {
    && Get(k'.observed, q) == Get(k.observed, q) && Get(k'.processed, q) == Get(k.processed, q)
    && SameAt(k, k', q)
  }

  /** The loop has had its turn with every candidate outside `todo`, and only with those. */
  ghost predicate Partial(accepts: seq<byte> -> bool, r: Root, k: Books, k': Books, todo: set<Path>) {
    && k'.dropped == k.dropped && k'.overflowed == k.overflowed
    && (forall q :: q in r.Keys - todo ==> Settled(accepts, r, q, k, k'))
    && (forall q :: q !in r.Keys - todo ==> Unchanged(k, k', q))
  }

  lemma SettledFrom(accepts: seq<byte> -> bool, r: Root, q: Path, k0: Books, k: Books, k': Books, k'': Books)
    requires Unchanged(k0, k, q) && Settled(accepts, r, q, k, k') && Unchanged(k', k'', q)
    ensures Settled(accepts, r, q, k0, k'')
  {
    if Stat(r, q).Some? && Judged(r, k0, q) {
      forall d ensures (q, d) in k''.approvals <==> (q, d) in k'.approvals {
        assert Get(k''.approvals, (q, d)) == Get(k'.approvals, (q, d));
      }
    } else if Stat(r, q).Some? {
      forall d ensures Get(k''.approvals, (q, d)) == Get(k0.approvals, (q, d)) {
        assert Get(k''.approvals, (q, d)) == Get(k'.approvals, (q, d)) == Get(k.approvals, (q, d));
      }
    } else {
      forall d ensures (q, d) !in k''.approvals {
        assert Get(k''.approvals, (q, d)) == Get(k'.approvals, (q, d));
      }
    }
  }

  lemma PartialStep(accepts: seq<byte> -> bool, r: Root, k0: Books, k: Books, k': Books,
                    todo: set<Path>, q: Path, admitted: nat, rejected: nat)
    requires Partial(accepts, r, k0, k, todo) && q in todo && q in r
    requires Only(q, k, k') && Done(accepts, r, q, k, k', admitted, rejected)
    ensures Partial(accepts, r, k0, k', todo - {q})
    ensures Counted(accepts, r, q, k0, admitted, rejected)
  {
    assert Unchanged(k0, k, q);
    SettledFrom(accepts, r, q, k0, k, k', k');
    forall q' | q' != q ensures Unchanged(k, k', q') {
      OnlyOthersSame(q, k, k', q');
    }
    forall q' | q' in r.Keys - todo ensures Settled(accepts, r, q', k0, k') {
      SettledFrom(accepts, r, q', k0, k0, k, k');
    }
    forall q' | q' !in r.Keys - (todo - {q}) ensures Unchanged(k0, k', q') {
      assert Unchanged(k0, k, q') && Unchanged(k, k', q');
    }
  }

  /** The paths of `among` that this scan admits (or rejects). */
  ghost function Verdicts(accepts: seq<byte> -> bool, r: Root, k: Books, among: set<Path>, verdict: bool): set<Path> {
    set q | q in among && q in r && Judged(r, k, q) && accepts(r[q].content) == verdict
  }

  ghost predicate Scanning(accepts: seq<byte> -> bool, r: Root, k: Books, k': Books, todo: set<Path>,
                           admitted: nat, rejected: nat)
  {
    && Partial(accepts, r, k, k', todo)
    && admitted == |Verdicts(accepts, r, k, r.Keys - todo, true)|
    && rejected == |Verdicts(accepts, r, k, r.Keys - todo, false)|
  }

  lemma VerdictsStep(accepts: seq<byte> -> bool, r: Root, k: Books, todo: set<Path>, q: Path, verdict: bool)
    requires q in todo && q in r
    ensures
      var before := Verdicts(accepts, r, k, r.Keys - todo, verdict);
      var after := Verdicts(accepts, r, k, r.Keys - (todo - {q}), verdict);
      |after| == |before| + if Judged(r, k, q) && accepts(r[q].content) == verdict then 1 else 0
  {
    var before := Verdicts(accepts, r, k, r.Keys - todo, verdict);
    var after := Verdicts(accepts, r, k, r.Keys - (todo - {q}), verdict);
    if Judged(r, k, q) && accepts(r[q].content) == verdict {
      assert after == before + {q} && q !in before;
    } else {
      assert after == before;
    }
  }

  lemma ScanningStarts(accepts: seq<byte> -> bool, r: Root, k: Books)
    ensures Scanning(accepts, r, k, k, r.Keys, 0, 0)
  {
    assert r.Keys - r.Keys == {};
    assert Verdicts(accepts, r, k, {}, true) == {} == Verdicts(accepts, r, k, {}, false);
  }

  lemma ScanningStep(accepts: seq<byte> -> bool, r: Root, k0: Books, k: Books, k': Books,
                     todo: set<Path>, q: Path, a0: nat, j0: nat, a: nat, j: nat)
    requires Scanning(accepts, r, k0, k, todo, a0, j0) && q in todo && q in r
    requires Only(q, k, k') && Done(accepts, r, q, k, k', a, j)
    ensures Scanning(accepts, r, k0, k', todo - {q}, a0 + a, j0 + j)
  {
    PartialStep(accepts, r, k0, k, k', todo, q, a, j);
    VerdictsStep(accepts, r, k0, todo, q, true);
    VerdictsStep(accepts, r, k0, todo, q, false);
  }

  /** One whole scan of a root that nobody touches. */
  ghost predicate QuietScan(accepts: seq<byte> -> bool, r: Root, k: Books, k': Books, admitted: nat, rejected: nat) {
    && k'.dropped == k.dropped && k'.overflowed == k.overflowed
    && (forall q :: q in r ==> Settled(accepts, r, q, k, k'))
    && (forall q :: q !in r ==> Gone(q, k, k'))
    && admitted == |Verdicts(accepts, r, k, r.Keys, true)|
    && rejected == |Verdicts(accepts, r, k, r.Keys, false)|
  }

  /** A path that is no longer a candidate: forgotten if it was watched. */
  ghost predicate Gone(q: Path, k: Books, k': Books) {
    && q !in k'.observed
    && (q in k'.processed ==> q in k.processed && q !in k.observed)
    && forall d :: Get(k'.approvals, (q, d)) == if q in k.observed then None else Get(k.approvals, (q, d))
  }

  lemma GoneFrom(r: Root, k: Books, k1: Books, k2: Books, q: Path)
    requires q !in r && k1 == Unwatched(Pruned(k), r.Keys) && Unchanged(k1, k2, q)
    ensures Gone(q, k, Pruned(k2))
  {
    forall d ensures Get(k2.approvals, (q, d)) == if q in k.observed then None else Get(k.approvals, (q, d)) {
      assert Get(k2.approvals, (q, d)) == Get(k1.approvals, (q, d));
    }
  }

  lemma QuietScanComposes(accepts: seq<byte> -> bool, r: Root, k: Books, k1: Books, k2: Books, k': Books,
                          admitted: nat, rejected: nat)
    requires k1 == Unwatched(Pruned(k), r.Keys) && k' == Pruned(k2)
    requires Scanning(accepts, r, k1, k2, {}, admitted, rejected)
    ensures QuietScan(accepts, r, k, k', admitted, rejected)
  {
    assert r.Keys - {} == r.Keys;
    forall q | q in r ensures Settled(accepts, r, q, k, k') {
      SettledAcross(accepts, r, k, k1, k2, q);
    }
    forall q | q !in r ensures Gone(q, k, k') {
      GoneFrom(r, k, k1, k2, q);
    }
    forall verdict ensures Verdicts(accepts, r, k, r.Keys, verdict) == Verdicts(accepts, r, k1, r.Keys, verdict) {
      VerdictsAcross(accepts, r, k, k1, verdict);
    }
  }

  lemma SettledAcross(accepts: seq<byte> -> bool, r: Root, k: Books, k1: Books, k2: Books, q: Path)
    requires q in r && k1 == Unwatched(Pruned(k), r.Keys) && Settled(accepts, r, q, k1, k2)
    ensures Settled(accepts, r, q, k, Pruned(k2))
  {
    assert Unchanged(k, k1, q);
    SettledFrom(accepts, r, q, k, k1, k2, Pruned(k2));
  }

  lemma VerdictsAcross(accepts: seq<byte> -> bool, r: Root, k: Books, k1: Books, verdict: bool)
    requires k1 == Unwatched(Pruned(k), r.Keys)
    ensures Verdicts(accepts, r, k, r.Keys, verdict) == Verdicts(accepts, r, k1, r.Keys, verdict)
  {
  }

  // --------------------------------------------------- agreement with the root

  /** The approvals are exactly the pairs (path, digest) of candidates the scanner accepts. */
  ghost predicate ApprovalsExact(accepts: seq<byte> -> bool, r: Root, k: Books) {
    forall q, d :: (q, d) in k.approvals <==>
      Stat(r, q).Some? && accepts(r[q].content) && d == Sha256(r[q].content)
  }

  /** ... and the daemon knows that every candidate has been judged as it is. */
  ghost predicate UpToDate(r: Root, k: Books) {
    forall q ::
      && Get(k.processed, q) == Stat(r, q)
      && (Stat(r, q).Some? ==> Get(k.observed, q) == Stat(r, q))
      && (q !in r ==> q !in k.observed)
  }

  /** Seen once, judged never. */
  ghost predicate Waiting(r: Root, k: Books) {
    && k.processed == map[] && k.approvals == map[]
    && forall q :: (Stat(r, q).Some? ==> Get(k.observed, q) == Stat(r, q)) && (q !in r ==> q !in k.observed)
  }

  lemma FirstScan(accepts: seq<byte> -> bool, r: Root, k: Books, k': Books, a: nat, j: nat)
    requires k.observed == map[] && k.processed == map[] && k.approvals == map[]
    requires QuietScan(accepts, r, k, k', a, j)
    ensures Waiting(r, k')
  {
    forall q ensures q !in k'.processed {
      if q !in r { assert Gone(q, k, k'); }
    }
    forall key: Key ensures key !in k'.approvals {
      var (q, d) := key;
      if q !in r { assert Gone(q, k, k'); }
      assert (q, d) in k'.approvals ==> Get(k'.approvals, (q, d)) == Get(k.approvals, (q, d));
    }
    forall q | q !in r ensures q !in k'.observed { assert Gone(q, k, k'); }
  }

  lemma SecondScan(accepts: seq<byte> -> bool, r: Root, k: Books, k': Books, a: nat, j: nat)
    requires Waiting(r, k) && QuietScan(accepts, r, k, k', a, j)
    ensures UpToDate(r, k') && ApprovalsExact(accepts, r, k')
  {
    forall q | q !in r ensures q !in k'.observed && q !in k'.processed && forall d :: (q, d) !in k'.approvals {
      assert Gone(q, k, k');
      forall d ensures (q, d) !in k'.approvals { assert Get(k'.approvals, (q, d)) == None; }
    }
  }

  /** From then on nothing is judged and nothing moves. */
  lemma LaterScan(accepts: seq<byte> -> bool, r: Root, k: Books, k': Books, a: nat, j: nat)
    requires UpToDate(r, k) && QuietScan(accepts, r, k, k', a, j)
    requires forall key :: key in k.approvals ==> Stat(r, key.0).Some?
    ensures a == 0 && j == 0 && k'.approvals == k.approvals && UpToDate(r, k')
    ensures k'.processed == k.processed
  {
    assert forall q :: !Judged(r, k, q);
    assert Verdicts(accepts, r, k, r.Keys, true) == {} == Verdicts(accepts, r, k, r.Keys, false);
    forall q | q !in r ensures q !in k'.observed && q !in k'.processed { assert Gone(q, k, k'); }
    forall q, d ensures Get(k'.approvals, (q, d)) == Get(k.approvals, (q, d)) {
      if q in r && Stat(r, q).Some? {
        assert SameAt(k, k', q);
      } else if q in r {
        assert (q, d) !in k'.approvals;
      } else {
        assert Gone(q, k, k');
      }
    }
    assert forall key: Key :: key == (key.0, key.1);
    forall key: Key ensures Get(k'.approvals, key) == Get(k.approvals, key) {
      assert Get(k'.approvals, (key.0, key.1)) == Get(k.approvals, (key.0, key.1));
    }
    MapsEqual(k'.approvals, k.approvals);
    forall q ensures Get(k'.processed, q) == Get(k.processed, q) {}
    MapsEqual(k'.processed, k.processed);
  }

  /** After an overflow scan of an up-to-date daemon the root comes back as it was: nothing is
      judged again, so the approvals are right exactly when there was nothing to approve. */
  lemma RootComesBack(accepts: seq<byte> -> bool, r: Root, k: Books, k': Books, a: nat, j: nat)
    requires UpToDate(r, k) && QuietScan(accepts, r, Overflowed(k), k', a, j)
    ensures a == 0 && j == 0 && k'.approvals == map[] && UpToDate(r, k')
    ensures ApprovalsExact(accepts, r, k') <==> forall q :: q in r && r[q].regular ==> !accepts(r[q].content)
  {
    LaterScan(accepts, r, Overflowed(k), k', a, j);
    if ApprovalsExact(accepts, r, k') {
      forall q | q in r && r[q].regular ensures !accepts(r[q].content) {
        assert (q, Sha256(r[q].content)) !in k'.approvals;
      }
    }
  }

  /** The cache says that q was judged as it is now. */
  predicate Remembered(r: Root, k: Books, q: Path) {
    var stat := Stat(r, q);
    stat.Some? && Get(k.observed, q) == stat && Get(k.processed, q) == stat
  }

  /** What two quiet scans do for one path: keep what was remembered, and judge the rest. */
  lemma TwoScansSettle(accepts: seq<byte> -> bool, r: Root, k: Books, k1: Books, k2: Books,
                       a: nat, j: nat, a': nat, j': nat, q: Path)
    requires QuietScan(accepts, r, k, k1, a, j) && QuietScan(accepts, r, k1, k2, a', j')
    ensures q in r && Remembered(r, k, q) ==> SameAt(k, k2, q)
    ensures q in r && !Remembered(r, k, q) ==>
      Vouches(accepts, k2.approvals, q, if Stat(r, q).Some? then Some(r[q].content) else None)
    ensures q !in r ==> forall d ::
      Get(k2.approvals, (q, d)) == if q in k.observed then None else Get(k.approvals, (q, d))
  {
    if q in r {
      assert Settled(accepts, r, q, k, k1) && Settled(accepts, r, q, k1, k2);
      forall d ensures SameAt(k, k1, q) && SameAt(k1, k2, q) ==>
          Get(k2.approvals, (q, d)) == Get(k.approvals, (q, d))
      {
        if SameAt(k, k1, q) && SameAt(k1, k2, q) {
          assert Get(k2.approvals, (q, d)) == Get(k1.approvals, (q, d)) == Get(k.approvals, (q, d));
        }
      }
      forall d ensures SameAt(k1, k2, q) ==> ((q, d) in k2.approvals <==> (q, d) in k1.approvals) {
        if SameAt(k1, k2, q) { assert Get(k2.approvals, (q, d)) == Get(k1.approvals, (q, d)); }
      }
    } else {
      assert Gone(q, k, k1) && Gone(q, k1, k2);
      forall d ensures Get(k2.approvals, (q, d)) == if q in k.observed then None else Get(k.approvals, (q, d)) {
        assert Get(k2.approvals, (q, d)) == Get(k1.approvals, (q, d));
      }
    }
  }

  /** From any books, two quiet scans bring the approvals into agreement with the root exactly if what
      the cache remembers was right, and nobody holds an approval for a path that is neither a
      candidate nor watched. */
  lemma TwoScans(accepts: seq<byte> -> bool, r: Root, k: Books, k1: Books, k2: Books,
                 a: nat, j: nat, a': nat, j': nat)
    requires QuietScan(accepts, r, k, k1, a, j) && QuietScan(accepts, r, k1, k2, a', j')
    ensures ApprovalsExact(accepts, r, k2) <==>
      && (forall q :: Remembered(r, k, q) ==> Vouches(accepts, k.approvals, q, Some(r[q].content)))
      && (forall q, d :: q !in r && q !in k.observed ==> (q, d) !in k.approvals)
  {
    forall q ensures ExactAt(accepts, r, k2, q) <==>
      if q !in r then q in k.observed || forall d :: (q, d) !in k.approvals
      else Remembered(r, k, q) ==> Vouches(accepts, k.approvals, q, Some(r[q].content))
    {
      TwoScansSettle(accepts, r, k, k1, k2, a, j, a', j', q);
      TwoScansAt(accepts, r, k, k2, q);
    }
    assert ApprovalsExact(accepts, r, k2) <==> forall q :: ExactAt(accepts, r, k2, q);
  }

  ghost predicate ExactAt(accepts: seq<byte> -> bool, r: Root, k: Books, q: Path) {
    forall d :: (q, d) in k.approvals <==> Stat(r, q).Some? && accepts(r[q].content) && d == Sha256(r[q].content)
  }

  lemma TwoScansAt(accepts: seq<byte> -> bool, r: Root, k: Books, k2: Books, q: Path)
    requires q in r && Remembered(r, k, q) ==> SameAt(k, k2, q)
    requires q in r && !Remembered(r, k, q) ==>
      Vouches(accepts, k2.approvals, q, if Stat(r, q).Some? then Some(r[q].content) else None)
    requires q !in r ==> forall d ::
      Get(k2.approvals, (q, d)) == if q in k.observed then None else Get(k.approvals, (q, d))
    ensures ExactAt(accepts, r, k2, q) <==>
      if q !in r then q in k.observed || forall d :: (q, d) !in k.approvals
      else Remembered(r, k, q) ==> Vouches(accepts, k.approvals, q, Some(r[q].content))
  {
    forall d ensures q in r && Remembered(r, k, q) ==> ((q, d) in k2.approvals <==> (q, d) in k.approvals) {
      if q in r && Remembered(r, k, q) { assert Get(k2.approvals, (q, d)) == Get(k.approvals, (q, d)); }
    }
    forall d ensures q !in r ==> ((q, d) in k2.approvals <==> q !in k.observed && (q, d) in k.approvals) {
      if q !in r {
        assert Get(k2.approvals, (q, d)) == if q in k.observed then None else Get(k.approvals, (q, d));
      }
    }
  }

  /** After an overflow scan, whatever the books and the root were, two quiet scans make the approvals
      right exactly if no acceptable candidate is already processed at its present fingerprint. */
  lemma AfterOverflow(accepts: seq<byte> -> bool, r: Root, k: Books, k1: Books, k2: Books,
                      a: nat, j: nat, a': nat, j': nat)
    requires Consistent(accepts, k)
    requires QuietScan(accepts, r, Overflowed(k), k1, a, j) && QuietScan(accepts, r, k1, k2, a', j')
    ensures ApprovalsExact(accepts, r, k2) <==>
      forall q :: Stat(r, q).Some? && Get(k.processed, q) == Stat(r, q) ==> !accepts(r[q].content)
  {
    TwoScans(accepts, r, Overflowed(k), k1, k2, a, j, a', j');
    forall q ensures Get(k.processed, q).Some? ==> Get(k.observed, q) == Get(k.processed, q) {
      ConsistentCache(accepts, k, q);
    }
    var none: map<Key, Record> := map[];
    forall q | Stat(r, q).Some? ensures Vouches(accepts, none, q, Some(r[q].content)) <==> !accepts(r[q].content) {
      assert (q, Sha256(r[q].content)) !in none;
    }
  }

  lemma MapsEqual<K, V>(m: map<K, V>, n: map<K, V>)
    requires forall k :: Get(m, k) == Get(n, k)
    ensures m == n
  {
    forall k ensures k in m <==> k in n { assert Get(m, k) == Get(n, k); }
    forall k | k in m ensures m[k] == n[k] { assert Get(m, k) == Get(n, k); }
  }

  class AdmissionDaemon {
    // The outside world, as functions of time.
    const root: nat -> Root
    const policyFile: nat -> seq<byte>
    const storageOk: nat -> bool       // spool ceiling and free-space reserve at admission
    const ioOk: nat -> bool            // every other file operation of an admission
    const parse: Parser
    const wall: nat -> int                    // the time stamp a file written now gets
    const recordName: Rejection -> string     // the digest that names a rejection record
    // Fixed at construction.
    const policy: Policy
    const policySha: Digest
    const accepts: seq<byte> -> bool
    const maxCandidates: nat
    const maxRejections: nat

    var clock: nat
    var observed: map<Path, Fingerprint>
    var processed: map<Path, Fingerprint>
    var approvals: map<Key, Record>
    var spool: map<Digest, seq<byte>>
    var rejections: Records

    ghost var basis: map<Path, Option<seq<byte>>>
    ghost var overflowed: bool
    ghost var dropped: set<Path>

    /** The digest is taken first and the policy loaded after it, in two reads of the file. `load` is
        GCodePolicy.from_json, which raises unless the policy is valid. */
    constructor (root: nat -> Root, policyFile: nat -> seq<byte>, storageOk: nat -> bool, ioOk: nat -> bool,
                 parse: Parser, wall: nat -> int, recordName: Rejection -> string,
                 load: seq<byte> -> Policy, maxCandidates: nat, maxRejections: nat,
                 approvals: map<Key, Record>, spool: map<Digest, seq<byte>>, rejections: Records)
      requires load(policyFile(1)).Validate()
      ensures this.root == root && this.policyFile == policyFile && this.storageOk == storageOk
      ensures this.ioOk == ioOk && this.parse == parse && this.wall == wall && this.recordName == recordName
      ensures this.maxCandidates == maxCandidates && this.maxRejections == maxRejections
      ensures policySha == Sha256(policyFile(0)) && policy == load(policyFile(1)) && clock == 2
      // the loaded policy is the one whose digest every scan compares, if the file rested between the reads
      ensures policyFile(1) == policyFile(0) ==> forall content ::
        Sha256(content) == policySha ==> policy == load(content)
      ensures this.approvals == approvals && this.spool == spool && this.rejections == rejections && Configured()
      ensures observed == map[] && processed == map[]
    {
      this.root, this.policyFile, this.storageOk, this.ioOk := root, policyFile, storageOk, ioOk;
      var loaded := load(policyFile(1));
      this.parse, this.policy, this.policySha := parse, loaded, Sha256(policyFile(0));
      accepts := c => Admissible(loaded, parse, c);
      this.maxCandidates, this.maxRejections := maxCandidates, maxRejections;
      this.wall, this.recordName, this.rejections := wall, recordName, rejections;
      clock, observed, processed := 2, map[], map[];
      this.approvals, this.spool := approvals, spool;
      basis, overflowed, dropped := map[], false, {};
    }

    /** `accepts` is the scanner's verdict under the loaded policy. */
    ghost predicate Configured() {
      && policy.Validate()
      && forall c {:trigger Admissible(policy, parse, c)} :: accepts(c) == Admissible(policy, parse, c)
    }

    ghost function Now(): Books reads this {
      Books(observed, processed, approvals, spool, basis, overflowed, dropped)
    }

    ghost predicate Valid() reads this {
      Configured() && Consistent(accepts, Now())
    }

    /** Nothing outside changes from time t on, and nothing outside fails. */
    ghost predicate Quiet(t: nat) {
      && (forall u: nat :: t <= u ==> root(u) == root(t))
      && (forall u: nat :: t <= u ==> Sha256(policyFile(u)) == policySha)
      && (forall u: nat :: t <= u ==> storageOk(u))
      && (forall u: nat :: t <= u ==> ioOk(u))
      && |root(t)| <= maxCandidates
    }

    /** The record names the policy file as it was at one of these moments. */
    ghost predicate NamedBetween(rec: Record, from: nat, to: nat) {
      exists u: nat :: from <= u < to && rec.policySha == Sha256(policyFile(u))
    }

    /** Every record is an old one, or was written at one of these moments under the policy file's
        digest of that moment. */
    ghost predicate WrittenBetween(before: map<Key, Record>, after: map<Key, Record>, from: nat, to: nat) {
      forall key :: key in after ==> Get(before, key) == Some(after[key]) || NamedBetween(after[key], from, to)
    }

    lemma WrittenTrans(a: map<Key, Record>, b: map<Key, Record>, c: map<Key, Record>, t0: nat, t1: nat, t2: nat)
      requires t0 <= t1 <= t2 && WrittenBetween(a, b, t0, t1) && WrittenBetween(b, c, t1, t2)
      ensures WrittenBetween(a, c, t0, t2)
    {
      forall key | key in c ensures Get(a, key) == Some(c[key]) || NamedBetween(c[key], t0, t2) {
        if Get(b, key) == Some(c[key]) { assert Get(a, key) == Some(b[key]) || NamedBetween(b[key], t0, t1); }
      }
    }

    lemma StillWritten(a: map<Key, Record>, b: map<Key, Record>, c: map<Key, Record>, t0: nat, t1: nat, t2: nat)
      requires t1 <= t2 && WrittenBetween(a, b, t0, t1)
      requires forall key :: key in c ==> Get(b, key) == Some(c[key])
      ensures WrittenBetween(a, c, t0, t2)
    {
    }

    /** Every record names the policy that the daemon has loaded. */
    ghost predicate AllNamePolicy() reads this {
      forall key :: key in approvals ==> approvals[key].policySha == policySha
    }

    lemma QuietlyNamed(before: map<Key, Record>, after: map<Key, Record>, from: nat, to: nat)
      requires Quiet(from) && WrittenBetween(before, after, from, to)
      requires forall key :: key in before ==> before[key].policySha == policySha
      ensures forall key :: key in after ==> after[key].policySha == policySha
    {
    }

    // ------------------------------------------------- small directory steps

    method RevokeAll()
      modifies this`approvals
      ensures approvals == map[]
    {
      var todo := approvals.Keys;
      while todo != {}
        invariant todo == approvals.Keys
        decreases todo
      {
        var k :| k in todo;
        approvals, todo := approvals - {k}, todo - {k};
      }
    }

    /** _revoke_relative looks at the path written inside each record. */
    method RevokeRelative(q: Path, keep: Option<Key>)
      requires Named(approvals)
      modifies this`approvals
      ensures approvals == Revoked(old(approvals), q, keep)
    {
      var todo := approvals.Keys;
      ghost var all := approvals;
      while todo != {}
        invariant todo <= all.Keys
        invariant forall k :: k in approvals <==> k in all && (k in todo || k.0 != q || keep == Some(k))
        invariant forall k :: k in approvals ==> approvals[k] == all[k]
        decreases todo
      {
        var k :| k in todo;
        todo := todo - {k};
        if keep != Some(k) && approvals[k].path == q {
          approvals := approvals - {k};
        }
      }
    }

    /** Removes exactly the snapshots no approval names. */
    method PruneUnreferencedSpool()
      modifies this`spool
      ensures Now() == Pruned(old(Now()))
    {
      var referenced: set<Digest> := {};
      var records := approvals.Keys;
      while records != {}
        invariant records <= approvals.Keys
        invariant forall d :: d in referenced <==>
          exists k :: k in approvals && k !in records && approvals[k].spoolFile == d
        decreases records
      {
        var k :| k in records;
        records := records - {k};
        referenced := referenced + {approvals[k].spoolFile};
      }
      ghost var all := spool;
      var files := spool.Keys;
      while files != {}
        invariant files <= all.Keys
        invariant forall d :: d in spool <==> d in all && (d in files || d in referenced)
        invariant forall d :: d in spool ==> spool[d] == all[d]
        decreases files
      {
        var d :| d in files;
        files := files - {d};
        if d !in referenced {
          spool := spool - {d};
        }
      }
    }

    /** _write_rejection: the record is written, or replaced. */
    method WriteRejection(r: Rejection)
      modifies this`rejections
      ensures rejections == old(rejections)[recordName(r) := wall(clock)]
    {
      rejections := rejections[recordName(r) := wall(clock)];
    }

    /** Drops the oldest rejection records beyond the limit. */
    method PruneRejections()
      modifies this`rejections
      ensures IsPruned(old(rejections), maxRejections, rejections)
      ensures |old(rejections)| <= maxRejections ==> rejections == old(rejections)
    {
      rejections := Prune(rejections, maxRejections);
    }

    method PolicyUnchanged() returns (same: bool)
      modifies this`clock
      ensures clock == old(clock) + 1
      ensures same <==> Sha256(policyFile(old(clock))) == policySha
    {
      same := Sha256(policyFile(clock)) == policySha;
      clock := clock + 1;
    }

    /** No authorisation, no memory, no snapshot. */
    ghost predicate Blank() reads this {
      && approvals == map[] && spool == map[] && observed == map[] && processed == map[]
      && dropped == {} && !overflowed
    }

    method ForgetAll()
      requires Configured()
      modifies this`approvals, this`spool, this`observed, this`processed, this`basis, this`overflowed, this`dropped
      ensures Valid() && Blank()
    {
      RevokeAll();
      observed, processed := map[], map[];
      basis, overflowed, dropped := map[], false, {};
      PruneUnreferencedSpool();
    }

    /** The records after one for the whole root, and the pruning that follows. */
    ghost predicate NotedGlobally(before: Records, overflow: bool) reads this {
      IsPruned(before[recordName(Global(overflow)) := wall(clock)], maxRejections, rejections)
    }

    /** _fail_closed_policy_change */
    method FailClosed(overflow: bool) returns (admitted: nat, rejected: nat)
      requires Configured()
      modifies this
      ensures Valid() && Blank() && clock == old(clock) && admitted == 0 && rejected == 1
      ensures |rejections| <= maxRejections && NotedGlobally(old(rejections), overflow)
    {
      ForgetAll();
      WriteRejection(Global(overflow));
      PruneRejections();
      admitted, rejected := 0, 1;
    }

    /** Whatever an earlier process left behind, nothing stays authorised. A changed policy, or too many
        candidates, is recorded. */
    method StartupPreflight() returns (admitted: nat, rejected: nat)
      requires Configured()
      modifies this
      ensures Valid() && Blank() && clock == old(clock) + 2 && admitted == 0
      ensures
        var changed := Sha256(policyFile(old(clock))) != policySha;
        if changed || |root(old(clock) + 1)| > maxCandidates
        then rejected == 1 && NotedGlobally(old(rejections), !changed)
        else rejected == 0 && IsPruned(old(rejections), maxRejections, rejections)
    {
      ForgetAll();
      var same := PolicyUnchanged();
      var found := root(clock);
      clock := clock + 1;
      if !same {
        admitted, rejected := FailClosed(false);
      } else if |found| > maxCandidates {
        admitted, rejected := FailClosed(true);
      } else {
        PruneRejections();
        admitted, rejected := 0, 0;
      }
    }

    // -------------------------------------------------------------- admission

    /** The file behind an open descriptor, at the next moment: what its path shows as long as it is
        there; once the path shows something else, it may hold anything. */
    method Opened(q: Path, inode: int) returns (now: File)
      modifies this`clock
      ensures clock == old(clock) + 1 && ShownAs(now, root(old(clock)), q, inode)
    {
      var r := root(clock);
      clock := clock + 1;
      if q in r && r[q].regular && r[q].inode == inode {
        now := r[q];
      } else {
        var content: seq<byte>, mtime: int := *, *;
        now := File(content, mtime, inode, true);
      }
    }

    /** The file with this inode is at its path, and stays as it is. */
    ghost predicate Rests(t: nat, q: Path, inode: int) {
      Quiet(t) && q in root(t) && root(t)[q].regular && root(t)[q].inode == inode
    }

    /** The blocks of an open file, each read at its own time; `seen` is the file at those times. */
    method CopyBlocks(q: Path, inode: int) returns (copy: Result<seq<byte>>, ghost seen: seq<File>)
      modifies this`clock
      ensures clock == old(clock) + |seen| > old(clock)
      ensures Looks(seen, old(clock), q, inode)
      ensures copy.Ok? ==> |copy.value| <= policy.maxFileBytes && CopiedFrom(copy.value, seen)
      ensures Rests(old(clock), q, inode) && |root(old(clock))[q].content| <= policy.maxFileBytes ==>
        copy == Ok(root(old(clock))[q].content)
    {
      var copied: seq<byte> := [];
      seen := [];
      ghost var rests := Rests(clock, q, inode);
      ghost var content := if rests then root(clock)[q].content else [];
      while true
        invariant clock == old(clock) + |seen| && |copied| <= policy.maxFileBytes
        invariant Looks(seen, old(clock), q, inode) && CopiedFrom(copied, seen)
        invariant rests ==> Rests(clock, q, inode) && root(clock)[q].content == content && copied <= content
        decreases policy.maxFileBytes - |copied|
      {
        var block;
        block, seen := ReadBlock(q, inode, copied, seen, old(clock));
        if block == [] { break; }
        if |copied| + |block| > policy.maxFileBytes { return Raised, seen; }
        copied := copied + block;
      }
      assert rests ==> copied == content;
      copy := Ok(copied);
    }

    /** One more block behind what is copied. */
    method ReadBlock(q: Path, inode: int, copied: seq<byte>, ghost seen: seq<File>, ghost from: nat)
      returns (block: seq<byte>, ghost seen': seq<File>)
      requires clock == from + |seen| && Looks(seen, from, q, inode) && CopiedFrom(copied, seen)
      modifies this`clock
      ensures clock == old(clock) + 1 && |seen'| == |seen| + 1 && Looks(seen', from, q, inode)
      ensures CopiedFrom(copied + block, seen') && (block == [] ==> CopiedFrom(copied, seen'))
      ensures Rests(old(clock), q, inode) ==>
        && Rests(clock, q, inode) && root(clock)[q] == root(old(clock))[q]
        && block == BlockAt(root(clock)[q].content, |copied|)
    {
      var now := Opened(q, inode);
      seen' := seen + [now];
      block := BlockAt(now.content, |copied|);
      CopyGrows(copied, seen, now);
    }

    /** What the descriptor showed at each moment from `from` on. */
    ghost predicate Looks(seen: seq<File>, from: nat, q: Path, inode: int) {
      forall j :: 0 <= j < |seen| ==> ShownAs(seen[j], root(from + j), q, inode)
    }

    /** _snapshot_source: the copy is kept only if the open file looks the same before and after; in
        between each block is what the file held when that block was read. */
    method SnapshotSource(q: Path) returns (copy: Result<seq<byte>>, ghost seen: seq<File>)
      modifies this`clock
      ensures clock > old(clock)
      ensures copy.Ok? ==> ioOk(old(clock))
      ensures copy.Ok? ==>
        && Stat(root(old(clock)), q).Some? && |seen| > 0 && Looks(seen, old(clock) + 1, q, root(old(clock))[q].inode)
        && FingerprintOf(seen[|seen| - 1]) == FingerprintOf(root(old(clock))[q])
        && |copy.value| == |root(old(clock))[q].content| <= policy.maxFileBytes && CopiedFrom(copy.value, seen)
      ensures
        (&& Quiet(old(clock)) && Stat(root(old(clock)), q).Some?
         && |root(old(clock))[q].content| <= policy.maxFileBytes) ==>
          copy == Ok(root(old(clock))[q].content)
    {
      var t := clock;
      var before := Stat(root(t), q);
      clock := clock + 1;
      seen := [];
      if before.None? || before.value.size > policy.maxFileBytes || !ioOk(t) { return Raised, seen; }
      copy, seen := CopyBlocks(q, before.value.inode);
      if copy.Raised? { return; }
      var after := Opened(q, before.value.inode);
      seen := seen + [after];
      if FingerprintOf(after) != before.value || |copy.value| != before.value.size { copy := Raised; }
    }

    /** _commit_snapshot: an existing snapshot is reused only if it still hashes to its name. */
    method CommitSnapshot(content: seq<byte>) returns (ok: bool)
      modifies this`spool
      ensures ok ==> spool == old(spool)[Sha256(content) := content]
      ensures !ok ==> spool == old(spool)
      ensures (Sha256(content) in old(spool) ==> Sha256(old(spool)[Sha256(content)]) == Sha256(content)) ==> ok
    {
      var d := Sha256(content);
      if d in spool {
        ok := |spool[d]| == |content| && Sha256(spool[d]) == d;
        assert ok ==> spool[d] == content;
      } else {
        spool := spool[d := content];
        ok := true;
      }
    }

    /** scan_gcode on the copy; None when it raises. */
    method Judge(content: seq<byte>) returns (verdict: Option<bool>)
      requires Configured()
      ensures verdict.None? <==> |content| > policy.maxFileBytes
      ensures verdict.Some? ==> (verdict.value <==> accepts(content))
    {
      var report := ScanGcode(policy, parse, content, true);
      verdict := if report.Raised? then None else Some(report.value.Accepted());
    }

    /** The accepted copy goes to the spool, then its record to the approval directory. */
    method Approve(q: Path, content: seq<byte>) returns (r: Admission)
      requires forall d :: SnapshotSound(Now(), d)
      modifies this`clock, this`approvals, this`spool
      ensures clock > old(clock) && !r.Denied?
      ensures r.Approved? <==> ioOk(old(clock))
      ensures r.Failed? ==> Now() == Spooled(old(Now()), content)
      ensures r.Approved? ==> r.key == (q, Sha256(content)) && RecordOf(r.record, q, content)
      ensures r.Approved? ==> NamedBetween(r.record, old(clock), clock)
      ensures r.Approved? ==> Now() == ApprovedAs(old(Now()), q, content, r.record)
    {
      assert SnapshotSound(Now(), Sha256(content));
      var committed := CommitSnapshot(content);
      var written := ioOk(clock);
      var policyNow := Sha256(policyFile(clock));
      clock := clock + 1;
      if !committed || !written { return Failed; }
      var digest := Sha256(content);
      var record := Record(q, digest, |content|, policyNow, digest);
      approvals := approvals[(q, digest) := record];
      r := Approved((q, digest), record);
    }

    lemma AcceptedFits(content: seq<byte>)
      requires Configured()
      ensures accepts(content) ==> |content| <= policy.maxFileBytes
    {
      assert accepts(content) == Admissible(policy, parse, content);
    }

    /** admit_gcode: the verdict is on the copy, and the approval names the copy. */
    method AdmitGcode(q: Path) returns (r: Admission, ghost scanned: Option<seq<byte>>)
      requires Valid() && q in observed && q !in processed
      modifies this`clock, this`approvals, this`spool
      ensures Valid() && clock > old(clock)
      ensures AnswerOf(q, r, scanned)
      ensures approvals == if r.Approved? then old(approvals)[r.key := r.record] else old(approvals)
      ensures Stat(root(old(clock)), q).None? || !storageOk(old(clock)) ==> r.Failed?
      ensures r.Approved? ==> NamedBetween(r.record, old(clock), clock)
      ensures WrittenBetween(old(approvals), approvals, old(clock), clock)
      ensures Quiet(old(clock)) && Stat(root(old(clock)), q).Some? ==> ScansRoot(q, root(old(clock)), scanned)
    {
      scanned := None;
      var t := clock;
      clock := clock + 1;
      if q in root(t) { AcceptedFits(root(t)[q].content); }
      if Stat(root(t), q).None? || !storageOk(t) { return Failed, None; }
      var copy, _ := SnapshotSource(q);
      if copy.Raised? { return Failed, None; }
      var verdict := Judge(copy.value);
      if verdict.None? { return Failed, None; }
      if !verdict.value { return Denied(Sha256(copy.value)), Some(copy.value); }
      ghost var k := Now();
      SpoolMayGrow(accepts, k, copy.value);
      r := Approve(q, copy.value);
      if r.Approved? {
        AdmitKeeps(accepts, k, q, copy.value, r.record);
        scanned := Some(copy.value);
      }
    }

    // ------------------------------------------------------------ one path

    /** The rejection record that a judged path leaves. */
    function Noted(records: Records, q: Path, f: Fingerprint, r: Admission): Records reads this`clock {
      match r
      case Failed => records[recordName(PolicyError(q, f)) := wall(clock)]
      case Denied(digest) => records[recordName(Rejected(digest)) := wall(clock)]
      case Approved(_, _) => records
    }

    /** After the admission of an observed path: what was scanned decides what q may keep. */
    method Conclude(q: Path, f: Fingerprint, r: Admission, ghost scanned: Option<seq<byte>>)
      returns (admitted: nat, rejected: nat)
      requires Valid()
      requires AnswerOf(q, r, scanned)
      modifies this`approvals, this`processed, this`basis, this`rejections
      ensures Now() == Concluded(old(Now()), q, f, KeyOf(r), scanned)
      ensures if r.Approved? then admitted == 1 && rejected == 0 else admitted == 0 && rejected == 1
      ensures rejections == Noted(old(rejections), q, f, r)
    {
      ConsistentNames(accepts, Now());
      admitted, rejected := 0, 1;
      match r {
        case Failed =>
          RevokeRelative(q, None);
          WriteRejection(PolicyError(q, f));
        case Approved(key, _) =>
          RevokeRelative(q, Some(key));
          admitted, rejected := 1, 0;
        case Denied(digest) =>
          RevokeRelative(q, None);
          WriteRejection(Rejected(digest));
      }
      processed, basis := processed[q := f], basis[q := scanned];
    }

    /** A candidate that is gone, or not a regular file, loses its approvals. */
    method Withdraw(q: Path)
      requires Valid()
      modifies this`approvals, this`processed
      ensures Now() == Withdrawn(old(Now()), q)
    {
      ConsistentNames(accepts, Now());
      RevokeRelative(q, None);
      processed := processed - {q};
    }

    /** A file seen for the first time at this fingerprint only waits. */
    method Observe(q: Path, f: Fingerprint)
      modifies this`observed, this`processed
      ensures Now() == Observed(old(Now()), q, f)
    {
      observed, processed := observed[q := f], processed - {q};
    }

    /** A turn that judges nothing: the candidate is gone, new, or already judged as it is. */
    method LookAgain(q: Path, stat: Option<Fingerprint>)
      requires Valid() && stat == Stat(root(clock), q)
      requires stat.None? || Get(observed, q) != stat || Get(processed, q) == stat
      modifies this
      ensures Valid() && Only(q, old(Now()), Now()) && clock > old(clock)
      ensures Done(accepts, root(old(clock)), q, old(Now()), Now(), 0, 0)
      ensures WrittenBetween(old(approvals), approvals, old(clock), clock)
      ensures Now() == if stat.None? then Withdrawn(old(Now()), q)
                       else if Get(old(observed), q) != stat then Observed(old(Now()), q, stat.value) else old(Now())
      ensures spool == old(spool) && rejections == old(rejections)
    {
      ghost var k, r := Now(), root(clock);
      clock := clock + 1;
      if stat.None? {
        Withdraw(q);
        WithdrawTurn(accepts, r, k, q);
      } else if Get(observed, q) != stat {
        Observe(q, stat.value);
        ObserveTurn(accepts, r, k, q, stat.value);
      }
    }

    /** What the turn of a path whose admission answered r has done, in any environment. */
    ghost predicate TurnEnds(q: Path, f: Fingerprint, k: Books, records: Records, r: Admission,
                           admitted: nat, rejected: nat)
      requires clock > 0
      reads this
    {
      if !r.Failed? && Stat(root(clock - 1), q) != Some(f)
      then admitted == 0 && rejected == 0 && rejections == records && JudgedInVain(q, k, Now(), r)
      else
        && admitted == (if r.Approved? then 1 else 0) && rejected == 1 - admitted
        && rejections == Noted(records, q, f, r) && JudgedWell(q, f, Now(), r)
    }

    /** One turn of the loop of scan_once; `answer` is what the admission answered, if there was one. */
    method ProcessPath(q: Path) returns (admitted: nat, rejected: nat, ghost answer: Option<Admission>)
      requires Valid()
      modifies this
      ensures Valid() && Only(q, old(Now()), Now()) && clock > old(clock)
      ensures WrittenBetween(old(approvals), approvals, old(clock), clock)
      ensures var stat := Stat(root(old(clock)), q);
        answer.Some? <==> stat.Some? && Get(old(observed), q) == stat && Get(old(processed), q) != stat
      ensures answer.Some? ==>
        TurnEnds(q, old(observed)[q], old(Now()), old(rejections), answer.value, admitted, rejected)
      ensures answer.None? ==>
        && admitted == 0 && rejected == 0 && rejections == old(rejections)
        && var stat := Stat(root(old(clock)), q);
           Now() == if stat.None? then Withdrawn(old(Now()), q)
                    else if Get(old(observed), q) != stat then Observed(old(Now()), q, stat.value) else old(Now())
      ensures Quiet(old(clock)) ==> Done(accepts, root(old(clock)), q, old(Now()), Now(), admitted, rejected)
      ensures Quiet(old(clock)) && admitted + rejected == 0 ==> spool == old(spool) && rejections == old(rejections)
    {
      var stat := Stat(root(clock), q);
      answer := None;
      if stat.Some? && Get(observed, q) == stat && Get(processed, q) != stat {
        ghost var r;
        admitted, rejected, r := AdmitPath(q, stat.value);
        answer := Some(r);
      } else {
        LookAgain(q, stat);
        admitted, rejected := 0, 0;
      }
    }

    /** A file that changed under the scanner's hands is forgotten; its new approval stays. */
    method Drop(q: Path)
      modifies this`observed, this`dropped
      ensures Now() == Dropped(old(Now()), q)
    {
      observed, dropped := observed - {q}, dropped + {q};
    }

    /** The admission of a path whose file looks as it did in the last scan. */
    method AdmitPath(q: Path, f: Fingerprint) returns (admitted: nat, rejected: nat, ghost r: Admission)
      requires Valid() && Get(observed, q) == Some(f) && Get(processed, q) != Some(f)
      requires Stat(root(clock), q) == Some(f)
      modifies this
      ensures Valid() && Only(q, old(Now()), Now()) && clock > old(clock)
      ensures WrittenBetween(old(approvals), approvals, old(clock), clock)
      ensures TurnEnds(q, f, old(Now()), old(rejections), r, admitted, rejected)
      ensures Quiet(old(clock)) ==>
        && Done(accepts, root(old(clock)), q, old(Now()), Now(), admitted, rejected)
        && admitted + rejected == 1
    {
      ghost var k, t := Now(), clock;
      ghost var scanned, k';
      clock := clock + 1;
      ConsistentCache(accepts, k, q);
      admitted, rejected, r, scanned, k' := AdmitAndJudge(q, f);
      assert TurnEnds(q, f, k, old(rejections), r, admitted, rejected);
      if Quiet(t) { QuietTurn(root(t), k, k', Now(), q, f, r, scanned); }
    }

    /** admit_gcode, and what follows from it; k' are the books in between. */
    method AdmitAndJudge(q: Path, f: Fingerprint)
      returns (admitted: nat, rejected: nat, ghost r: Admission, ghost scanned: Option<seq<byte>>, ghost k': Books)
      requires Valid() && Get(observed, q) == Some(f) && q !in processed
      modifies this
      ensures Valid() && Only(q, old(Now()), Now()) && clock > old(clock)
      ensures forall t: nat :: t <= old(clock) ==> WrittenBetween(old(approvals), approvals, t, clock)
      ensures TurnEnds(q, f, old(Now()), old(rejections), r, admitted, rejected)
      ensures Consistent(accepts, k') && Admitted(old(Now()), k', q, KeyOf(r)) && AnswerOf(q, r, scanned)
      ensures Quiet(old(clock)) && Stat(root(old(clock)), q) == Some(f) ==>
        && ScansRoot(q, root(old(clock)), scanned) && Now() == Concluded(k', q, f, KeyOf(r), scanned)
    {
      ghost var k, t0 := Now(), clock;
      var answer;
      answer, scanned := AdmitGcode(q);
      r := answer;
      k' := Now();
      ghost var t1 := clock;
      admitted, rejected := AfterAdmission(q, f, answer, scanned, k);
      forall t: nat | t <= t0 ensures WrittenBetween(k.approvals, approvals, t, clock) {
        StillWritten(k.approvals, k'.approvals, approvals, t0, t1, clock);
      }
    }

    /** The answer of an admission, and what was scanned for it. */
    ghost predicate AnswerOf(q: Path, r: Admission, scanned: Option<seq<byte>>) {
      && (r.Failed? <==> scanned.None?)
      && (r.Denied? ==> !accepts(scanned.value) && r.digest == Sha256(scanned.value))
      && (r.Approved? ==>
            accepts(scanned.value) && r.key == (q, Sha256(scanned.value)) && RecordOf(r.record, q, scanned.value))
    }

    /** The file at the path was scanned, or it could not be, and would not have been accepted. */
    ghost predicate ScansRoot(q: Path, r0: Root, scanned: Option<seq<byte>>)
      requires q in r0
    {
      scanned == Some(r0[q].content) || (scanned.None? && !accepts(r0[q].content))
    }

    /** What the loop does with the result of an admission. */
    method AfterAdmission(q: Path, f: Fingerprint, r: Admission, ghost scanned: Option<seq<byte>>, ghost k: Books)
      returns (admitted: nat, rejected: nat)
      requires Valid() && Get(k.observed, q) == Some(f) && q !in k.processed
      requires Admitted(k, Now(), q, KeyOf(r))
      requires AnswerOf(q, r, scanned)
      requires r.Approved? ==> Get(approvals, r.key) == Some(r.record)
      modifies this
      ensures Valid() && Only(q, k, Now()) && clock == old(clock) + 1
      ensures forall key :: key in approvals ==> Get(old(approvals), key) == Some(approvals[key])
      ensures TurnEnds(q, f, k, old(rejections), r, admitted, rejected)
      ensures r.Failed? || Stat(root(old(clock)), q) == Some(f) ==>
        Now() == Concluded(old(Now()), q, f, KeyOf(r), scanned)
    {
      admitted, rejected := 0, 0;
      ghost var k' := Now();
      var after := Stat(root(clock), q);
      clock := clock + 1;
      if !r.Failed? && after != Some(f) {
        Drop(q);
        DropTurn(accepts, k, k', q, KeyOf(r));
        DroppedInVain(k, k', q, r);
      } else {
        admitted, rejected := Conclude(q, f, r, scanned);
        ConcludeTurn(accepts, map[], k, k', q, f, KeyOf(r), scanned);
        ConcludedWell(k, k', q, f, r, scanned);
      }
    }

    /** Where nothing outside changes, that is the turn that the path's state calls for. */
    lemma QuietTurn(r0: Root, k: Books, k': Books, k'': Books, q: Path, f: Fingerprint,
                    r: Admission, scanned: Option<seq<byte>>)
      requires Consistent(accepts, k') && Admitted(k, k', q, KeyOf(r))
      requires Get(k.observed, q) == Some(f) && q !in k.processed && Stat(r0, q) == Some(f)
      requires AnswerOf(q, r, scanned)
      requires ScansRoot(q, r0, scanned)
      requires k'' == Concluded(k', q, f, KeyOf(r), scanned)
      ensures Done(accepts, r0, q, k, k'', if r.Approved? then 1 else 0, if r.Approved? then 0 else 1)
    {
      ConcludeTurn(accepts, r0, k, k', q, f, KeyOf(r), scanned);
    }

    // -------------------------------------------------------------- one scan

    method DropStale(current: set<Path>)
      requires Valid()
      modifies this`approvals, this`observed, this`processed
      ensures Now() == Unwatched(old(Now()), current)
    {
      var stale := observed.Keys - current;
      ghost var k := Now();
      ConsistentNames(accepts, k);
      while stale != {}
        invariant stale <= k.observed.Keys - current
        invariant Now() == Unwatched(k, current + stale)
        decreases stale
      {
        var q :| q in stale;
        ghost var before := Now();
        RevokeRelative(q, None);
        observed, processed := observed - {q}, processed - {q};
        UnwatchOne(k, current + stale, q);
        assert current + stale - {q} == current + (stale - {q});
        stale := stale - {q};
      }
      assert current + stale == current;
    }

    /** The candidates one by one, in any order. */
    method ProcessAll(current: set<Path>) returns (admitted: nat, rejected: nat)
      requires Valid()
      modifies this
      ensures Valid() && clock >= old(clock) && WrittenBetween(old(approvals), approvals, old(clock), clock)
      ensures Quiet(old(clock)) && current == root(old(clock)).Keys ==>
        Scanning(accepts, root(old(clock)), old(Now()), Now(), {}, admitted, rejected)
      ensures Quiet(old(clock)) && current == root(old(clock)).Keys && admitted + rejected == 0 ==>
        spool == old(spool) && rejections == old(rejections)
    {
      admitted, rejected := 0, 0;
      ghost var k := Now();
      ghost var r := root(clock);
      ghost var quiet := Quiet(clock) && current == r.Keys;
      ScanningStarts(accepts, r, k);
      var todo := current;
      while todo != {}
        invariant todo <= current && Valid() && clock >= old(clock)
        invariant WrittenBetween(old(approvals), approvals, old(clock), clock)
        invariant quiet ==> Scanning(accepts, r, k, Now(), todo, admitted, rejected)
        invariant quiet && admitted + rejected == 0 ==> spool == old(spool) && rejections == old(rejections)
        decreases todo
      {
        var q :| q in todo;
        ghost var approved, t := approvals, clock;
        var a, j := ProcessOne(q, k, r, todo, admitted, rejected, quiet);
        WrittenTrans(old(approvals), approved, approvals, old(clock), t, clock);
        todo, admitted, rejected := todo - {q}, admitted + a, rejected + j;
      }
    }

    method ProcessOne(q: Path, ghost k0: Books, ghost r: Root, ghost todo: set<Path>,
                      ghost a0: nat, ghost j0: nat, ghost quiet: bool)
      returns (a: nat, j: nat)
      requires Valid() && q in todo
      requires quiet ==> Quiet(clock) && root(clock) == r && q in r && Scanning(accepts, r, k0, Now(), todo, a0, j0)
      modifies this
      ensures Valid() && clock > old(clock) && WrittenBetween(old(approvals), approvals, old(clock), clock)
      ensures quiet ==> Scanning(accepts, r, k0, Now(), todo - {q}, a0 + a, j0 + j)
      ensures quiet && a + j == 0 ==> spool == old(spool) && rejections == old(rejections)
    {
      ghost var answer;
      a, j, answer := ProcessPath(q);
      if quiet {
        ScanningStep(accepts, r, k0, old(Now()), Now(), todo, q, a0, j0, a, j);
      }
    }

    /** scan_once */
    method ScanOnce() returns (admitted: nat, rejected: nat)
      requires Valid()
      modifies this
      ensures WrittenBetween(old(approvals), approvals, old(clock), clock)
      ensures Valid() && clock > old(clock) && SpoolExact(Now()) && |rejections| <= maxRejections
      ensures Sha256(policyFile(old(clock))) != policySha ==>
        Blank() && admitted == 0 && rejected == 1 && NotedGlobally(old(rejections), false)
      ensures Sha256(policyFile(old(clock))) == policySha && |root(old(clock) + 1)| > maxCandidates ==>
        Now() == Overflowed(old(Now())) && admitted == 0 && rejected == 1 && NotedGlobally(old(rejections), true)
      ensures Quiet(old(clock)) ==>
        && QuietScan(accepts, root(old(clock)), old(Now()), Now(), admitted, rejected)
        && (admitted + rejected == 0 && |old(rejections)| <= maxRejections ==> rejections == old(rejections))
    {
      var same := PolicyUnchanged();
      if !same {
        admitted, rejected := FailClosed(false);
      } else {
        admitted, rejected := ScanRoot();
      }
    }

    method ScanRoot() returns (admitted: nat, rejected: nat)
      requires Valid()
      modifies this
      ensures WrittenBetween(old(approvals), approvals, old(clock), clock)
      ensures Valid() && clock > old(clock) && SpoolExact(Now()) && |rejections| <= maxRejections
      ensures |root(old(clock))| > maxCandidates ==>
        Now() == Overflowed(old(Now())) && admitted == 0 && rejected == 1 && NotedGlobally(old(rejections), true)
      ensures Quiet(old(clock)) ==>
        && QuietScan(accepts, root(old(clock)), old(Now()), Now(), admitted, rejected)
        && (admitted + rejected == 0 && |old(rejections)| <= maxRejections ==> rejections == old(rejections))
    {
      ghost var k := Now();
      PruneUnreferencedSpool();
      var found := root(clock);
      clock := clock + 1;
      if |found| > maxCandidates {
        admitted, rejected := Overflow(k);
      } else {
        admitted, rejected := ScanCandidates(found, k);
      }
    }

    /** Too many candidates: every approval is revoked, but the memory of what was processed stays. */
    method Overflow(ghost k: Books) returns (admitted: nat, rejected: nat)
      requires Consistent(accepts, k) && Configured() && Now() == Pruned(k)
      modifies this
      ensures Valid() && Now() == Overflowed(k) && SpoolExact(Now())
      ensures clock == old(clock) && admitted == 0 && rejected == 1 && |rejections| <= maxRejections
      ensures NotedGlobally(old(rejections), true)
    {
      OverflowKeeps(accepts, k);
      RevokeAll();
      overflowed := true;
      PruneUnreferencedSpool();
      WriteRejection(Global(true));
      PruneRejections();
      admitted, rejected := 0, 1;
    }

    method ScanCandidates(found: Root, ghost k: Books) returns (admitted: nat, rejected: nat)
      requires Consistent(accepts, k) && Configured() && Now() == Pruned(k)
      modifies this
      ensures WrittenBetween(old(approvals), approvals, old(clock), clock)
      ensures Valid() && clock >= old(clock) && SpoolExact(Now()) && |rejections| <= maxRejections
      ensures Quiet(old(clock)) && found == root(old(clock)) ==>
        && QuietScan(accepts, found, k, Now(), admitted, rejected)
        && (admitted + rejected == 0 && |old(rejections)| <= maxRejections ==> rejections == old(rejections))
    {
      ForgetStale(found.Keys, k);
      ghost var k1, t := Now(), clock;
      ghost var quiet := Quiet(clock) && found == root(clock);
      admitted, rejected := ProcessAll(found.Keys);
      WrittenTrans(k.approvals, k1.approvals, approvals, t, t, clock);
      ghost var k2 := Now();
      FinishScan();
      if quiet { QuietScanComposes(accepts, found, k, k1, k2, Now(), admitted, rejected); }
    }

    /** Before the loop: what is no longer a candidate is forgotten. */
    method ForgetStale(current: set<Path>, ghost k: Books)
      requires Consistent(accepts, k) && Configured() && Now() == Pruned(k)
      modifies this`approvals, this`observed, this`processed
      ensures Valid() && Now() == Unwatched(Pruned(k), current)
      ensures WrittenBetween(k.approvals, approvals, clock, clock)
    {
      PruneKeeps(accepts, k);
      UnwatchKeeps(accepts, Pruned(k), current);
      DropStale(current);
    }

    method FinishScan()
      requires Valid()
      modifies this`spool, this`rejections
      ensures Valid() && Now() == Pruned(old(Now())) && SpoolExact(Now()) && |rejections| <= maxRejections
      ensures |old(rejections)| <= maxRejections ==> rejections == old(rejections)
    {
      PruneKeeps(accepts, Now());
      PruneUnreferencedSpool();
      PruneRejections();
    }

    // ------------------------------------------------------------- whole runs

    /** Start, scan, scan: the approvals are exactly what scanning every candidate would give. */
    method StartAndScanTwice(ghost r: Root)
      requires Configured() && Quiet(clock) && r == root(clock)
      modifies this
      ensures Valid() && Quiet(clock) && r == root(clock) && SpoolExact(Now())
      ensures UpToDate(r, Now()) && ApprovalsExact(accepts, r, Now()) && |rejections| <= maxRejections
      ensures AllNamePolicy()
    {
      var a, j := StartupPreflight();
      ScanForTheFirstTime(r);
      ghost var k, t := Now(), clock;
      a, j := ScanOnce();
      QuietlyNamed(k.approvals, approvals, t, clock);
      SecondScan(accepts, r, k, Now(), a, j);
    }

    method ScanForTheFirstTime(ghost r: Root)
      requires Valid() && Blank() && Quiet(clock) && r == root(clock)
      modifies this
      ensures Valid() && Quiet(clock) && r == root(clock) && Waiting(r, Now()) && AllNamePolicy()
    {
      ghost var k, t := Now(), clock;
      var a, j := ScanOnce();
      QuietlyNamed(k.approvals, approvals, t, clock);
      FirstScan(accepts, r, k, Now(), a, j);
    }

    /** Every later scan reports (0, 0) and leaves all three directories as they are. */
    method ScanAgain(ghost r: Root) returns (admitted: nat, rejected: nat)
      requires Valid() && Quiet(clock) && r == root(clock) && SpoolExact(Now())
      requires UpToDate(r, Now()) && ApprovalsExact(accepts, r, Now()) && |rejections| <= maxRejections
      modifies this
      ensures admitted == 0 && rejected == 0
      ensures approvals == old(approvals) && spool == old(spool) && rejections == old(rejections)
      ensures Valid() && clock > old(clock) && Quiet(clock) && root(clock) == r && SpoolExact(Now())
      ensures UpToDate(r, Now()) && ApprovalsExact(accepts, r, Now()) && |rejections| <= maxRejections
      ensures old(AllNamePolicy()) ==> AllNamePolicy()
    {
      ghost var k := Now();
      assert forall key: Key :: key == (key.0, key.1);
      admitted, rejected := ScanOnce();
      LaterScan(accepts, r, k, Now(), admitted, rejected);
      SpoolsEqual(accepts, k, Now());
    }
  }

  /** Equal content at two paths shares one snapshot; revoking one path keeps it for the other. */
  lemma SharedSnapshotSurvives(accepts: seq<byte> -> bool, k: Books, q: Path, q': Path, d: Digest)
    requires Consistent(accepts, k) && (q, d) in k.approvals && (q', d) in k.approvals && q != q'
    ensures
      var k' := Pruned(Withdrawn(k, q));
      && (q, d) !in k'.approvals && (q', d) in k'.approvals
      && d in k'.spool && k'.spool[d] == k.spool[d]
  {
    assert ApprovalSound(accepts, k, (q', d));
    assert (q', d) in Withdrawn(k, q).approvals && k.approvals[(q', d)].spoolFile == d;
  }

  /** A vanished file loses its approvals in the next scan exactly when it was still watched:
      one that changed during its admission, and then vanished, keeps the approval. */
  lemma VanishedFile(accepts: seq<byte> -> bool, r: Root, k: Books, k': Books, a: nat, j: nat, q: Path, d: Digest)
    requires QuietScan(accepts, r, k, k', a, j) && q !in r && (q, d) in k.approvals
    ensures (q, d) !in k'.approvals <==> q in k.observed
    ensures Consistent(accepts, k) && (q, d) in k'.approvals ==> q in k.dropped
  {
    assert Gone(q, k, k');
    assert Get(k'.approvals, (q, d)) == if q in k.observed then None else Get(k.approvals, (q, d));
    assert Consistent(accepts, k) ==> Watched(k, (q, d));
  }

  /** How that looks: q was watched when its admission began, changed under the scanner's hands, and is
      gone from the root, which is empty. The books are consistent, every quiet scan leaves them as
      they are, and the approval stays. */
  lemma DroppedApprovalStays(accepts: seq<byte> -> bool, q: Path, f: Fingerprint, content: seq<byte>, policySha: Digest)
    requires accepts(content)
    ensures
      var d := Sha256(content);
      var rec := Record(q, d, |content|, policySha, d);
      var watched := Books(map[q := f], map[], map[], map[], map[], false, {});
      var k := Dropped(ApprovedAs(watched, q, content, rec), q);
      && Consistent(accepts, watched) && Consistent(accepts, k)
      && QuietScan(accepts, map[], k, k, 0, 0) && (q, d) in k.approvals && !ApprovalsExact(accepts, map[], k)
  {
    var d := Sha256(content);
    var rec := Record(q, d, |content|, policySha, d);
    var watched := Books(map[q := f], map[], map[], map[], map[], false, {});
    assert Consistent(accepts, watched);
    var approved := ApprovedAs(watched, q, content, rec);
    AdmitKeeps(accepts, watched, q, content, rec);
    DropKeeps(accepts, approved, q);
    var k, nothing: Root := Dropped(approved, q), map[];
    assert (q, d) in k.approvals;
    assert k.observed == map[];
    assert Verdicts(accepts, nothing, k, nothing.Keys, true) == {};
    assert Verdicts(accepts, nothing, k, nothing.Keys, false) == {};
    assert QuietScan(accepts, nothing, k, k, 0, 0);
  }

  /** Two consistent daemons with the same approvals and nothing unreferenced have the same spool. */
  lemma SpoolsEqual(accepts: seq<byte> -> bool, k: Books, k': Books)
    requires Consistent(accepts, k) && Consistent(accepts, k')
    requires SpoolExact(k) && SpoolExact(k') && k'.approvals == k.approvals
    ensures k'.spool == k.spool
  {
    forall d ensures d in k.spool <==> d in k'.spool {}
    forall d | d in k.spool ensures k.spool[d] == k'.spool[d] {
      assert SnapshotSound(k, d) && SnapshotSound(k', d);
    }
  }
}
