/** The remote configuration transaction of bin/t300ctl.py, against a Moonraker that may fail at
    every call; what the calls answer is a function of time. A failing upload or delete may still have
    had any effect on its one file. */
module ConfigTransaction {
  import opened Wrappers

  type Filename = string
  type Bytes = seq<int>
  type Files = map<Filename, Bytes>

  // ---------------------------------------------------- observing the restart

  datatype KlippyState = Ready | ErrorState | Shutdown | OtherState
  datatype Server = Server(connected: bool, state: KlippyState)

  /** What one turn of the wait loop would see; `printerReady` is the answer of /printer/info, if it is
      asked. The clock (milliseconds) is read before the deadline is checked, when an error state is
      first noted, and when its age is computed. */
  datatype Poll = Poll(at: int, notedAt: int, agedAt: int, server: Result<Server>, printerReady: Result<bool>)

  /** Klippy is visibly not in its pre-restart ready state. */
  predicate Transition(p: Poll) {
    p.server.Raised? || !p.server.value.connected || p.server.value.state != Ready
  }

  predicate BackUp(p: Poll) { !Transition(p) && p.printerReady == Ok(true) }

  predicate Failing(p: Poll) { p.server.Ok? && p.server.value.state in {ErrorState, Shutdown} }

  /** A poll that neither shows nor clears a Klippy error: a request failed. */
  predicate Unanswered(p: Poll) { p.server.Raised? || (!Transition(p) && p.printerReady.Raised?) }

  /** Klippy was seen to change, then poll j shows a ready printer, before the deadline. */
  predicate ReadyAt(polls: seq<Poll>, deadline: int, j: nat) {
    && j < |polls| && BackUp(polls[j]) && (exists i :: 0 <= i < j && Transition(polls[i]))
    && forall k :: 0 <= k <= j ==> polls[k].at < deadline
  }

  ghost predicate Settled(polls: seq<Poll>, deadline: int) { exists j: nat :: ReadyAt(polls, deadline, j) }

  /** Poll a is the first to show an error state: an earlier one was cleared in between. */
  predicate ErrorBegins(polls: seq<Poll>, a: nat) {
    && a < |polls| && Failing(polls[a])
    && forall k :: 0 <= k < a && Failing(polls[k]) ==>
         exists m :: k < m < a && !Failing(polls[m]) && !Unanswered(polls[m])
  }

  /** Since poll a, and at poll b at least three seconds later, Klippy is in an error state. */
  predicate GaveUp(polls: seq<Poll>, a: nat, b: nat) {
    && ErrorBegins(polls, a) && a <= b < |polls| && Failing(polls[b])
    && polls[b].agedAt - polls[a].notedAt >= 3000
    && forall k :: a <= k <= b ==> Failing(polls[k]) || Unanswered(polls[k])
  }

  ghost predicate NotGivenUp(polls: seq<Poll>, n: nat) { forall a: nat, b: nat :: b < n ==> !GaveUp(polls, a, b) }

  /** A ready printer is seen before the deadline, and before any error state lasts three seconds. */
  ghost predicate Restarts(polls: seq<Poll>, deadline: int) {
    exists j: nat :: ReadyAt(polls, deadline, j) && NotGivenUp(polls, j)
  }

  /** What the wait loop knows after i polls about an error state. */
  ghost predicate ErrorNoted(polls: seq<Poll>, i: nat, first: Option<nat>) {
    match first
    case Some(a) =>
      && a < i <= |polls| && ErrorBegins(polls, a)
      && forall k :: a <= k < i ==> Failing(polls[k]) || Unanswered(polls[k])
    case None =>
      i <= |polls| && forall k :: 0 <= k < i && Failing(polls[k]) ==>
        exists m :: k < m < i && !Failing(polls[m]) && !Unanswered(polls[m])
  }

  /** A failing poll begins an error state, or goes on with it. */
  lemma ErrorGoesOn(polls: seq<Poll>, i: nat, first: Option<nat>)
    requires ErrorNoted(polls, i, first) && i < |polls| && Failing(polls[i])
    ensures
      var a := if first.Some? then first.value else i;
      && ErrorNoted(polls, i + 1, Some(a))
      && (forall b: nat :: GaveUp(polls, b, i) ==> b == a)
      && (polls[i].agedAt - polls[a].notedAt >= 3000 ==> GaveUp(polls, a, i))
  {
  }

  /** wait_for_restart_ready */
  method WaitForRestartReady(polls: seq<Poll>, deadline: int) returns (ready: bool)
    ensures ready <==> Restarts(polls, deadline)
  {
    var observed := false;
    var firstError: Option<nat> := None;
    var i := 0;
    while i < |polls| && polls[i].at < deadline
      invariant 0 <= i <= |polls|
      invariant forall k :: 0 <= k < i ==> polls[k].at < deadline
      invariant observed <==> exists k :: 0 <= k < i && Transition(polls[k])
      invariant forall j: nat :: j < i ==> !ReadyAt(polls, deadline, j)
      invariant ErrorNoted(polls, i, firstError) && NotGivenUp(polls, i)
    {
      var p := polls[i];
      if p.server.Raised? {
        observed := true;
      } else {
        var server := p.server.value;
        if !server.connected || server.state != Ready {
          observed := true;
        }
        var asked := observed && server.connected && server.state == Ready;
        if asked && p.printerReady == Ok(true) {
          assert ReadyAt(polls, deadline, i);
          return true;
        }
        if asked && p.printerReady.Raised? {
          observed := true;
        } else if observed && server.state in {ErrorState, Shutdown} {
          ErrorGoesOn(polls, i, firstError);
          firstError := if firstError.Some? then firstError else Some(i);
          if p.agedAt - polls[firstError.value].notedAt >= 3000 {
            assert GaveUp(polls, firstError.value, i);
            return false;
          }
        } else {
          firstError := None;
        }
      }
      i := i + 1;
    }
    ready := false;
  }

  // ---------------------------------------------------------------- the remote

  /** What the world makes of one call. If it works, the call returns and does what it is asked. If not,
      a listing, a download, the idle check and the restart request raise; an upload or deletion may
      raise or return, and its file is anything or missing. `polls` is what an observer would see. */
  datatype Answer = Answer(works: bool, returned: bool, present: bool, content: Bytes, polls: seq<Poll>)

  class Moonraker {
    const world: nat -> Answer
    const deadline: int       // after the restart request
    var clock: nat
    var files: Files
    /** The last answer that matters: the printer was idle and ready, and nothing was changed since. */
    ghost var idle: bool
    /** Of each upload or deletion: whether it came right after such an answer. */
    ghost var mutations: seq<bool>
    /** The files Klipper was told to restart on, and whether right after such an answer. */
    ghost var restarts: seq<(Files, bool)>
    /** What the last restart was seen to do. */
    ghost var observation: seq<Poll>
    /** The files read back as expected since anything was changed last; and what they were at each
        restart. */
    ghost var readBack: set<Filename>
    ghost var readBefore: seq<set<Filename>>

    constructor (world: nat -> Answer, deadline: int, files: Files)
      ensures this.world == world && this.deadline == deadline && this.files == files && clock == 0
      ensures mutations == [] && restarts == [] && !idle && readBack == {} && readBefore == []
    {
      this.world, this.deadline, this.files, clock := world, deadline, files, 0;
      idle, mutations, restarts, observation, readBack, readBefore := false, [], [], [], {}, [];
    }

    /** The answer of time t is that of a healthy server and printer. */
    ghost predicate Fine(t: nat) { world(t).works && Restarts(world(t).polls, deadline) }

    ghost predicate HealthyFrom(t: nat) { forall u: nat :: t <= u ==> Fine(u) }

    ghost predicate Trouble(from: nat, to: nat) { exists u :: from <= u < to && !Fine(u) }

    method RemoteConfigPaths() returns (r: Result<set<Filename>>)
      modifies this`clock
      ensures clock == old(clock) + 1 && r == if world(old(clock)).works then Ok(files.Keys) else Raised
    {
      r := if world(clock).works then Ok(files.Keys) else Raised;
      clock := clock + 1;
    }

    /** verify_remote_config: download, within the size limit, and compare. */
    method VerifyRemoteConfig(f: Filename, expected: Bytes) returns (ok: bool)
      modifies this`clock, this`readBack
      ensures clock == old(clock) + 1
      ensures ok <==> world(old(clock)).works && f in files && files[f] == expected
      ensures readBack == if ok then old(readBack) + {f} else old(readBack)
    {
      ok := world(clock).works && f in files && files[f] == expected;
      clock := clock + 1;
      if ok { readBack := readBack + {f}; }
    }

    /** upload_config, or delete_file where `wanted` is None. */
    method Mutate(f: Filename, wanted: Option<Bytes>) returns (ok: bool)
      modifies this`files, this`idle, this`mutations, this`clock, this`readBack
      ensures clock == old(clock) + 1 && files - {f} == old(files) - {f} && readBack == {}
      ensures !idle && mutations == old(mutations) + [old(idle)]
      ensures world(old(clock)).works ==> ok && AsReviewed(files, f, wanted)
    {
      var a := world(clock);
      clock, mutations, idle, readBack := clock + 1, mutations + [idle], false, {};
      ok := a.works || a.returned;
      var result := if a.works then wanted else if a.present then Some(a.content) else None;
      files := if result.Some? then files[f := result.value] else files - {f};
    }

    method EnsureIdleReady() returns (ok: bool)
      modifies this`idle, this`clock
      ensures clock == old(clock) + 1 && idle == ok == world(old(clock)).works
    {
      ok := world(clock).works;
      idle, clock := ok, clock + 1;
    }

    /** firmware_restart_and_wait: Raised when the request itself fails. */
    method FirmwareRestartAndWait() returns (r: Result<bool>)
      modifies this`restarts, this`readBefore, this`observation, this`idle, this`clock
      ensures clock == old(clock) + 1 && restarts == old(restarts) + [(files, old(idle))]
      ensures readBefore == old(readBefore) + [readBack]
      ensures !idle && (r == Ok(true) <==> world(old(clock)).works && Restarts(world(old(clock)).polls, deadline))
      ensures r.Ok? ==> observation == world(old(clock)).polls
    {
      var a := world(clock);
      clock, restarts, idle := clock + 1, restarts + [(files, idle)], false;
      readBefore := readBefore + [readBack];
      if !a.works { return Raised; }
      observation := a.polls;
      var ready := WaitForRestartReady(a.polls, deadline);
      r := Ok(ready);
    }
  }

  // ----------------------------------------------------------- the transaction

  /** changes, a dict in insertion order. */
  type Changes = seq<(Filename, Bytes)>

  predicate Distinct(changes: Changes) {
    forall i, j :: 0 <= i < j < |changes| ==> changes[i].0 != changes[j].0
  }

  function Names(changes: Changes): set<Filename> {
    set i | 0 <= i < |changes| :: changes[i].0
  }

  /** The files with every change in place. */
  function Proposed(files: Files, changes: Changes): Files {
    if changes == [] then files
    else Proposed(files, changes[..|changes| - 1])[changes[|changes| - 1].0 := changes[|changes| - 1].1]
  }

  /** A file is as the review saw it; None means it must not exist. */
  predicate AsReviewed(files: Files, f: Filename, original: Option<Bytes>) {
    match original
    case None => f !in files
    case Some(content) => f in files && files[f] == content
  }

  predicate AllAsReviewed(files: Files, originals: map<Filename, Option<Bytes>>) {
    forall f :: f in originals ==> AsReviewed(files, f, originals[f])
  }

  /** Returned; Preflight: raised before the first upload; Restored: "previous files were restored";
      Incomplete: "rollback was incomplete". */
  datatype Outcome = Returned | Preflight | Restored | Incomplete

  lemma {:induction false} ProposedIs(files: Files, changes: Changes)
    requires Distinct(changes)
    ensures Proposed(files, changes) - Names(changes) == files - Names(changes)
    ensures forall i :: 0 <= i < |changes| ==>
      changes[i].0 in Proposed(files, changes) && Proposed(files, changes)[changes[i].0] == changes[i].1
  {
    if changes != [] {
      var rest, last := changes[..|changes| - 1], changes[|changes| - 1];
      ProposedIs(files, rest);
      assert Names(changes) == Names(rest) + {last.0} by {
        assert forall i :: 0 <= i < |rest| ==> rest[i] == changes[i];
      }
      assert Proposed(files, changes) - Names(changes) == (Proposed(files, rest) - Names(rest)) - {last.0};
      assert files - Names(changes) == (files - Names(rest)) - {last.0};
    }
  }

  /** Files that agree with the proposal on every changed name and with the originals elsewhere
      are the proposal. */
  lemma ProposalReached(before: Files, after: Files, changes: Changes)
    requires Distinct(changes) && after - Names(changes) == before - Names(changes)
    requires forall i :: 0 <= i < |changes| ==> changes[i].0 in after && after[changes[i].0] == changes[i].1
    ensures after == Proposed(before, changes)
  {
    ProposedIs(before, changes);
    AgreeEverywhere(after, Proposed(before, changes), Names(changes));
  }

  lemma OriginalsReached(before: Files, after: Files, changes: Changes, originals: map<Filename, Option<Bytes>>)
    requires after - Names(changes) == before - Names(changes) && Names(changes) <= originals.Keys
    requires AllAsReviewed(before, originals)
    requires forall i :: 0 <= i < |changes| ==> AsReviewed(after, changes[i].0, originals[changes[i].0])
    ensures after == before
  {
    forall f | f in Names(changes) ensures f in after <==> f in before { }
    AgreeEverywhere(after, before, Names(changes));
  }

  lemma AgreeEverywhere(a: Files, b: Files, names: set<Filename>)
    requires a - names == b - names
    requires forall f :: f in names ==> (f in a <==> f in b) && (f in a ==> a[f] == b[f])
    ensures a == b
  {
    forall f ensures f in a <==> f in b {
      if f !in names { assert f in a - names <==> f in b - names; }
    }
    forall f | f in a ensures a[f] == b[f] {
      if f !in names { assert (a - names)[f] == (b - names)[f]; }
    }
  }

  class Transaction {
    const client: Moonraker
    const changes: Changes
    const originals: map<Filename, Option<Bytes>>

    constructor (client: Moonraker, changes: Changes, originals: map<Filename, Option<Bytes>>)
      ensures this.client == client && this.changes == changes && this.originals == originals
    {
      this.client, this.changes, this.originals := client, changes, originals;
    }

    /** The checks before the first mutation. */
    method CheckReviewed() returns (ok: bool)
      modifies client`idle, client`clock, client`readBack
      ensures client.clock >= old(client.clock)
      ensures ok ==> client.idle && Names(changes) <= originals.Keys && AllAsReviewed(client.files, originals)
      ensures !ok && Names(changes) <= originals.Keys && AllAsReviewed(client.files, originals) ==>
        client.Trouble(old(client.clock), client.clock)
    {
      if !(Names(changes) <= originals.Keys) { return false; }
      var listed := client.RemoteConfigPaths();
      if listed.Raised? {
        assert !client.Fine(old(client.clock));
        return false;
      }
      var todo := originals.Keys;
      while todo != {}
        invariant todo <= originals.Keys && client.clock > old(client.clock)
        invariant forall f :: f in originals && f !in todo ==> AsReviewed(client.files, f, originals[f])
        decreases todo
      {
        var f :| f in todo;
        todo := todo - {f};
        match originals[f] {
          case None => if f in listed.value { return false; }
          case Some(expected) =>
            if f !in listed.value { return false; }
            var same := client.VerifyRemoteConfig(f, expected);
            if !same {
              assert AsReviewed(client.files, f, originals[f]) ==> !client.Fine(client.clock - 1);
              return false;
            }
        }
      }
      ok := client.EnsureIdleReady();
      assert !ok ==> !client.Fine(client.clock - 1);
    }

    /** The first loop of the try block: each file is uploaded and read back. */
    method UploadEach() returns (ok: bool)
      requires Distinct(changes) && changes != [] && client.idle
      modifies client`files, client`idle, client`mutations, client`clock, client`readBack
      ensures client.clock > old(client.clock) && old(client.mutations) + [true] <= client.mutations
      ensures client.files - Names(changes) == old(client.files) - Names(changes)
      ensures ok ==> forall k :: 0 <= k < |changes| ==> AsReviewed(client.files, changes[k].0, Some(changes[k].1))
      ensures !ok ==> client.Trouble(old(client.clock), client.clock)
    {
      ghost var before := client.files;
      ok := true;
      for i := 0 to |changes|
        invariant client.clock >= old(client.clock) && client.files - Names(changes) == before - Names(changes)
        invariant if i == 0 then client.idle && client.mutations == old(client.mutations)
                  else client.clock > old(client.clock) && old(client.mutations) + [true] <= client.mutations
        invariant forall k :: 0 <= k < i ==> AsReviewed(client.files, changes[k].0, Some(changes[k].1))
      {
        ghost var t, here := client.clock, client.files;
        ok := UploadOne(changes[i].0, changes[i].1);
        assert changes[i].0 in Names(changes);
        assert client.files - Names(changes) == (client.files - {changes[i].0}) - Names(changes)
            == (here - {changes[i].0}) - Names(changes);
        if !ok {
          assert exists u :: t <= u < client.clock && !client.Fine(u);
          return;
        }
        forall k | 0 <= k < i ensures AsReviewed(client.files, changes[k].0, Some(changes[k].1)) {
          SameElsewhere(here, client.files, changes[i].0, changes[k].0);
        }
      }
    }

    method UploadOne(f: Filename, content: Bytes) returns (ok: bool)
      modifies client`files, client`idle, client`mutations, client`clock, client`readBack
      ensures client.clock > old(client.clock) && client.files - {f} == old(client.files) - {f}
      ensures old(client.mutations) + [old(client.idle)] <= client.mutations && !client.idle
      ensures ok ==> AsReviewed(client.files, f, Some(content))
      ensures !ok ==> client.Trouble(old(client.clock), client.clock)
    {
      ghost var t := client.clock;
      ok := client.Mutate(f, Some(content));
      assert !ok ==> !client.Fine(t);
      if !ok { return; }
      ok := client.VerifyRemoteConfig(f, content);
      assert !ok ==> !client.Fine(t) || !client.Fine(t + 1);
    }

    /** Upload everything, read everything back again, check that the printer is idle. */
    method UploadAll() returns (ok: bool)
      requires Distinct(changes) && changes != [] && client.idle
      modifies client`files, client`idle, client`mutations, client`clock, client`readBack
      ensures client.clock > old(client.clock) && old(client.mutations) + [true] <= client.mutations
      ensures client.files - Names(changes) == old(client.files) - Names(changes)
      ensures ok ==> client.idle && client.files == Proposed(old(client.files), changes)
      ensures ok ==> Names(changes) <= client.readBack
      ensures !ok ==> client.Trouble(old(client.clock), client.clock)
    {
      ghost var before := client.files;
      ok := UploadEach();
      if !ok { return; }
      ok := VerifyAll();
      if !ok { return; }
      ProposalReached(before, client.files, changes);
      ok := client.EnsureIdleReady();
      assert !ok ==> !client.Fine(client.clock - 1);
    }

    /** The second loop of the try block: each file is read back once more. */
    method VerifyAll() returns (ok: bool)
      requires forall k :: 0 <= k < |changes| ==> AsReviewed(client.files, changes[k].0, Some(changes[k].1))
      modifies client`clock, client`readBack
      ensures client.clock >= old(client.clock) && (!ok ==> client.Trouble(old(client.clock), client.clock))
      ensures ok ==> forall k :: 0 <= k < |changes| ==> changes[k].0 in client.readBack
    {
      ok := true;
      for i := 0 to |changes|
        invariant client.clock >= old(client.clock)
        invariant forall k :: 0 <= k < i ==> changes[k].0 in client.readBack
      {
        assert AsReviewed(client.files, changes[i].0, Some(changes[i].1));
        ok := client.VerifyRemoteConfig(changes[i].0, changes[i].1);
        assert !ok ==> !client.Fine(client.clock - 1);
        if !ok { return; }
      }
    }

    /** Put one file back as it was reviewed, and check that it is. */
    method RestoreOne(f: Filename) returns (ok: bool)
      requires f in originals
      modifies client`files, client`idle, client`mutations, client`clock, client`readBack
      ensures client.clock >= old(client.clock) && old(client.mutations) <= client.mutations
      ensures client.idle ==> old(client.idle)
      ensures client.files - {f} == old(client.files) - {f}
      ensures ok ==> AsReviewed(client.files, f, originals[f])
      ensures client.HealthyFrom(old(client.clock)) ==> ok
    {
      match originals[f] {
        case None => ok := RemoveOne(f);
        case Some(content) => ok := UploadOne(f, content);
      }
    }

    method RemoveOne(f: Filename) returns (ok: bool)
      modifies client`files, client`idle, client`mutations, client`clock, client`readBack
      ensures client.clock >= old(client.clock) && old(client.mutations) <= client.mutations
      ensures client.idle ==> old(client.idle)
      ensures client.files - {f} == old(client.files) - {f}
      ensures ok ==> f !in client.files
      ensures client.HealthyFrom(old(client.clock)) ==> ok
    {
      ghost var healthy := client.HealthyFrom(client.clock);
      assert healthy ==> client.Fine(client.clock) && client.Fine(client.clock + 1) && client.Fine(client.clock + 2);
      var listed := client.RemoteConfigPaths();
      if listed.Raised? { return false; }
      if f in listed.value {
        ok := client.Mutate(f, None);
        if !ok { return; }
      }
      listed := client.RemoteConfigPaths();
      ok := listed.Ok? && f !in listed.value;
    }

    /** Every changed file, last first; an error on one does not stop the others. */
    method RollBack() returns (clean: bool)
      requires Distinct(changes) && Names(changes) <= originals.Keys
      modifies client`files, client`idle, client`mutations, client`clock, client`readBack
      ensures client.clock >= old(client.clock) && old(client.mutations) <= client.mutations
      ensures client.idle ==> old(client.idle)
      ensures client.files - Names(changes) == old(client.files) - Names(changes)
      ensures clean ==> forall i :: 0 <= i < |changes| ==>
        AsReviewed(client.files, changes[i].0, originals[changes[i].0])
      ensures client.HealthyFrom(old(client.clock)) ==> clean
    {
      clean := true;
      ghost var before := client.files;
      for i := |changes| downto 0
        invariant client.clock >= old(client.clock) && old(client.mutations) <= client.mutations
        invariant client.idle ==> old(client.idle)
        invariant client.files - Names(changes) == before - Names(changes)
        invariant clean ==> forall k :: i <= k < |changes| ==>
          AsReviewed(client.files, changes[k].0, originals[changes[k].0])
        invariant client.HealthyFrom(old(client.clock)) ==> clean
      {
        var f := changes[i].0;
        assert f in Names(changes);
        ghost var here := client.files;
        var ok := RestoreOne(f);
        assert client.files - Names(changes) == (client.files - {f}) - Names(changes) == (here - {f}) - Names(changes);
        forall k | i < k < |changes| && AsReviewed(here, changes[k].0, originals[changes[k].0])
          ensures AsReviewed(client.files, changes[k].0, originals[changes[k].0])
        {
          SameElsewhere(here, client.files, f, changes[k].0);
        }
        clean := clean && ok;
      }
    }

    /** apply_config_transaction; `broken` is when the rollback begins. */
    method Apply() returns (o: Outcome, ghost broken: nat)
      requires Distinct(changes)
      modifies client
      // nobody else's file is touched
      ensures client.files - Names(changes) == old(client.files) - Names(changes)
      ensures o.Returned? && changes != [] ==>
        && old(AllAsReviewed(client.files, originals))
        && client.files == Proposed(old(client.files), changes)
        && client.restarts == old(client.restarts) + [(client.files, true)]
        && Restarts(client.observation, client.deadline)
      ensures o.Preflight? || changes == [] ==>
        client.files == old(client.files) && client.restarts == old(client.restarts)
        && client.mutations == old(client.mutations)
      ensures o.Restored? ==> client.files == old(client.files)
      // a restart is first asked for only on exactly the proposed files, and it, like the first
      // upload, only right after the printer was seen idle
      ensures old(client.restarts) <= client.restarts && old(client.mutations) <= client.mutations
      ensures |client.restarts| > |old(client.restarts)| ==>
        client.restarts[|old(client.restarts)|] == (Proposed(old(client.files), changes), true)
      ensures |client.mutations| > |old(client.mutations)| ==> client.mutations[|old(client.mutations)|]
      // by then every changed file has been read back since the last upload
      ensures |client.readBefore| - |old(client.readBefore)| == |client.restarts| - |old(client.restarts)|
      ensures |client.readBefore| > |old(client.readBefore)| ==>
        Names(changes) <= client.readBefore[|old(client.readBefore)|]
      // a call that fails after its restart restarts once more, on the files it leaves; "restored" says
      // that those are the original files, and that Klipper was seen ready on them
      ensures o.Restored? || o.Incomplete? ==>
        || client.restarts == old(client.restarts)
        || client.restarts ==
           old(client.restarts) + [(Proposed(old(client.files), changes), true), (client.files, false)]
      ensures o.Restored? && client.restarts != old(client.restarts) ==>
        Restarts(client.observation, client.deadline)
      // it raises only for a reason: before the first upload, the review or an answer; after it, an
      // answer; and where all answers of the rollback are good, it restores
      ensures o.Preflight? ==>
        || !(Names(changes) <= originals.Keys) || !old(AllAsReviewed(client.files, originals))
        || client.Trouble(old(client.clock), client.clock)
      ensures o.Restored? || o.Incomplete? ==>
        old(client.clock) <= broken <= client.clock && client.Trouble(old(client.clock), broken)
      ensures o.Incomplete? ==> !client.HealthyFrom(broken)
    {
      broken := client.clock;
      if changes == [] { return Returned, broken; }
      var checked := CheckReviewed();
      if !checked { return Preflight, broken; }
      ghost var before := client.files;
      var uploaded := UploadAll();
      if uploaded {
        var ready := client.FirmwareRestartAndWait();
        if ready == Ok(true) { return Returned, broken; }
        assert !client.Fine(client.clock - 1);
      }
      broken := client.clock;
      o := Recover(uploaded, before);
    }

    /** The rollback, and a second restart if the first was asked for. */
    method Recover(restarted: bool, ghost before: Files) returns (o: Outcome)
      requires Distinct(changes) && Names(changes) <= originals.Keys && AllAsReviewed(before, originals)
      requires client.files - Names(changes) == before - Names(changes)
      requires restarted ==> !client.idle
      modifies client
      ensures client.clock >= old(client.clock) && client.files - Names(changes) == before - Names(changes)
      ensures old(client.mutations) <= client.mutations && old(client.restarts) <= client.restarts
      ensures client.restarts == old(client.restarts) + if restarted then [(client.files, false)] else []
      ensures client.readBefore == old(client.readBefore) + if restarted then [client.readBack] else []
      ensures restarted && o.Restored? ==> Restarts(client.observation, client.deadline)
      ensures o.Restored? || o.Incomplete?
      ensures o.Restored? ==> client.files == before
      ensures client.HealthyFrom(old(client.clock)) ==> o.Restored?
    {
      var clean := RollBack();
      if clean { OriginalsReached(before, client.files, changes, originals); }
      if restarted {
        assert client.HealthyFrom(old(client.clock)) ==> client.Fine(client.clock);
        var restored := client.FirmwareRestartAndWait();
        clean := clean && restored == Ok(true);
      }
      o := if clean then Restored else Incomplete;
    }
  }

  lemma SameElsewhere(a: Files, b: Files, f: Filename, g: Filename)
    requires a - {f} == b - {f} && g != f
    ensures g in a <==> g in b
    ensures g in a ==> a[g] == b[g]
  {
    assert g in a - {f} <==> g in b - {f};
    if g in a { assert (a - {f})[g] == (b - {f})[g]; }
  }
}
