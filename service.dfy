/** The dispatcher, `SenderService`: it claims queued jobs, starts a sender
    for each, keeps the running senders in a list, reaps finished ones, and
    on shutdown cancels and drains them all. */
module Service {
  import opened Records
  import opened Claims
  import opened Paths
  import opened Enumeration
  import opened Registry

  /** What the rest of the world does during one pass of the main loop:
      which store calls throw, which other dispatchers' conditional updates
      land between this one's SELECT and its UPDATE, and whether the host
      calls `stop()` before the loop next looks at the flag. */
  datatype Round = Round(faults: set<Query>, rivals: seq<int>, stopAfter: bool)

  /** The first round after which the host asks for shutdown. */
  function FirstStop(rounds: seq<Round>): (r: nat)
    requires exists k :: 0 <= k < |rounds| && rounds[k].stopAfter
    ensures r < |rounds| && rounds[r].stopAfter
    ensures forall j :: 0 <= j < r ==> !rounds[j].stopAfter
    decreases |rounds|
  {
    if rounds[0].stopAfter then 0
    else
      assert exists k :: 0 <= k < |rounds[1..]| && rounds[1..][k].stopAfter by {
        var k :| 0 <= k < |rounds| && rounds[k].stopAfter;
        assert rounds[1..][k - 1] == rounds[k];
      }
      1 + FirstStop(rounds[1..])
  }

  /** The latest completion time among the given tasks. */
  ghost function Latest(s: seq<Sender>, doneAt: Sender -> nat): (r: nat)
    ensures forall h :: h in s ==> doneAt(h) <= r
    decreases |s|
  {
    if s == [] then 0
    else
      var rest := Latest(s[1..], doneAt);
      assert forall h :: h in s ==> h == s[0] || h in s[1..];
      if doneAt(s[0]) > rest then doneAt(s[0]) else rest
  }

  /** A default-constructed `OutgoingSession` and `Destination`. */
  const NoJob := Job(0, "", false, "", 0)
  const NoDestination := Destination(0, "", "", 0, "", "")

  class SenderService {
    /** The tables the service only reads. */
    const archive: Archive
    /** `config::getStoragePath()` */
    const storageRoot: string
    /** The `outgoing_sessions` table, shared with any other dispatcher. */
    var jobs: map<int, Job>
    /** The list of running senders, oldest first. */
    var senders: seq<Sender>
    var shutdownEvent: bool
    /** How many times `getQueued` has been called. */
    ghost var claims: nat
    /** Every sender this service has started, in the order it started them. */
    ghost var launched: seq<Sender>

    /** The table is keyed by row id, and every tracked sender belongs to a
        job that has been claimed (so no other claim can start it again). */
    ghost predicate Valid()
      reads this`jobs, this`senders
    {
      && (forall id :: id in jobs ==> jobs[id].id == id)
      && (forall h :: h in senders ==> h.jobId in jobs && !jobs[h.jobId].queued && jobs[h.jobId].uuid == h.uuid)
    }

    /** Every tracked sender has been started by this service, and every
        sender it started is either still tracked or has finished. */
    ghost predicate Accounted()
      reads this`senders, this`launched, launched`done
    {
      && (forall h :: h in senders ==> h in launched)
      && (forall h :: h in launched && h !in senders ==> h.done)
    }

    constructor (archive: Archive, storageRoot: string, jobs: map<int, Job>)
      requires forall id :: id in jobs ==> jobs[id].id == id
      ensures Valid() && Accounted()
      ensures this.archive == archive && this.storageRoot == storageRoot && this.jobs == jobs
      ensures senders == [] && !shutdownEvent
      ensures claims == 0 && launched == []
    {
      this.archive := archive;
      this.storageRoot := storageRoot;
      this.jobs := jobs;
      senders := [];
      shutdownEvent := false;
      claims, launched := 0, [];
    }

    /** `getQueued`: select some queued row, then clear its flag with an
        update conditional on the flag still being set, and succeed only if
        that update affected a row. Any store exception ends the attempt
        with false; the out-parameter is written only on success. */
    method GetQueued(faults: set<Query>, rivals: seq<int>, current: Job)
      returns (claimed: bool, session: Job, ghost pick: Option<int>)
      requires Valid()
      modifies this`jobs, this`claims
      ensures Valid()
      ensures claims == old(claims) + 1
      ensures ClaimOutcome(old(jobs), jobs, faults, rivals, current, claimed, session, pick)
      ensures claimed ==> session.id == pick.value && session.id in jobs
                          && !jobs[session.id].queued && jobs[session.id].uuid == session.uuid
    {
      claims := claims + 1;
      pick := None;
      claimed, session := false, current;
      if SelectQueued in faults {
        return;
      }
      if forall id :: id in jobs ==> !jobs[id].queued {
        return;
      }
      var id :| id in jobs && jobs[id].queued;
      var row := jobs[id];
      pick := Some(id);
      // other dispatchers' conditional updates land here
      jobs := Serialize(jobs, rivals);
      if UpdateQueued(row.id) in faults {
        return;
      }
      var u := ClearQueued(jobs, row.id);
      jobs := u.table;
      if SelectRowCount in faults {
        return;
      }
      if u.rowCount > 0 {
        claimed, session := true, row;
      }
    }

    /** `findDestination`: a lookup by id; a missing row or a store error
        yields false and leaves the out-parameter as it was. */
    method FindDestination(id: int, current: Destination, faults: set<Query>)
      returns (found: bool, destination: Destination)
      ensures found <==> SelectDestination(id) !in faults && id in archive.destinations
      ensures found ==> destination == archive.destinations[id]
      ensures !found ==> destination == current
    {
      found, destination := false, current;
      if SelectDestination(id) in faults {
        return;
      }
      if id in archive.destinations {
        found, destination := true, archive.destinations[id];
      }
    }

    /** The inner loop of `GetFilesToSend`: insert the file of each of one
        series' instances, all kept in `dir`, without overwriting. */
    method InsertSeriesFiles(files: map<string, string>, dir: string, instances: seq<Instance>)
      returns (r: map<string, string>)
      ensures r == InsertInstances(files, dir, instances)
    {
      r := files;
      var j := 0;
      while j < |instances|
        invariant 0 <= j <= |instances|
        invariant r == InsertInstances(files, dir, instances[..j])
      {
        InsertInstancesStep(files, dir, instances, j);
        var sop := instances[j].sopInstanceUid;
        r := Insert(r, sop, Append(dir, sop + ".dcm"));
        j := j + 1;
      }
      assert instances[..j] == instances;
    }

    /** `GetFilesToSend`: find the study, walk its series and their
        instances, and insert each instance's file into `result`. */
    method GetFilesToSend(studyUid: string, result: map<string, string>, faults: set<Query>)
      returns (ok: bool, files: map<string, string>)
      ensures Listing(ok, files) == Enumerate(archive, storageRoot, studyUid, faults, result)
    {
      ok, files := false, result;
      if SelectStudies(studyUid) in faults {
        return;
      }
      var studies := StudiesWithUid(archive, studyUid);
      if |studies| <= 0 {
        return;
      }
      if SelectSeries(studies[0].id) in faults {
        return;
      }
      var seriesList := SeriesOf(archive, studies[0].id);
      var i := 0;
      while i < |seriesList|
        invariant 0 <= i <= |seriesList|
        invariant FillSeries(archive, storageRoot, studyUid, faults, result, seriesList[..i]) == Listing(true, files)
      {
        var series := seriesList[i];
        FillSeriesStep(archive, storageRoot, studyUid, faults, result, seriesList, i);
        if SelectInstances(series.id) in faults {
          FailureSticks(archive, storageRoot, studyUid, faults, result, seriesList, i + 1);
          return;
        }
        files := InsertSeriesFiles(files, SeriesDir(storageRoot, studyUid, series.seriesInstanceUid),
                                   InstancesOf(archive, series.id));
        i := i + 1;
      }
      assert seriesList[..i] == seriesList;
      ok := true;
    }

    /** A sender that has been set up for `session` and started: bound to
        the job, given its destination and the study's files. */
    ghost predicate Launched(h: Sender, session: Job, faults: set<Query>)
      reads h`destination, h`files, h`started, h`cancelRequested
    {
      && h.uuid == session.uuid && h.jobId == session.id
      && session.destinationId in archive.destinations
      && h.destination == Some(archive.destinations[session.destinationId])
      && h.files == Enumerate(archive, storageRoot, session.studyInstanceUid, faults, map[]).files
      && h.started && !h.cancelRequested
    }

    /** What one pass's claim and dispatch did: the claim behaved as
        `ClaimOutcome` says, and a sender was started exactly when the
        claim, the destination lookup and the enumeration all succeeded. */
    ghost predicate Dispatched(before: map<int, Job>, after: map<int, Job>, faults: set<Query>,
                               rivals: seq<int>, dispatched: bool,
                               claimed: bool, session: Job, pick: Option<int>)
    {
      && ClaimOutcome(before, after, faults, rivals, NoJob, claimed, session, pick)
      && (dispatched <==>
            && claimed
            && SelectDestination(session.destinationId) !in faults
            && session.destinationId in archive.destinations
            && Enumerate(archive, storageRoot, session.studyInstanceUid, faults, map[]).ok)
    }

    /** A found destination's part of a pass: create the sender for
        `session` and initialise it, enumerate the study's files, and only
        if that succeeded hand the files over and start the sender. */
    method Prepare(session: Job, destination: Destination, faults: set<Query>)
      returns (ok: bool, sender: Sender)
      ensures fresh(sender)
      ensures sender.uuid == session.uuid && sender.jobId == session.id
      ensures sender.destination == Some(destination)
      ensures ok <==> Enumerate(archive, storageRoot, session.studyInstanceUid, faults, map[]).ok
      ensures ok ==> sender.files == Enumerate(archive, storageRoot, session.studyInstanceUid, faults, map[]).files
      ensures sender.started == ok && !sender.done && !sender.cancelRequested
    {
      sender := new Sender(session.uuid, session.id);
      sender.Initialize(destination);
      var files;
      ok, files := GetFilesToSend(session.studyInstanceUid, map[], faults);
      if ok {
        sender.SetFileList(files);
        sender.DoSendAsync();
      }
    }

    /** The rest of a pass after a successful claim: look up the
        destination, create and initialise a sender, enumerate the study's
        files, and only if both lookups succeeded hand the files over,
        start the sender and append it to the list. `added` is that sender,
        if any. */
    method StartSender(session: Job, faults: set<Query>) returns (dispatched: bool, ghost added: seq<Sender>)
      requires Valid()
      requires Accounted()
      requires session.id in jobs && !jobs[session.id].queued && jobs[session.id].uuid == session.uuid
      modifies this`senders, this`launched
      ensures Valid()
      ensures Accounted()
      ensures dispatched <==>
                && SelectDestination(session.destinationId) !in faults
                && session.destinationId in archive.destinations
                && Enumerate(archive, storageRoot, session.studyInstanceUid, faults, map[]).ok
      ensures |added| == (if dispatched then 1 else 0)
      ensures senders == old(senders) + added && launched == old(launched) + added
      ensures dispatched ==> fresh(added[0]) && Launched(added[0], session, faults) && !added[0].done
      ensures forall h :: h in launched ==> h in old(launched) || fresh(h)
    {
      dispatched, added := false, [];
      var found, destination := FindDestination(session.destinationId, NoDestination, faults);
      if found {
        var ok, sender := Prepare(session, destination, faults);
        if ok {
          assert Launched(sender, session, faults);
          ghost var before := senders;
          senders := senders + [sender];
          launched := launched + [sender];
          assert forall h :: h in senders ==> h in before || h == sender;
          dispatched, added := true, [sender];
        }
      }
    }

    /** One pass of the main loop up to the reap: claim a job and, if that
        succeeded, start a sender for it. */
    method DispatchStep(faults: set<Query>, rivals: seq<int>)
      returns (dispatched: bool, ghost added: seq<Sender>,
               ghost claimed: bool, ghost session: Job, ghost pick: Option<int>)
      requires Valid()
      requires Accounted()
      modifies this`jobs, this`claims, this`senders, this`launched
      ensures Valid()
      ensures Accounted()
      ensures claims == old(claims) + 1
      ensures Dispatched(old(jobs), jobs, faults, rivals, dispatched, claimed, session, pick)
      ensures |added| == if dispatched then 1 else 0
      ensures senders == old(senders) + added && launched == old(launched) + added
      ensures dispatched ==> fresh(added[0]) && Launched(added[0], session, faults) && !added[0].done
      ensures forall h :: h in launched ==> h in old(launched) || fresh(h)
    {
      dispatched, added := false, [];
      var gotJob, outgoing;
      gotJob, outgoing, pick := GetQueued(faults, rivals, NoJob);
      claimed, session := gotJob, outgoing;
      if gotJob {
        dispatched, added := StartSender(outgoing, faults);
      }
    }

    /** The reap after each pass of the main loop. */
    method Reap()
      requires Valid()
      requires Accounted()
      modifies this`senders
      ensures Valid()
      ensures Accounted()
      ensures senders == Pending(old(senders))
    {
      ghost var before := senders;
      senders := EraseDone(senders);
      PendingExactly(before);
    }

    /** One pass of the drain loop. */
    method DrainPass()
      requires Valid()
      requires Accounted()
      modifies this`senders, senders`cancelRequested
      ensures Valid()
      ensures Accounted()
      ensures senders == Pending(old(senders))
      ensures forall h :: h in old(senders) ==> h.cancelRequested == (old(h.cancelRequested) || !h.done)
    {
      ghost var before := senders;
      senders := CancelPending(senders);
      PendingExactly(before);
    }

    /** A backoff sleep. While the dispatcher sleeps the senders' threads
        run; `doneAt` says at which pass each task reports done, and every
        task whose time has come does so now. */
    method Elapse(now: nat, doneAt: Sender -> nat)
      requires Valid()
      requires Accounted()
      modifies senders`done
      ensures Valid()
      ensures Accounted()
      ensures forall h :: h in old(senders) ==> h.done == (old(h.done) || doneAt(h) <= now)
    {
      forall h | h in senders && doneAt(h) <= now {
        h.done := true;
      }
    }

    /** One round of the drain loop: a drain pass and, if senders remain, a
        sleep at pass `t`. The list kept is the reap of the list as it was
        when the round began: those erased had finished; those kept had not,
        have been asked to cancel, and finish during the sleep if their time
        has come. */
    method DrainRound(t: nat, doneAt: Sender -> nat)
      requires Valid()
      requires Accounted()
      modifies this`senders, senders`done, senders`cancelRequested
      ensures Valid()
      ensures Accounted()
      ensures forall i :: 0 <= i < |senders| ==> senders[i] in old(senders)
      ensures forall h :: h in senders ==> !old(h.done)
      ensures forall h :: h in old(senders) && h !in senders ==> h.done
      ensures forall h :: h in old(senders) && old(h.done) ==> h.done
      ensures forall h :: h in old(senders) ==> h.cancelRequested == (old(h.cancelRequested) || !old(h.done))
      ensures forall h :: h in senders && doneAt(h) <= t ==> h.done
      ensures senders == old(Pending(senders))
    {
      ghost var before := senders;
      DrainPass();
      assert senders == old(Pending(senders));
      PendingExactly(before);
      assert forall i :: 0 <= i < |senders| ==> senders[i] in Pending(before);
      if |senders| > 0 {
        Elapse(t, doneAt);
      }
    }

    /** `DrainRound` as the drain loop's invariant needs it: the exact list
        kept is summed up as membership and liveness facts. */
    method LoopDrainRound(t: nat, doneAt: Sender -> nat)
      requires Valid()
      requires Accounted()
      modifies this`senders, senders`done, senders`cancelRequested
      ensures Valid()
      ensures Accounted()
      ensures forall i :: 0 <= i < |senders| ==> senders[i] in old(senders)
      ensures forall h :: h in senders ==> !old(h.done)
      ensures forall h :: h in old(senders) && h !in senders ==> h.done
      ensures forall h :: h in old(senders) && old(h.done) ==> h.done
      ensures forall h :: h in old(senders) ==> h.cancelRequested == (old(h.cancelRequested) || !old(h.done))
      ensures forall h :: h in senders && doneAt(h) <= t ==> h.done
    {
      DrainRound(t, doneAt);
    }

    /** The drain loop: repeat drain rounds until the list is empty. It
        ends because every task finishes at some pass; by then every sender
        tracked at its start has finished, and each that was still running
        has been asked to cancel. */
    method Drain(now: nat, doneAt: Sender -> nat)
      requires Valid()
      requires Accounted()
      modifies this`senders, senders`done, senders`cancelRequested
      ensures Valid() && senders == []
      ensures Accounted()
      ensures forall h :: h in old(senders) ==> h.done
      ensures forall h :: h in old(senders) && !old(h.done) ==> h.cancelRequested
    {
      ghost var initial := senders;
      ghost var bound := if Latest(initial, doneAt) > now then Latest(initial, doneAt) else now;
      ghost var passed := false;
      var t := now;
      while |senders| > 0
        invariant Valid()
        invariant Accounted()
        invariant now <= t <= bound + 1
        invariant forall i :: 0 <= i < |senders| ==> senders[i] in initial
        invariant t > now ==> forall h :: h in senders && doneAt(h) < t ==> h.done
        invariant forall h :: h in initial && h !in senders ==> h.done
        invariant !passed ==> senders == initial && forall h :: h in initial ==> h.done == old(h.done)
        invariant passed ==> forall h :: h in initial && !old(h.done) ==> h.cancelRequested
        decreases bound + 1 - t, |senders|
      {
        ghost var before := senders;
        label RoundStart:
        LoopDrainRound(t, doneAt);
        passed := true;
        if |senders| > 0 {
          // a task still listed had not finished when the round began
          assert t <= bound by {
            var h := senders[0];
            assert h in before && !old@RoundStart(h.done);
          }
          t := t + 1;
        }
      }
    }

    /** `stop()`: raise the shutdown flag. */
    method Stop()
      modifies this`shutdownEvent
      ensures shutdownEvent && ShouldShutdown()
    {
      shutdownEvent := true;
    }

    /** `shouldShutdown()` */
    function ShouldShutdown(): bool
      reads this`shutdownEvent
    {
      shutdownEvent
    }

    /** The rest of a pass of the main loop: let time pass while the
        senders run, reap, and raise the flag if the host asks for shutdown
        meanwhile. The list left is the reap of the list after the sleep. */
    method Settle(k: nat, stopAfter: bool, doneAt: Sender -> nat)
      requires Valid()
      requires Accounted()
      modifies this`senders, this`shutdownEvent, senders`done
      ensures Valid()
      ensures Accounted()
      ensures shutdownEvent == (old(shutdownEvent) || stopAfter)
      ensures forall h :: h in old(senders) ==> h.done == (old(h.done) || doneAt(h) <= k)
      ensures senders == Pending(old(senders))
    {
      Elapse(k, doneAt);
      Reap();
      if stopAfter {
        Stop();
      }
    }

    /** `DispatchStep` as the main loop calls it: the same outcome, with
        the claim's effect on the table also summed up as `OnlyCleared`
        from where the loop started. */
    method LoopDispatch(faults: set<Query>, rivals: seq<int>, ghost start: map<int, Job>)
      returns (dispatched: bool, ghost added: seq<Sender>,
               ghost claimed: bool, ghost session: Job, ghost pick: Option<int>)
      requires Valid() && OnlyCleared(start, jobs)
      requires Accounted()
      modifies this`jobs, this`claims, this`senders, this`launched
      ensures Valid() && OnlyCleared(start, jobs)
      ensures Accounted()
      ensures claims == old(claims) + 1
      ensures Dispatched(old(jobs), jobs, faults, rivals, dispatched, claimed, session, pick)
      ensures |added| == if dispatched then 1 else 0
      ensures senders == old(senders) + added && launched == old(launched) + added
      ensures dispatched ==> fresh(added[0]) && Launched(added[0], session, faults) && !added[0].done
      ensures forall h :: h in launched ==> h in old(launched) || fresh(h)
    {
      dispatched, added, claimed, session, pick := DispatchStep(faults, rivals);
      ClaimClears(old(jobs), jobs, faults, rivals, NoJob, claimed, session, pick);
      OnlyClearedTrans(start, old(jobs), jobs);
    }

    /** The main loop of `run_internal`: until the flag is seen, claim and
        dispatch, then let time pass and reap. It returns the number of
        passes made, one `getQueued` call each and none once the flag has
        been seen. At most one sender is started per pass, and the job
        table has only lost `queued` flags. */
    method MainLoop(rounds: seq<Round>, doneAt: Sender -> nat) returns (k: nat)
      requires Valid()
      requires Accounted()
      requires shutdownEvent || exists k :: 0 <= k < |rounds| && rounds[k].stopAfter
      modifies this`jobs, this`claims, this`senders, this`launched, this`shutdownEvent, launched`done
      ensures Valid() && shutdownEvent
      ensures Accounted()
      ensures k == if old(shutdownEvent) then 0 else FirstStop(rounds) + 1
      ensures claims == old(claims) + k
      ensures OnlyCleared(old(jobs), jobs)
      ensures |old(launched)| <= |launched| <= |old(launched)| + k
      ensures launched[..|old(launched)|] == old(launched)
      ensures forall h :: h in launched ==> h in old(launched) || fresh(h)
    {
      k := 0;
      while !ShouldShutdown()
        invariant Valid()
        invariant Accounted()
        invariant !shutdownEvent ==> !old(shutdownEvent) && k <= FirstStop(rounds)
        invariant shutdownEvent ==> k == if old(shutdownEvent) then 0 else FirstStop(rounds) + 1
        invariant claims == old(claims) + k
        invariant OnlyCleared(old(jobs), jobs)
        invariant |old(launched)| <= |launched| <= |old(launched)| + k
        invariant launched[..|old(launched)|] == old(launched)
        invariant forall h :: h in launched ==> h in old(launched) || fresh(h)
        decreases if old(shutdownEvent) then 0 else FirstStop(rounds) + 1 - k
      {
        ghost var prev := launched;
        var dispatched;
        ghost var added, claimed, session, pick;
        dispatched, added, claimed, session, pick := LoopDispatch(rounds[k].faults, rounds[k].rivals, old(jobs));
        forall i | 0 <= i < |senders|
          ensures senders[i] in old(launched) || fresh(senders[i])
        {
          assert senders[i] in launched;
        }
        Settle(k, rounds[k].stopAfter, doneAt);
        k := k + 1;
      }
    }

    /** `run_internal`: the main loop, then the drain. When it returns the
        flag is raised and the list is empty; `getQueued` was called once per
        pass until the flag was seen; every sender started meanwhile, and
        every one running at the start, has finished; and the job table has
        only lost `queued` flags. */
    method RunInternal(rounds: seq<Round>, doneAt: Sender -> nat)
      requires Valid()
      requires Accounted()
      requires shutdownEvent || exists k :: 0 <= k < |rounds| && rounds[k].stopAfter
      modifies this`jobs, this`claims, this`senders, this`launched, this`shutdownEvent
      modifies launched`done, launched`cancelRequested
      ensures Valid() && shutdownEvent && senders == []
      ensures Accounted()
      ensures claims == old(claims) + if old(shutdownEvent) then 0 else FirstStop(rounds) + 1
      ensures OnlyCleared(old(jobs), jobs)
      ensures |old(launched)| <= |launched| <= |old(launched)| + (claims - old(claims))
      ensures launched[..|old(launched)|] == old(launched)
      ensures forall h :: h in launched ==> h.done
      ensures forall h :: h in old(senders) ==> h.done
    {
      var k := MainLoop(rounds, doneAt);
      forall i | 0 <= i < |senders|
        ensures senders[i] in old(launched) || fresh(senders[i])
      {
        assert senders[i] in launched;
      }
      Drain(k, doneAt);
      forall h | h in old(senders)
        ensures h in launched
      {
        assert h in old(launched);
        var i :| 0 <= i < |old(launched)| && old(launched)[i] == h;
        assert launched[i] == h;
      }
    }

    /** `cancelSend`: ask the first sender with the given uuid to cancel.
        The list itself is not changed, and no other sender is touched. */
    method CancelSend(uuid: string) returns (found: bool)
      modifies senders`cancelRequested
      ensures senders == old(senders)
      ensures found <==> FirstMatch(senders, uuid).Some?
      ensures found ==> senders[FirstMatch(senders, uuid).value].cancelRequested
      ensures forall h :: h in senders && (found ==> h != senders[FirstMatch(senders, uuid).value]) ==>
                h.cancelRequested == old(h.cancelRequested)
    {
      var i := 0;
      while i < |senders|
        invariant 0 <= i <= |senders|
        invariant forall j :: 0 <= j < i ==> senders[j].uuid != uuid
      {
        if senders[i].IsUUID(uuid) {
          senders[i].Cancel();
          return true;
        }
        i := i + 1;
      }
      return false;
    }
  }
}
