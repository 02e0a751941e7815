/** The transfer-task handles the dispatcher tracks, and what its scans of
    the `senders` list are specified by. */
module Registry {
  import opened Records

  /** The dispatcher's view of one `Sender`, held through a shared pointer.
      The transfer itself runs on the sender's own thread, which is not
      modelled: the dispatcher only sets up the sender, starts it, asks it
      to cancel, and reads `done`. */
  class Sender {
    const uuid: string
    /** The `outgoing_sessions` row this sender was created for. */
    const jobId: int
    var destination: Option<Destination>
    var files: map<string, string>
    var started: bool
    var done: bool
    var cancelRequested: bool

    /** `new Sender(uuid, ...)`: bound to a job; nothing started yet. */
    constructor (uuid: string, jobId: int)
      ensures this.uuid == uuid && this.jobId == jobId
      ensures destination == None && files == map[]
      ensures !started && !done && !cancelRequested
    {
      this.uuid := uuid;
      this.jobId := jobId;
      destination := None;
      files := map[];
      started, done, cancelRequested := false, false, false;
    }

    /** `Initialize(destination)`: records where to send. */
    method Initialize(d: Destination)
      modifies this`destination
      ensures destination == Some(d)
    {
      destination := Some(d);
    }

    /** `SetFileList(files)`: the SOP-instance-UID to path map to send. */
    method SetFileList(f: map<string, string>)
      modifies this`files
      ensures files == f
    {
      files := f;
    }

    /** `DoSendAsync()`: starts the sender's thread and returns at once. */
    method DoSendAsync()
      modifies this`started
      ensures started
    {
      started := true;
    }

    /** `Cancel()`: a cooperative request; asking again changes nothing. */
    method Cancel()
      modifies this`cancelRequested
      ensures cancelRequested
    {
      cancelRequested := true;
    }

    /** `isUUID(uuid)` */
    predicate IsUUID(u: string)
    {
      uuid == u
    }
  }

  /** The registry after one reap pass: the handles whose task is not done,
      in their original order. */
  function Pending(s: seq<Sender>): (r: seq<Sender>)
    reads s`done
    ensures |r| <= |s|
    decreases |s|
  {
    if s == [] then []
    else Pending(s[..|s| - 1]) + (if s[|s| - 1].done then [] else [s[|s| - 1]])
  }

  /** One more element of the scan: the reap of a longer prefix. */
  lemma PendingStep(s: seq<Sender>, j: nat)
    requires j < |s|
    ensures Pending(s[..j + 1]) == Pending(s[..j]) + (if s[j].done then [] else [s[j]])
  {
    assert s[..j + 1][..j] == s[..j];
  }

  /** The reap loop's state after `j` elements of `orig`: the kept prefix,
      then the part not yet looked at, with the cursor `i` between them. */
  ghost predicate ScannedUpTo(orig: seq<Sender>, j: nat, cur: seq<Sender>, i: nat)
    reads orig`done
  {
    j <= |orig| && cur == Pending(orig[..j]) + orig[j..] && i == |Pending(orig[..j])|
  }

  /** Erasing the finished element under the cursor moves the scan on. */
  lemma EraseStep(orig: seq<Sender>, j: nat, cur: seq<Sender>, i: nat)
    requires ScannedUpTo(orig, j, cur, i) && j < |orig| && orig[j].done
    ensures i < |cur| && cur[i] == orig[j]
    ensures ScannedUpTo(orig, j + 1, cur[..i] + cur[i + 1..], i)
  {
    PendingStep(orig, j);
    assert orig[j..] == [orig[j]] + orig[j + 1..];
  }

  /** Stepping over the live element under the cursor moves the scan on. */
  lemma KeepStep(orig: seq<Sender>, j: nat, cur: seq<Sender>, i: nat)
    requires ScannedUpTo(orig, j, cur, i) && j < |orig| && !orig[j].done
    ensures i < |cur| && cur[i] == orig[j]
    ensures ScannedUpTo(orig, j + 1, cur, i + 1)
  {
    PendingStep(orig, j);
    assert orig[j..] == [orig[j]] + orig[j + 1..];
  }

  /** The scan starts with nothing looked at and the cursor at the front. */
  lemma ScanStart(orig: seq<Sender>)
    ensures ScannedUpTo(orig, 0, orig, 0)
  {
    assert orig[..0] == [] && orig[0..] == orig;
  }

  /** The scan ends exactly when the whole list has been looked at. */
  lemma ScanEnd(orig: seq<Sender>, j: nat, cur: seq<Sender>, i: nat)
    requires ScannedUpTo(orig, j, cur, i) && i >= |cur|
    ensures j == |orig| && cur == Pending(orig)
  {
    assert j == |orig|;
    assert orig[..j] == orig;
  }

  /** A reap removes exactly the finished handles. */
  lemma {:induction false} PendingExactly(s: seq<Sender>)
    ensures forall h :: h in Pending(s) ==> h in s && !h.done
    ensures forall h :: h in s && !h.done ==> h in Pending(s)
    decreases |s|
  {
    if s != [] {
      var init, last := s[..|s| - 1], s[|s| - 1];
      PendingExactly(init);
      assert s == init + [last];
      forall h | h in s && !h.done ensures h in Pending(s) {
        if h != last { assert h in init; }
      }
    }
  }

  /** A reap keeps relative order: it works piecewise on any split of the
      list. */
  lemma {:induction false} PendingConcat(a: seq<Sender>, b: seq<Sender>)
    ensures Pending(a + b) == Pending(a) + Pending(b)
    decreases |b|
  {
    if b == [] {
      assert a + b == a;
    } else {
      var init, last := b[..|b| - 1], b[|b| - 1];
      assert (a + b)[..|a + b| - 1] == a + init;
      assert (a + b)[|a + b| - 1] == last;
      PendingConcat(a, init);
    }
  }

  /** A list without finished handles is left as it is. */
  lemma {:induction false} PendingAllLive(s: seq<Sender>)
    requires forall h :: h in s ==> !h.done
    ensures Pending(s) == s
    decreases |s|
  {
    if s != [] {
      var init := s[..|s| - 1];
      assert forall h :: h in init ==> h in s;
      PendingAllLive(init);
      assert s[|s| - 1] in s;
      assert s == init + [s[|s| - 1]];
    }
  }

  /** A second reap in a row removes nothing. */
  lemma PendingIdempotent(s: seq<Sender>)
    ensures Pending(Pending(s)) == Pending(s)
  {
    PendingExactly(s);
    PendingAllLive(Pending(s));
  }

  /** The position of the first handle whose uuid is `uuid`, if any: what
      `cancelSend` acts on. */
  function FirstMatch(s: seq<Sender>, uuid: string): (r: Option<nat>)
    ensures r.Some? ==> r.value < |s| && s[r.value].uuid == uuid
    ensures r.Some? ==> forall j :: 0 <= j < r.value ==> s[j].uuid != uuid
    ensures r.None? <==> forall j :: 0 <= j < |s| ==> s[j].uuid != uuid
    decreases |s|
  {
    if s == [] then None
    else if s[0].IsUUID(uuid) then Some(0)
    else match FirstMatch(s[1..], uuid)
      case None => None
      case Some(k) => Some(k + 1)
  }
  /** One step of the reap loop: erase the handle under the cursor if its
      task is done, otherwise step over it. */
  method ReapStep(s: seq<Sender>, ghost j: nat, live: seq<Sender>, i: nat)
    returns (live': seq<Sender>, i': nat)
    requires ScannedUpTo(s, j, live, i) && i < |live|
    ensures ScannedUpTo(s, j + 1, live', i')
  {
    if live[i].done {
      EraseStep(s, j, live, i);
      live', i' := live[..i] + live[i + 1..], i;
    } else {
      KeepStep(s, j, live, i);
      live', i' := live, i + 1;
    }
  }

  /** The reap loop: walk the list once with a cursor, erasing each handle
      whose task is done and keeping the others in order. */
  method EraseDone(s: seq<Sender>) returns (live: seq<Sender>)
    ensures live == Pending(s)
  {
    ghost var j := 0;
    live := s;
    var i: nat := 0;
    ScanStart(s);
    while i < |live|
      invariant ScannedUpTo(s, j, live, i)
      decreases |s| - j
    {
      live, i := ReapStep(s, j, live, i);
      j := j + 1;
    }
    ScanEnd(s, j, live, i);
  }

  /** One step of the drain pass: erase the handle under the cursor if its
      task is done, otherwise ask it to cancel and step over it. */
  method CancelStep(s: seq<Sender>, ghost j: nat, live: seq<Sender>, i: nat)
    returns (live': seq<Sender>, i': nat)
    requires ScannedUpTo(s, j, live, i) && i < |live|
    modifies s`cancelRequested
    ensures ScannedUpTo(s, j + 1, live', i')
    ensures live'[..i'] == live[..i] + (if s[j].done then [] else [s[j]])
    ensures forall h :: h in s ==> h.cancelRequested == (old(h.cancelRequested) || (h == s[j] && !h.done))
  {
    if live[i].done {
      EraseStep(s, j, live, i);
      live', i' := live[..i] + live[i + 1..], i;
    } else {
      KeepStep(s, j, live, i);
      live[i].Cancel();
      live', i' := live, i + 1;
    }
  }

  /** One pass of the drain loop: the same walk, asking every handle it
      keeps to cancel. */
  method CancelPending(s: seq<Sender>) returns (live: seq<Sender>)
    modifies s`cancelRequested
    ensures live == Pending(s)
    ensures forall h :: h in s ==> h.cancelRequested == (old(h.cancelRequested) || !h.done)
  {
    ghost var j := 0;
    live := s;
    var i: nat := 0;
    while i < |live|
      invariant ScannedUpTo(s, j, live, i)
      invariant forall h :: h in s ==> h.cancelRequested == (old(h.cancelRequested) || h in live[..i])
      decreases |s| - j
    {
      live, i := CancelStep(s, j, live, i);
      j := j + 1;
    }
    ScanEnd(s, j, live, i);
    assert live[..i] == live;
    PendingExactly(s);
  }
}
