/** The conditional update at the heart of the job claim, as an atomic step
    on the `outgoing_sessions` table (a map from id to row), and what any
    serialisation of competing claimants' updates does to that table. */
module Claims {
  import opened Records

  /** The table after an update, and the affected-row count that
      `SELECT ROW_COUNT()` reports for it. */
  datatype Update = Update(table: map<int, Job>, rowCount: nat)

  /** Two versions of a row that differ at most in the `queued` flag. */
  predicate SameButQueued(a: Job, b: Job)
  {
    a.id == b.id && a.uuid == b.uuid && a.studyInstanceUid == b.studyInstanceUid && a.destinationId == b.destinationId
  }

  /** `UPDATE outgoing_sessions SET queued = 0 WHERE id = ? AND queued = 1`. */
  function ClearQueued(jobs: map<int, Job>, id: int): (u: Update)
    ensures u.table.Keys == jobs.Keys
    ensures forall k :: k in jobs && k != id ==> u.table[k] == jobs[k]
    ensures id in jobs ==> SameButQueued(u.table[id], jobs[id]) && !u.table[id].queued
    ensures u.rowCount <= 1
    ensures u.rowCount > 0 <==> id in jobs && jobs[id].queued
  {
    if id in jobs && jobs[id].queued then Update(jobs[id := jobs[id].(queued := false)], 1)
    else Update(jobs, 0)
  }

  /** The table after the conditional updates of several claimants, applied
      one at a time in the order the store serialises them. Nothing but the
      `queued` flag ever changes, it is never set, and every attempted row
      ends up unqueued. */
  function Serialize(jobs: map<int, Job>, attempts: seq<int>): (r: map<int, Job>)
    ensures r.Keys == jobs.Keys
    ensures forall k :: k in jobs ==> SameButQueued(r[k], jobs[k])
    ensures forall k :: k in jobs ==> (r[k].queued <==> jobs[k].queued && k !in attempts)
    decreases |attempts|
  {
    if attempts == [] then jobs
    else Serialize(ClearQueued(jobs, attempts[0]).table, attempts[1..])
  }

  /** How many of the attempts, in that order, observe a positive row count
      for row `x`: how many claimants believe they own it. */
  function Wins(jobs: map<int, Job>, attempts: seq<int>, x: int): nat
    decreases |attempts|
  {
    if attempts == [] then 0
    else
      var u := ClearQueued(jobs, attempts[0]);
      (if attempts[0] == x && u.rowCount > 0 then 1 else 0) + Wins(u.table, attempts[1..], x)
  }

  /** At most one claimant: however many dispatchers race on row `x`, and
      in whatever order their updates land, exactly one wins if the row was
      queued and was attempted at all, and none otherwise. In particular a
      second attempt on a row just claimed affects no row. */
  lemma {:induction false} AtMostOneClaimant(jobs: map<int, Job>, attempts: seq<int>, x: int)
    ensures Wins(jobs, attempts, x) <= 1
    ensures Wins(jobs, attempts, x) == 1 <==> x in jobs && jobs[x].queued && x in attempts
  {
    if attempts != [] {
      var u := ClearQueued(jobs, attempts[0]);
      AtMostOneClaimant(u.table, attempts[1..], x);
      assert x in attempts <==> x == attempts[0] || x in attempts[1..];
    }
  }

  /** The table after one dispatcher's claim of `pick`, the row it selected:
      the rivals' updates land between its SELECT and its UPDATE, and its own
      UPDATE is lost only if the store throws on it. */
  function AfterClaim(jobs: map<int, Job>, pick: int, rivals: seq<int>, faults: set<Query>): (r: map<int, Job>)
    ensures r.Keys == jobs.Keys
    ensures forall k :: k in jobs ==> SameButQueued(r[k], jobs[k])
    ensures forall k :: k in jobs && k != pick ==> (r[k].queued <==> jobs[k].queued && k !in rivals)
    ensures pick in jobs ==>
              (r[pick].queued <==> jobs[pick].queued && pick !in rivals && UpdateQueued(pick) in faults)
  {
    var t := Serialize(jobs, rivals);
    if UpdateQueued(pick) in faults then t else ClearQueued(t, pick).table
  }

  /** What one `getQueued` call does to the table and reports. `pick` is the
      row its `SELECT ... WHERE queued = 1 LIMIT 1` returned, if any;
      `session` is the caller's out-parameter, left as `current` unless the
      claim succeeds, and then the row as selected (its `queued` still set). */
  ghost predicate ClaimOutcome(before: map<int, Job>, after: map<int, Job>, faults: set<Query>,
                               rivals: seq<int>, current: Job, claimed: bool, session: Job,
                               pick: Option<int>)
  {
    && (pick.None? <==> SelectQueued in faults || forall id :: id in before ==> !before[id].queued)
    && (pick.Some? ==> pick.value in before && before[pick.value].queued)
    && after == (if pick.None? then before else AfterClaim(before, pick.value, rivals, faults))
    && (claimed <==> && pick.Some? && pick.value !in rivals
                     && UpdateQueued(pick.value) !in faults && SelectRowCount !in faults)
    && (claimed ==> session == before[pick.value])
    && (!claimed ==> session == current)
  }

  /** A claim succeeds only when the selected row was queued and the
      conditional update affected a row; it then leaves that row unqueued
      and every other row as the rivals left it. */
  lemma ClaimedRow(before: map<int, Job>, after: map<int, Job>, faults: set<Query>, rivals: seq<int>,
                   current: Job, session: Job, pick: Option<int>)
    requires ClaimOutcome(before, after, faults, rivals, current, true, session, pick)
    ensures pick.Some? && before[pick.value].queued
    ensures ClearQueued(Serialize(before, rivals), pick.value).rowCount > 0
    ensures !after[pick.value].queued
    ensures forall k :: k in after && k != pick.value ==> after[k] == Serialize(before, rivals)[k]
  {
  }

  /** Two dispatchers that selected the same row: if the first one's update
      lands before the second one's (it is among the second's rivals), the
      second claim fails, whatever else happens. */
  lemma LostRace(before: map<int, Job>, after: map<int, Job>, faults: set<Query>, rivals: seq<int>,
                 current: Job, claimed: bool, session: Job, x: int)
    requires ClaimOutcome(before, after, faults, rivals, current, claimed, session, Some(x))
    requires x in rivals
    ensures !claimed && session == current
    ensures x in after ==> !after[x].queued
  {
  }

  /** What claims and rivals' updates can do to the table, however many of
      them: keep every row and every column but `queued`, and never set
      `queued`. No row is inserted or re-queued. */
  ghost predicate OnlyCleared(before: map<int, Job>, after: map<int, Job>)
  {
    && after.Keys == before.Keys
    && forall id :: id in before ==>
         SameButQueued(after[id], before[id]) && (after[id].queued ==> before[id].queued)
  }

  /** A claim keeps the table within `OnlyCleared`. */
  lemma ClaimClears(before: map<int, Job>, after: map<int, Job>, faults: set<Query>,
                    rivals: seq<int>, current: Job, claimed: bool, session: Job, pick: Option<int>)
    requires ClaimOutcome(before, after, faults, rivals, current, claimed, session, pick)
    ensures OnlyCleared(before, after)
  {
  }

  /** `OnlyCleared` composes, so it holds across any number of claims. */
  lemma OnlyClearedTrans(a: map<int, Job>, b: map<int, Job>, c: map<int, Job>)
    requires OnlyCleared(a, b) && OnlyCleared(b, c)
    ensures OnlyCleared(a, c)
  {
  }
}
