/** XAUTOCLAIM's cursor: what one call looks at, and what a whole sweep leaves behind. */
module OrphanScan {
  import opened Prelude
  import opened Delivery
  import opened DeliverySafety

  const CLAIM_ATTEMPTS := 10 * XAUTOCLAIM_COUNT

  predicate Idle(s: State, id: Id, now: int) {
    id in s.pending && now - s.pending[id].at >= XAUTOCLAIM_IDLE_MS
  }

  /**
    Redis walks the pending list upwards from `from`, past entries that are not idle, taking
    at most `count` and looking at no more than `attempts`; it returns the ids taken and the
    next cursor, 0 at the end of the list.
   */
  function Scan(s: State, now: int, from: nat, count: nat, attempts: nat): (seq<Id>, nat)
    decreases |s.log| - from
  {
    if from >= |s.log| then ([], 0)
    else if from !in s.pending then Scan(s, now, from + 1, count, attempts)
    else if count == 0 || attempts == 0 then ([], from)
    else if from < s.trimmed || Idle(s, from, now) then
      var (rest, next) := Scan(s, now, from + 1, count - 1, attempts - 1);
      ([from] + rest, next)
    else Scan(s, now, from + 1, count, attempts - 1)
  }

  /** The part of the list a scan has dealt with: below the next cursor, or all of it. */
  predicate Passed(id: Id, next: nat) {
    next == 0 || id < next
  }

  /** The ids taken are those, and only those, that the scan passed and may take. */
  lemma {:induction false} ScanTakes(s: State, now: int, from: nat, count: nat, attempts: nat)
    requires from > 0 || (count > 0 && attempts > 0)
    ensures
      var (ids, next) := Scan(s, now, from, count, attempts);
      && |ids| <= count
      && (forall i, j :: 0 <= i < j < |ids| ==> ids[i] < ids[j])
      && (forall id: Id :: id in ids ==> from <= id && id in s.pending && (id < s.trimmed || Idle(s, id, now)))
      && (forall id: Id :: from <= id < |s.log| && Passed(id, next) && id in s.pending ==>
            id in ids || (s.trimmed <= id && !Idle(s, id, now)))
      && (next == 0 || (from <= next < |s.log| && (count > 0 && attempts > 0 ==> from < next)))
    decreases |s.log| - from
  {
    if from < |s.log| {
      hide Idle;
      if from !in s.pending {
        ScanTakes(s, now, from + 1, count, attempts);
      } else if count > 0 && attempts > 0 {
        if from < s.trimmed || Idle(s, from, now) {
          ScanTakes(s, now, from + 1, count - 1, attempts - 1);
          var rest := Scan(s, now, from + 1, count - 1, attempts - 1).0;
          assert forall i :: 0 <= i < |rest| ==> rest[i] in rest;
        } else {
          ScanTakes(s, now, from + 1, count, attempts - 1);
        }
      }
    }
  }

  /** How many pending entries lie in [from, to). */
  function PendingIn(s: State, from: nat, to: nat): nat
    decreases to - from
  {
    if from >= to then 0 else PendingIn(s, from + 1, to) + if from in s.pending then 1 else 0
  }

  /** How many of them are gone from the stream: XAUTOCLAIM deletes those, and each counts as one taken. */
  function GoneIn(s: State, from: nat, to: nat): nat
    decreases to - from
  {
    if from >= to then 0 else GoneIn(s, from + 1, to) + if from in s.pending && from < s.trimmed then 1 else 0
  }

  /** An entry a call may claim: still in the stream and idle. */
  predicate Orphan(s: State, id: Id, now: int) {
    s.trimmed <= id && Idle(s, id, now)
  }

  /** What one call claims: the code's `claimed`, without the entries that were only deleted. */
  function Claimed(s: State, now: int, from: nat, count: nat, attempts: nat): seq<Id> {
    Select<Id>(Scan(s, now, from, count, attempts).0, Retained(s.trimmed))
  }

  lemma {:induction false} ClaimsSome(ids: seq<Id>, trimmed: nat)
    ensures Select<Id>(ids, Retained(trimmed)) != [] <==> exists id: Id :: id in ids && trimmed <= id
  {
    var kept := Select<Id>(ids, Retained(trimmed));
    if kept != [] {
      SelectMember<Id>(ids, Retained(trimmed), kept[0]);
    }
    if id: Id :| id in ids && trimmed <= id {
      SelectMember<Id>(ids, Retained(trimmed), id);
    }
  }

  /** The scan takes some entry that is still in the stream. */
  ghost predicate TakesRetained(s: State, now: int, from: nat, count: nat, attempts: nat) {
    exists id: Id :: id in Scan(s, now, from, count, attempts).0 && s.trimmed <= id
  }

  lemma {:induction false} TakesNext(s: State, now: int, from: nat, count: nat, attempts: nat)
    requires from < |s.log| && from in s.pending && from < s.trimmed && count > 0 && attempts > 0
    ensures TakesRetained(s, now, from, count, attempts) <==> TakesRetained(s, now, from + 1, count - 1, attempts - 1)
  {
    hide Idle;
    var rest := Scan(s, now, from + 1, count - 1, attempts - 1).0;
    assert Scan(s, now, from, count, attempts).0 == [from] + rest;
    assert forall id: Id :: id in [from] + rest <==> id == from || id in rest;
  }

  lemma {:induction false} ScanReachesIff(s: State, now: int, from: nat, first: Id, count: nat, attempts: nat)
    requires from <= first < |s.log| && Orphan(s, first, now)
    requires forall id: Id :: from <= id < first ==> !Orphan(s, id, now)
    ensures TakesRetained(s, now, from, count, attempts)
       <==> PendingIn(s, from, first) < attempts && GoneIn(s, from, first) < count
    decreases first - from
  {
    if from == first {
      if count > 0 && attempts > 0 {
        var ids := Scan(s, now, from, count, attempts).0;
        assert ids[0] == first;
        assert first in ids;
      }
    } else {
      assert !Orphan(s, from, now);
      if from !in s.pending {
        assert Scan(s, now, from, count, attempts) == Scan(s, now, from + 1, count, attempts);
        ScanReachesIff(s, now, from + 1, first, count, attempts);
      } else if count > 0 && attempts > 0 {
        if from < s.trimmed {
          TakesNext(s, now, from, count, attempts);
          ScanReachesIff(s, now, from + 1, first, count - 1, attempts - 1);
        } else {
          assert Scan(s, now, from, count, attempts) == Scan(s, now, from + 1, count, attempts - 1);
          ScanReachesIff(s, now, from + 1, first, count, attempts - 1);
        }
      }
    }
  }

  /**
    A call claims something exactly when fewer than `attempts` other pending entries come before
    the first orphan and fewer than `count` of those are gone from the stream. Otherwise the
    sweep stops there and the orphan stays, however long it has been idle.
   */
  lemma {:induction false} ScanFindsIff(s: State, now: int, from: nat, first: Id, count: nat, attempts: nat)
    requires from <= first < |s.log| && Orphan(s, first, now)
    requires forall id: Id :: from <= id < first ==> !Orphan(s, id, now)
    ensures Claimed(s, now, from, count, attempts) != []
       <==> PendingIn(s, from, first) < attempts && GoneIn(s, from, first) < count
  {
    hide Scan, Select, Orphan, PendingIn, GoneIn;
    ScanReachesIff(s, now, from, first, count, attempts);
    ClaimsSome(Scan(s, now, from, count, attempts).0, s.trimmed);
  }

  /** A call claims at most 500 entries, all in the stream and pending for 30 s or more. */
  lemma {:induction false} ClaimedAreIdle(s: State, now: int, from: nat)
    ensures
      var claimed := Claimed(s, now, from, XAUTOCLAIM_COUNT, CLAIM_ATTEMPTS);
      && |claimed| <= 500
      && (forall id: Id :: id in claimed ==>
            from <= id && s.trimmed <= id && id in s.pending && now - s.pending[id].at >= 30_000)
  {
    hide Scan, Select;
    ScanTakes(s, now, from, XAUTOCLAIM_COUNT, CLAIM_ATTEMPTS);
    var ids := Scan(s, now, from, XAUTOCLAIM_COUNT, CLAIM_ATTEMPTS).0;
    SelectShorter(ids, Retained(s.trimmed));
    forall id: Id ensures id in Select<Id>(ids, Retained(s.trimmed)) <==> id in ids && s.trimmed <= id {
      SelectMember<Id>(ids, Retained(s.trimmed), id);
    }
  }

  lemma {:induction false} SelectShorter(ids: seq<Id>, p: Id -> bool)
    ensures |Select<Id>(ids, p)| <= |ids|
  {
    if ids != [] { SelectShorter(ids[..|ids| - 1], p); }
  }

  /** The call of the code: 500 at most, among 5000 looked at. */
  lemma {:induction false} SweepFindsIff(s: State, now: int, from: nat, first: Id)
    requires from <= first < |s.log| && s.trimmed <= first && first in s.pending && now - s.pending[first].at >= 30_000
    requires forall id: Id :: from <= id < first && s.trimmed <= id && id in s.pending ==>
               now - s.pending[id].at < 30_000
    ensures Claimed(s, now, from, XAUTOCLAIM_COUNT, CLAIM_ATTEMPTS) != []
       <==> PendingIn(s, from, first) < 5000 && GoneIn(s, from, first) < 500
  {
    hide Claimed, PendingIn, GoneIn;
    ScanFindsIff(s, now, from, first, XAUTOCLAIM_COUNT, CLAIM_ATTEMPTS);
  }

  /** Without an orphan from the cursor on there is nothing to claim. */
  lemma {:induction false} NoOrphanNoClaim(s: State, now: int, from: nat, count: nat, attempts: nat)
    requires from > 0 || (count > 0 && attempts > 0)
    requires forall id: Id :: from <= id < |s.log| ==> !Orphan(s, id, now)
    requires forall id: Id :: id in s.pending ==> id < |s.log|
    ensures Claimed(s, now, from, count, attempts) == []
  {
    hide Scan, Select, Idle;
    ScanTakes(s, now, from, count, attempts);
    var ids := Scan(s, now, from, count, attempts).0;
    assert forall id: Id :: id in ids ==> id < s.trimmed || Orphan(s, id, now);
    ClaimsSome(ids, s.trimmed);
  }

  lemma {:induction false} ScanIsClaimable(s: State, now: int, from: nat)
    ensures Claimable(s, Scan(s, now, from, XAUTOCLAIM_COUNT, CLAIM_ATTEMPTS).0, now)
  {
    hide Scan;
    ScanTakes(s, now, from, XAUTOCLAIM_COUNT, CLAIM_ATTEMPTS);
  }

  /** Every pending entry the sweep has passed was delivered after `horizon`. */
  ghost predicate Swept(s: State, next: nat, horizon: int) {
    forall id: Id :: id in s.pending && Passed(id, next) ==> s.pending[id].at > horizon
  }

  /** A delivery stamps its entries with a time after `horizon`. */
  predicate StampsAfter(l: Label, horizon: int) {
    l.ReadNew? || l.ReadOwn? || l.Claim? ==> l.now > horizon
  }

  ghost predicate AllStamped(labels: seq<Label>, horizon: int) {
    forall i :: 0 <= i < |labels| ==> StampsAfter(labels[i], horizon)
  }

  /** Nobody's step brings back an old delivery. */
  lemma {:induction false} StepKeepsSwept(s: State, l: Label, next: nat, horizon: int)
    requires Swept(s, next, horizon) && StampsAfter(l, horizon)
    ensures Swept(Apply(s, l), next, horizon)
  {
    hide Select, MetricsTable.Commit, EventsOf, Holds, HeldAmong, Owned, NoDup, Claimable;
  }

  lemma {:induction false} RunKeepsSwept(s: State, labels: seq<Label>, next: nat, horizon: int)
    requires Swept(s, next, horizon) && AllStamped(labels, horizon)
    ensures Swept(Run(s, labels), next, horizon)
  {
    if labels != [] {
      hide Swept, StampsAfter, Apply;
      RunKeepsSwept(s, labels[..|labels| - 1], next, horizon);
      StepKeepsSwept(Run(s, labels[..|labels| - 1]), labels[|labels| - 1], next, horizon);
    }
  }

  /** A claim of what the scan took extends the swept part of the list to the next cursor. */
  lemma {:induction false} ClaimSweeps(s: State, c: Name, now: int, from: nat, horizon: int)
    requires Bounds(s) && Ledger(s)
    requires var p := ProcOf(s, c); p.Up? && !p.recovering && p.page.NoPage?
    requires (from > 0 ==> Swept(s, from, horizon)) && horizon <= now - XAUTOCLAIM_IDLE_MS
    ensures
      var (ids, next) := Scan(s, now, from, XAUTOCLAIM_COUNT, CLAIM_ATTEMPTS);
      Swept(Apply(s, Claim(c, ids, now)), next, horizon)
  {
    hide Scan, Select, HeldAmong, Holds, NoDup;
    var (ids, next) := Scan(s, now, from, XAUTOCLAIM_COUNT, CLAIM_ATTEMPTS);
    ScanTakes(s, now, from, XAUTOCLAIM_COUNT, CLAIM_ATTEMPTS);
    ScanIsClaimable(s, now, from);
    KeptPage(s, ids, now);
    var s' := Apply(s, Claim(c, ids, now));
    forall id: Id | id in s'.pending && Passed(id, next) ensures s'.pending[id].at > horizon {
      assert id in s.pending && id < |s.log|;
      if id in ids {
        assert s.trimmed <= id;
        assert id in Select<Id>(ids, Retained(s.trimmed));
      } else if id < from {
        assert Passed(id, from);
      }
    }
  }
}
