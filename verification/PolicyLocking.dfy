/** Optimistic locking of policy updates and what the published messages name. */
module PolicyLocking {
  import opened PolicyCache

  /** How many of the updates changed policy `id`. */
  function UpdatesOf(successes: seq<Success>, id: PolicyId): nat {
    if successes == [] then 0
    else UpdatesOf(successes[..|successes| - 1], id) + if successes[|successes| - 1].id == id then 1 else 0
  }

  lemma {:induction false} UpdatesSnoc(successes: seq<Success>, x: Success, id: PolicyId)
    ensures UpdatesOf(successes + [x], id) == UpdatesOf(successes, id) + if x.id == id then 1 else 0
  {
  }

  lemma {:induction false} UpdatesGrow(successes: seq<Success>, i: nat, j: nat, id: PolicyId)
    requires i <= j <= |successes|
    ensures UpdatesOf(successes[..i], id) <= UpdatesOf(successes[..j], id)
    decreases j
  {
    if i < j {
      UpdatesGrow(successes, i, j - 1, id);
      assert successes[..j] == successes[..j - 1] + [successes[j - 1]];
      UpdatesSnoc(successes[..j - 1], successes[j - 1], id);
    }
  }

  /** The table after the given updates: versions count them, nothing but rate and version moves. */
  ghost predicate TableOk(u: Setup, rows: Rows, successes: seq<Success>) {
    && rows.Keys == u.initial.Keys
    && (forall id :: id in rows ==>
          && rows[id].version == u.initial[id].version + UpdatesOf(successes, id)
          && rows[id].tenant == u.initial[id].tenant
          && (UpdatesOf(successes, id) == 0 ==> rows[id] == u.initial[id]))
  }

  /** Update `i` was made by the policy's own tenant against exactly the version it expected. */
  ghost predicate SuccessOk(u: Setup, s: State, i: nat)
    requires i < |s.successes|
  {
    var x := s.successes[i];
    && x.id in u.initial && x.tenant == u.initial[x.id].tenant
    && x.expected == u.initial[x.id].version + UpdatesOf(s.successes[..i], x.id)
    && x.epoch == i + 1
  }

  /** The message names a committed update. */
  ghost predicate Names(s: State, m: Message) {
    exists i :: 0 <= i < |s.successes| && s.successes[i].tenant == m.tenant && s.successes[i].id == m.id
             && s.successes[i].expected + 1 == m.version
  }

  ghost predicate AdminOk(s: State, a: Agent, admin: Admin) {
    && (admin.Locked? ==>
          && admin.id in s.locks && s.locks[admin.id] == a
          && admin.id in Current(s) && Current(s)[admin.id].version == admin.expected)
    && (admin.Committed? ==> Names(s, admin.msg))
  }

  ghost predicate Inv(u: Setup, s: State) {
    && |s.versions| == |s.successes| + 1
    && (forall e :: 0 <= e < |s.versions| ==> TableOk(u, s.versions[e].rows, s.successes[..e]))
    && (forall i :: 0 <= i < |s.successes| ==> SuccessOk(u, s, i))
    && (forall a :: a in s.admins ==> AdminOk(s, a, s.admins[a]))
    && (forall m :: m in s.published ==> Names(s, m))
  }

  lemma {:induction false} CurrentOk(u: Setup, s: State)
    requires Inv(u, s)
    ensures TableOk(u, Current(s), s.successes)
  {
    hide TableOk, SuccessOk, AdminOk, Names;
    assert s.successes[..|s.successes|] == s.successes;
  }

  lemma {:induction false} TableSnoc(u: Setup, rows: Rows, successes: seq<Success>, id: PolicyId, rps: int, x: Success)
    requires TableOk(u, rows, successes) && id in rows && x.id == id
    ensures TableOk(u, rows[id := rows[id].(rps := rps, version := rows[id].version + 1)], successes + [x])
  {
  }

  /** Older updates and names survive one more success. */
  lemma {:induction false} MoreSuccesses(u: Setup, s: State, s': State, x: Success)
    requires s'.successes == s.successes + [x]
    ensures forall i :: 0 <= i < |s.successes| && SuccessOk(u, s, i) ==> SuccessOk(u, s', i)
    ensures forall m :: Names(s, m) ==> Names(s', m)
  {
    hide UpdatesOf;
    forall i | 0 <= i < |s.successes| && SuccessOk(u, s, i) ensures SuccessOk(u, s', i) {
      assert s'.successes[i] == s.successes[i] && s'.successes[..i] == s.successes[..i];
    }
    forall m | Names(s, m) ensures Names(s', m) {
      var i :| 0 <= i < |s.successes| && s.successes[i].tenant == m.tenant && s.successes[i].id == m.id
            && s.successes[i].expected + 1 == m.version;
      assert s'.successes[i] == s.successes[i];
    }
  }

  lemma {:induction false} CommitKeeps(u: Setup, s: State, a: Agent)
    requires Inv(u, s)
    ensures Inv(u, Ticked(DoCommit(s, a)))
  {
    hide TableOk, Names;
    var s' := Ticked(DoCommit(s, a));
    var admin := AdminOf(s, a);
    if admin.Locked? && admin.id in Current(s) {
      CurrentOk(u, s);
      var row := Current(s)[admin.id];
      var x := Success(row.tenant, admin.id, admin.expected, |s.versions|);
      TableSnoc(u, Current(s), s.successes, admin.id, admin.rps, x);
      MoreSuccesses(u, s, s', x);
      VersionsOk(u, s, s', x);
      NewSuccess(u, s, s', x, row, admin.rps);
      forall d | d in s'.admins ensures AdminOk(s', d, s'.admins[d]) {
        if d != a { assert s'.admins[d] == s.admins[d] && AdminOk(s, d, s.admins[d]); }
      }
      assert forall m :: m in s'.published ==> Names(s', m);
    } else {
      SameNames(s, s');
      forall d | d in s'.admins ensures AdminOk(s', d, s'.admins[d]) { assert AdminOk(s, d, s.admins[d]); }
      SameTable(u, s, s');
    }
  }

  lemma {:induction false} NewSuccess(u: Setup, s: State, s': State, x: Success, row: Row, rps: int)
    requires TableOk(u, Current(s), s.successes) && |s.versions| == |s.successes| + 1
    requires s'.successes == s.successes + [x]
    requires x.id in Current(s) && Current(s)[x.id] == row && row.version == x.expected
    requires x == Success(row.tenant, x.id, x.expected, |s.versions|)
    ensures SuccessOk(u, s', |s.successes|)
    ensures Names(s', Message(row.tenant, x.id, row.version + 1))
  {
  }

  lemma {:induction false} VersionsOk(u: Setup, s: State, s': State, x: Success)
    requires |s.versions| == |s.successes| + 1 && s'.successes == s.successes + [x]
    requires |s'.versions| == |s.versions| + 1 && s'.versions[..|s.versions|] == s.versions
    requires forall e :: 0 <= e < |s.versions| ==> TableOk(u, s.versions[e].rows, s.successes[..e])
    requires TableOk(u, s'.versions[|s.versions|].rows, s'.successes)
    ensures forall e :: 0 <= e < |s'.versions| ==> TableOk(u, s'.versions[e].rows, s'.successes[..e])
  {
    hide TableOk;
    forall e | 0 <= e < |s'.versions| ensures TableOk(u, s'.versions[e].rows, s'.successes[..e]) {
      if e < |s.versions| {
        assert s'.successes[..e] == s.successes[..e];
        assert s'.versions[e] == s'.versions[..|s.versions|][e];
      } else {
        assert s'.successes[..e] == s'.successes;
      }
    }
  }

  /** Everything but commits leaves the table and the successes alone. */
  lemma {:induction false} SameTable(u: Setup, s: State, s': State)
    requires Inv(u, s) && s'.versions == s.versions && s'.successes == s.successes
    requires forall a :: a in s'.admins ==> AdminOk(s', a, s'.admins[a])
    requires forall m :: m in s'.published ==> Names(s', m)
    ensures Inv(u, s')
  {
    hide TableOk, AdminOk, Names, UpdatesOf;
    forall i | 0 <= i < |s'.successes| ensures SuccessOk(u, s', i) { assert SuccessOk(u, s, i); }
  }

  lemma {:induction false} SameNames(s: State, s': State)
    requires s'.successes == s.successes
    ensures forall m :: Names(s, m) <==> Names(s', m)
  {
  }

  lemma {:induction false} UpdateKeeps(
    u: Setup, s: State, a: Agent, tenant: Tenant, id: PolicyId, rps: int, expected: int)
    requires Inv(u, s)
    ensures Inv(u, Ticked(DoUpdate(s, a, tenant, id, rps, expected)))
  {
    hide TableOk, Names, SuccessOk;
    var s' := Ticked(DoUpdate(s, a, tenant, id, rps, expected));
    SameNames(s, s');
    forall d | d in s'.admins ensures AdminOk(s', d, s'.admins[d]) {
      if d in s.admins && s'.admins[d] == s.admins[d] { assert AdminOk(s, d, s.admins[d]); }
    }
    SameTable(u, s, s');
  }

  lemma {:induction false} RollbackKeeps(u: Setup, s: State, a: Agent)
    requires Inv(u, s)
    ensures Inv(u, Ticked(DoRollback(s, a)))
  {
    hide TableOk, Names, SuccessOk;
    var s' := Ticked(DoRollback(s, a));
    SameNames(s, s');
    if a in s.admins { assert AdminOk(s, a, s.admins[a]); }
    forall d | d in s'.admins ensures AdminOk(s', d, s'.admins[d]) {
      if d in s.admins { assert AdminOk(s, d, s.admins[d]); }
    }
    SameTable(u, s, s');
  }

  lemma {:induction false} PublishKeeps(u: Setup, s: State, a: Agent, reachable: bool)
    requires Inv(u, s)
    ensures Inv(u, Ticked(DoPublish(s, a, reachable)))
  {
    hide TableOk, Names, SuccessOk;
    var s' := Ticked(DoPublish(s, a, reachable));
    SameNames(s, s');
    if a in s.admins { assert AdminOk(s, a, s.admins[a]); }
    forall d | d in s'.admins ensures AdminOk(s', d, s'.admins[d]) {
      if d in s.admins { assert AdminOk(s, d, s.admins[d]); }
    }
    SameTable(u, s, s');
  }

  /** Readers, listeners and time do not touch the admin side. */
  lemma {:induction false} OthersKeep(u: Setup, s: State, l: Label)
    requires Inv(u, s) && !l.Update? && !l.Commit? && !l.Rollback? && !l.Publish?
    ensures Inv(u, Apply(u, s, l))
  {
    hide TableOk, SuccessOk;
    var s' := Apply(u, s, l);
    AdminSideUntouched(u, s, l);
    SameNames(s, s');
    forall d | d in s'.admins ensures AdminOk(s', d, s'.admins[d]) { assert AdminOk(s, d, s.admins[d]); }
    hide Names, AdminOk, Apply;
    SameTable(u, s, s');
  }

  lemma {:induction false} AdminSideUntouched(u: Setup, s: State, l: Label)
    requires !l.Update? && !l.Commit? && !l.Rollback? && !l.Publish?
    ensures
      var s' := Apply(u, s, l);
      && s'.versions == s.versions && s'.successes == s.successes && s'.admins == s.admins
      && s'.published == s.published && s'.locks == s.locks
  {
    hide DoCacheGet, DoFetch, DoCacheSet, DoDeliver, DoScanEnd, DoDelete;
  }

  lemma {:induction false} StepKeeps(u: Setup, s: State, l: Label)
    requires Inv(u, s)
    ensures Inv(u, Apply(u, s, l))
  {
    hide Inv, Ticked, DoUpdate, DoCommit, DoRollback, DoPublish;
    match l {
      case Update(a, tenant, id, rps, expected) => UpdateKeeps(u, s, a, tenant, id, rps, expected);
      case Commit(a) => CommitKeeps(u, s, a);
      case Rollback(a) => RollbackKeeps(u, s, a);
      case Publish(a, reachable) => PublishKeeps(u, s, a, reachable);
      case _ => OthersKeep(u, s, l);
    }
  }

  lemma {:induction false} RunKeeps(u: Setup, labels: seq<Label>)
    ensures Inv(u, Run(u, Init(u), labels))
  {
    if labels != [] {
      hide Inv, Apply;
      RunKeeps(u, labels[..|labels| - 1]);
      StepKeeps(u, Run(u, Init(u), labels[..|labels| - 1]), labels[|labels| - 1]);
    }
  }

  // ----- main results

  /** A policy's version is its initial version plus the number of successful updates of it. */
  lemma {:induction false} VersionCountsUpdates(u: Setup, labels: seq<Label>, id: PolicyId)
    requires id in u.initial
    ensures
      var s := Run(u, Init(u), labels);
      id in Current(s) && Current(s)[id].version == u.initial[id].version + UpdatesOf(s.successes, id)
  {
    hide Run, UpdatesOf;
    RunKeeps(u, labels);
    CurrentOk(u, Run(u, Init(u), labels));
  }

  /** At most one update per expected version of a policy ever succeeds. */
  lemma {:induction false} OneWinnerPerVersion(u: Setup, labels: seq<Label>, i: nat, j: nat)
    requires
      var won := Run(u, Init(u), labels).successes;
      i < |won| && j < |won| && won[i].id == won[j].id && won[i].expected == won[j].expected
    ensures i == j
  {
    hide Run, UpdatesOf;
    RunKeeps(u, labels);
    var s := Run(u, Init(u), labels);
    assert SuccessOk(u, s, i) && SuccessOk(u, s, j);
    if i != j {
      var first, second := if i < j then i else j, if i < j then j else i;
      var id := s.successes[i].id;
      assert s.successes[..first + 1] == s.successes[..first] + [s.successes[first]];
      UpdatesSnoc(s.successes[..first], s.successes[first], id);
      UpdatesGrow(s.successes, first + 1, second, id);
    }
  }

  /** A tenant without successful updates of its own sees its rows, and so its answers, unchanged. */
  lemma {:induction false} ForeignRowsUntouched(u: Setup, labels: seq<Label>, t: Tenant, r: Route)
    requires var s := Run(u, Init(u), labels); forall i :: 0 <= i < |s.successes| ==> s.successes[i].tenant != t
    ensures
      var s := Run(u, Init(u), labels);
      OwnRows(Current(s), t) == OwnRows(u.initial, t) && Lookup(u, Current(s), t, r) == Lookup(u, u.initial, t, r)
  {
    hide Run, UpdatesOf;
    RunKeeps(u, labels);
    var s := Run(u, Init(u), labels);
    CurrentOk(u, s);
    forall id | id in u.initial && u.initial[id].tenant == t ensures Current(s)[id] == u.initial[id] {
      forall i | 0 <= i < |s.successes| ensures s.successes[i].id != id { assert SuccessOk(u, s, i); }
      NeverUpdated(s.successes, id);
    }
    assert OwnRows(Current(s), t) == OwnRows(u.initial, t);
  }

  /** No update asked for by tenant `t` is under way or done. */
  ghost predicate NoneOf(s: State, t: Tenant) {
    && (forall i :: 0 <= i < |s.successes| ==> s.successes[i].tenant != t)
    && (forall a :: a in s.admins && s.admins[a].Locked? && s.admins[a].id in Current(s) ==>
          Current(s)[s.admins[a].id].tenant != t)
  }

  lemma {:induction false} NoneOfStep(u: Setup, s: State, l: Label, t: Tenant)
    requires NoneOf(s, t) && (l.Update? ==> l.tenant != t)
    ensures NoneOf(Apply(u, s, l), t)
  {
    hide NoneOf, DoUpdate, DoCommit, DoRollback, DoPublish;
    match l {
      case Update(a, tenant, id, rps, expected) => NoneOfUpdate(s, a, tenant, id, rps, expected, t);
      case Commit(a) => NoneOfCommit(s, a, t);
      case Rollback(a) => NoneOfRelease(s, a, true, t);
      case Publish(a, reachable) => NoneOfRelease(s, a, reachable, t);
      case _ =>
        AdminSideUntouched(u, s, l);
        NoneOfSame(s, Apply(u, s, l), t);
    }
  }

  lemma {:induction false} NoneOfUpdate(
    s: State, a: Agent, tenant: Tenant, id: PolicyId, rps: int, expected: int, t: Tenant)
    requires NoneOf(s, t) && tenant != t
    ensures NoneOf(Ticked(DoUpdate(s, a, tenant, id, rps, expected)), t)
  {
  }

  lemma {:induction false} NoneOfCommit(s: State, a: Agent, t: Tenant)
    requires NoneOf(s, t)
    ensures NoneOf(Ticked(DoCommit(s, a)), t)
  {
  }

  lemma {:induction false} NoneOfRelease(s: State, a: Agent, reachable: bool, t: Tenant)
    requires NoneOf(s, t)
    ensures NoneOf(Ticked(DoRollback(s, a)), t) && NoneOf(Ticked(DoPublish(s, a, reachable)), t)
  {
  }

  lemma {:induction false} NoneOfSame(s: State, s': State, t: Tenant)
    requires NoneOf(s, t) && s'.versions == s.versions && s'.successes == s.successes && s'.admins == s.admins
    ensures NoneOf(s', t)
  {
  }

  lemma {:induction false} NoneOfRun(u: Setup, labels: seq<Label>, t: Tenant)
    requires forall i :: 0 <= i < |labels| && labels[i].Update? ==> labels[i].tenant != t
    ensures NoneOf(Run(u, Init(u), labels), t)
  {
    if labels != [] {
      hide NoneOf, Apply;
      NoneOfRun(u, labels[..|labels| - 1], t);
      NoneOfStep(u, Run(u, Init(u), labels[..|labels| - 1]), labels[|labels| - 1], t);
    } else {
      NoneAtFirst(u, t);
    }
  }

  lemma {:induction false} NoneAtFirst(u: Setup, t: Tenant)
    ensures NoneOf(Run(u, Init(u), []), t)
  {
  }

  /** Whatever other tenants ask for, whichever policy ids they name, a tenant's rows stay as they are. */
  lemma {:induction false} OthersCannotUpdate(u: Setup, labels: seq<Label>, t: Tenant, id: PolicyId)
    requires forall i :: 0 <= i < |labels| && labels[i].Update? ==> labels[i].tenant != t
    ensures
      var rows := Current(Run(u, Init(u), labels));
      && (id in rows && rows[id].tenant == t <==> id in u.initial && u.initial[id].tenant == t)
      && (id in rows && rows[id].tenant == t ==> rows[id] == u.initial[id])
  {
    hide Run;
    NoneOfRun(u, labels, t);
    ForeignRowsUntouched(u, labels, t, "");
    RunKeeps(u, labels);
    var s := Run(u, Init(u), labels);
    CurrentOk(u, s);
    assert id in OwnRows(Current(s), t) <==> id in OwnRows(u.initial, t);
  }

  lemma {:induction false} NeverUpdated(successes: seq<Success>, id: PolicyId)
    requires forall i :: 0 <= i < |successes| ==> successes[i].id != id
    ensures UpdatesOf(successes, id) == 0
  {
    if successes != [] { NeverUpdated(successes[..|successes| - 1], id); }
  }

  /** Every published message names a version that some committed table really has. */
  lemma {:induction false} PublishedIsCommitted(u: Setup, labels: seq<Label>, m: Message)
    requires m in Run(u, Init(u), labels).published
    ensures
      var s := Run(u, Init(u), labels);
      exists e: nat :: 0 < e < |s.versions| && m.id in s.versions[e].rows
        && s.versions[e].rows[m.id].tenant == m.tenant && s.versions[e].rows[m.id].version == m.version
  {
    hide Run, UpdatesOf;
    RunKeeps(u, labels);
    var s := Run(u, Init(u), labels);
    var i :| 0 <= i < |s.successes| && s.successes[i].tenant == m.tenant && s.successes[i].id == m.id
          && s.successes[i].expected + 1 == m.version;
    assert SuccessOk(u, s, i);
    var e := i + 1;
    assert TableOk(u, s.versions[e].rows, s.successes[..e]);
    assert s.successes[..e] == s.successes[..i] + [s.successes[i]];
    UpdatesSnoc(s.successes[..i], s.successes[i], m.id);
    assert 0 < e < |s.versions| && m.id in s.versions[e].rows;
  }

  // ----- locks have a cause

  /** Every lock is held by the admin that took it. */
  ghost predicate Caused(s: State) {
    && (forall id :: id in s.locks ==> AdminOf(s, s.locks[id]).Locked? && AdminOf(s, s.locks[id]).id == id)
    && (forall a :: a in s.admins && s.admins[a].Locked? ==> s.admins[a].id in s.locks && s.locks[s.admins[a].id] == a)
  }

  lemma {:induction false} CausedStep(u: Setup, s: State, l: Label)
    requires Caused(s)
    ensures Caused(Apply(u, s, l))
  {
    hide Caused, DoUpdate, DoCommit, DoRollback, DoPublish;
    match l {
      case Update(a, tenant, id, rps, expected) => CausedUpdate(s, a, tenant, id, rps, expected);
      case Commit(a) => CausedCommit(s, a);
      case Rollback(a) => CausedRollback(s, a);
      case Publish(a, reachable) => CausedPublish(s, a, reachable);
      case _ =>
        AdminSideUntouched(u, s, l);
        CausedSame(s, Apply(u, s, l));
    }
  }

  lemma {:induction false} CausedUpdate(s: State, a: Agent, tenant: Tenant, id: PolicyId, rps: int, expected: int)
    requires Caused(s)
    ensures Caused(Ticked(DoUpdate(s, a, tenant, id, rps, expected)))
  {
  }

  lemma {:induction false} CausedCommit(s: State, a: Agent)
    requires Caused(s)
    ensures Caused(Ticked(DoCommit(s, a)))
  {
  }

  lemma {:induction false} CausedRollback(s: State, a: Agent)
    requires Caused(s)
    ensures Caused(Ticked(DoRollback(s, a)))
  {
  }

  lemma {:induction false} CausedPublish(s: State, a: Agent, reachable: bool)
    requires Caused(s)
    ensures Caused(Ticked(DoPublish(s, a, reachable)))
  {
  }

  lemma {:induction false} CausedSame(s: State, s': State)
    requires Caused(s) && s'.locks == s.locks && s'.admins == s.admins
    ensures Caused(s')
  {
  }

  lemma {:induction false} CausedRun(u: Setup, labels: seq<Label>)
    ensures Caused(Run(u, Init(u), labels))
  {
    if labels == [] {
      CausedAtFirst(u);
    } else {
      hide Caused, Apply;
      CausedRun(u, labels[..|labels| - 1]);
      CausedStep(u, Run(u, Init(u), labels[..|labels| - 1]), labels[|labels| - 1]);
    }
  }

  lemma {:induction false} CausedAtFirst(u: Setup)
    ensures Caused(Run(u, Init(u), []))
  {
  }

  /** Admin `a` is between the UPDATE of policy `id` and the end of its transaction. */
  predicate Locks(s: State, a: Agent, id: PolicyId) {
    AdminOf(s, a).Locked? && AdminOf(s, a).id == id
  }

  /** In every run a row is locked exactly while one transaction is between its UPDATE and its end. */
  lemma {:induction false} LockedIff(u: Setup, labels: seq<Label>, id: PolicyId)
    ensures
      var s := Run(u, Init(u), labels);
      && (id in s.locks <==> exists a :: Locks(s, a, id))
      && (forall a, b :: Locks(s, a, id) && Locks(s, b, id) ==> a == b)
  {
    hide Run;
    CausedRun(u, labels);
    var s := Run(u, Init(u), labels);
    if id in s.locks { assert Locks(s, s.locks[id], id); }
  }
}
