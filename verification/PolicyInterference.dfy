/** What everybody else can do between two steps of one reader, admin or listener. */
module PolicyInterference {
  import opened PolicyCache
  import PolicyStaleness
  import PolicyLocking
  import opened PolicyFlush

  /** Time passing, or a step of another agent. */
  predicate Foreign(l: Label, a: Agent) {
    l.Pass? || l.a != a
  }

  ghost predicate AllForeign(labels: seq<Label>, a: Agent) {
    forall i :: 0 <= i < |labels| ==> Foreign(labels[i], a)
  }

  ghost predicate Elsewhere(others: nat -> seq<Label>, a: Agent) {
    forall k: nat :: AllForeign(others(k), a)
  }

  /** The agent's own steps of a run. */
  function Mine(labels: seq<Label>, a: Agent): seq<Label> {
    if labels == [] then []
    else
      var l := labels[|labels| - 1];
      Mine(labels[..|labels| - 1], a) + if Foreign(l, a) then [] else [l]
  }

  lemma {:induction false} MineSnoc(labels: seq<Label>, l: Label, a: Agent)
    ensures Mine(labels + [l], a) == Mine(labels, a) + if Foreign(l, a) then [] else [l]
  {
    assert (labels + [l])[..|labels|] == labels;
  }

  lemma {:induction false} MineConcat(labels: seq<Label>, others: seq<Label>, a: Agent)
    requires AllForeign(others, a)
    ensures Mine(labels + others, a) == Mine(labels, a)
  {
    if others == [] {
      assert labels + others == labels;
    } else {
      var init, l := others[..|others| - 1], others[|others| - 1];
      assert labels + others == (labels + init) + [l];
      MineSnoc(labels + init, l, a);
      MineConcat(labels, init, a);
    }
  }

  /** What holds in every reachable state. */
  ghost predicate Sound(u: Setup, s: State) {
    u.gap >= 0.0 && PolicyStaleness.Inv(u, s) && PolicyLocking.Inv(u, s)
  }

  lemma {:induction false} InitSound(u: Setup)
    requires u.gap >= 0.0
    ensures Sound(u, Init(u))
  {
    hide PolicyStaleness.Inv, PolicyLocking.Inv;
    PolicyStaleness.RunKeeps(u, []);
    PolicyLocking.RunKeeps(u, []);
  }

  lemma {:induction false} StepSound(u: Setup, s: State, l: Label)
    requires Sound(u, s)
    ensures Sound(u, Apply(u, s, l))
  {
    hide PolicyStaleness.Inv, PolicyLocking.Inv, Apply;
    PolicyStaleness.StepKeeps(u, s, l);
    PolicyLocking.StepKeeps(u, s, l);
  }

  /** Time and history go forward. */
  ghost predicate Forward(s: State, s': State) {
    s.clock <= s'.clock && s.step <= s'.step && s.versions <= s'.versions && s.published <= s'.published
  }

  lemma {:induction false} StepForward(u: Setup, s: State, l: Label)
    ensures Forward(s, Apply(u, s, l)) && Apply(u, s, l).step == s.step + 1
  {
    hide DoCacheGet, DoFetch, DoCacheSet, DoUpdate, DoRollback, DoDeliver, DoScanEnd, DoDelete;
  }

  /** One agent's part of the state. */
  ghost predicate SameAgent(s: State, s': State, a: Agent) {
    ReaderOf(s', a) == ReaderOf(s, a) && AdminOf(s', a) == AdminOf(s, a) && ListenerOf(s', a) == ListenerOf(s, a)
  }

  lemma {:induction false} AgentUntouched(u: Setup, s: State, l: Label, a: Agent)
    requires Foreign(l, a)
    ensures SameAgent(s, Apply(u, s, l), a)
  {
    hide Apply;
    ReaderUntouched(u, s, l, a);
    AdminUntouched(u, s, l, a);
    ListenerUntouched(u, s, l, a);
  }

  lemma {:induction false} ReaderUntouched(u: Setup, s: State, l: Label, a: Agent)
    requires Foreign(l, a)
    ensures ReaderOf(Apply(u, s, l), a) == ReaderOf(s, a)
  {
    hide Lookup, DoUpdate, DoCommit, DoRollback, DoPublish, DoDeliver, DoScanEnd, DoDelete;
  }

  lemma {:induction false} AdminUntouched(u: Setup, s: State, l: Label, a: Agent)
    requires Foreign(l, a)
    ensures AdminOf(Apply(u, s, l), a) == AdminOf(s, a)
  {
    hide DoCacheGet, DoFetch, DoCacheSet, DoDeliver, DoScanEnd, DoDelete;
  }

  lemma {:induction false} ListenerUntouched(u: Setup, s: State, l: Label, a: Agent)
    requires Foreign(l, a)
    ensures ListenerOf(Apply(u, s, l), a) == ListenerOf(s, a)
  {
    hide ScanComplete, DoCacheGet, DoFetch, DoCacheSet, DoUpdate, DoCommit, DoRollback, DoPublish;
  }

  /** From `s` to `s'` only others acted. */
  ghost predicate Meanwhile(u: Setup, s: State, s': State, a: Agent) {
    Sound(u, s') && Forward(s, s') && SameAgent(s, s', a)
  }

  lemma {:induction false} ForeignRun(u: Setup, s: State, others: seq<Label>, a: Agent)
    requires Sound(u, s) && AllForeign(others, a)
    ensures Meanwhile(u, s, Run(u, s, others), a)
  {
    if others != [] {
      hide Sound, Apply, Foreign;
      var init, l := others[..|others| - 1], others[|others| - 1];
      assert AllForeign(init, a) && Foreign(l, a);
      ForeignRun(u, s, init, a);
      var mid := Run(u, s, init);
      StepSound(u, mid, l);
      StepForward(u, mid, l);
      AgentUntouched(u, mid, l, a);
    }
  }

  /** The time that passes over the labels. */
  function Elapsed(labels: seq<Label>): real {
    if labels == [] then 0.0
    else
      var l := labels[|labels| - 1];
      Elapsed(labels[..|labels| - 1]) + if l.Pass? && l.seconds > 0.0 then l.seconds else 0.0
  }

  lemma {:induction false} StepElapsed(u: Setup, s: State, l: Label)
    ensures Apply(u, s, l).clock == s.clock + if l.Pass? && l.seconds > 0.0 then l.seconds else 0.0
  {
    hide DoCacheGet, DoFetch, DoCacheSet, DoUpdate, DoCommit, DoRollback, DoPublish, DoDeliver, DoScanEnd, DoDelete;
  }

  lemma {:induction false} RunElapsed(u: Setup, s: State, labels: seq<Label>)
    ensures Run(u, s, labels).clock == s.clock + Elapsed(labels)
  {
    if labels != [] {
      hide Apply;
      RunElapsed(u, s, labels[..|labels| - 1]);
      StepElapsed(u, Run(u, s, labels[..|labels| - 1]), labels[|labels| - 1]);
    }
  }

  /** One own step after whatever others did. */
  lemma {:induction false} TraceStep(u: Setup, s0: State, trace: seq<Label>, others: seq<Label>, l: Label, a: Agent)
    requires AllForeign(others, a) && !Foreign(l, a)
    ensures Run(u, s0, trace + others + [l]) == Apply(u, Run(u, Run(u, s0, trace), others), l)
    ensures Mine(trace + others + [l], a) == Mine(trace, a) + [l]
  {
    hide Apply, Foreign;
    RunConcat(u, s0, trace, others);
    assert (trace + others + [l])[..|trace + others|] == trace + others;
    MineSnoc(trace + others, l, a);
    MineConcat(trace, others, a);
  }

  // ----- a scan and the keys that appear while it runs

  /** Every live key of the tenant was found, or appeared after the scan began. */
  ghost predicate FoundOrNew(s: State, t: Tenant, start: nat, found: set<Key>) {
    && start < s.step
    && (forall k :: Alive(s, k) && k.tenant == t ==> k in found || s.cache[k].born > start)
  }

  lemma {:induction false} StepFoundOrNew(u: Setup, s: State, l: Label, t: Tenant, start: nat, found: set<Key>)
    requires FoundOrNew(s, t, start, found)
    ensures FoundOrNew(Apply(u, s, l), t, start, found)
  {
    hide DoCacheGet, DoFetch, DoUpdate, DoCommit, DoRollback, DoPublish, DoDeliver, DoScanEnd;
  }

  lemma {:induction false} RunFoundOrNew(u: Setup, s: State, labels: seq<Label>, t: Tenant, start: nat, found: set<Key>)
    requires FoundOrNew(s, t, start, found)
    ensures FoundOrNew(Run(u, s, labels), t, start, found)
  {
    if labels != [] {
      hide FoundOrNew, Apply;
      RunFoundOrNew(u, s, labels[..|labels| - 1], t, start, found);
      StepFoundOrNew(u, Run(u, s, labels[..|labels| - 1]), labels[|labels| - 1], t, start, found);
    }
  }

  lemma {:induction false} NoDisconnect(others: seq<Label>, a: Agent)
    requires AllForeign(others, a)
    ensures Disconnect(a) !in others
  {
  }
}
