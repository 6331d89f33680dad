/**
  The alert consumer on the same stream: at-most-once detection by a single consumer that
  drops its own backlog on restart, and its independence from the analytics group.
 */
module AlertDelivery {
  import opened Prelude
  import Delivery

  type Id = Delivery.Id

  const READ_COUNT := 200

  /** The consumer process; `next` counts the messages of the page already processed. */
  datatype Proc =
    | Down
    | Dropping
    | Running(page: seq<Id>, next: nat)

  /** The stream as this group reads it, its pending list and process; the last four fields are history. */
  datatype State = State(
    log: seq<bool>,            // does parse_alert_event accept the entry
    trimmed: nat,
    lastDelivered: nat,
    pending: set<Id>,
    proc: Proc,
    delivered: set<Id>,
    acked: set<Id>,
    dropped: set<Id>,          // acknowledged at restart without being scanned
    scanned: seq<Id>)          // every scan, in order

  datatype Label =
    | Append(parses: bool)
    | Trim(upTo: nat)
    | Read(count: nat)
    | Process
    | Ack
    | Crash
    | Restart
    | Drop(ids: set<Id>)
    | DropDone

  function Init(): State {
    State([], 0, 0, {}, Down, {}, {}, {}, [])
  }

  /** XREADGROUP ">" into an empty page. */
  function DoRead(s: State, count: nat): State {
    var lo := Max(s.lastDelivered, s.trimmed);
    var hi := Min(lo + count, |s.log|);
    if !s.proc.Running? || s.proc.page != [] || count > READ_COUNT || hi <= lo then s
    else
      var ids := Delivery.Range(lo, hi);
      s.(lastDelivered := hi, proc := Running(ids, 0),
         pending := s.pending + (set id | id in ids), delivered := s.delivered + (set id | id in ids))
  }

  /** process_message on the next message of the page; poison is skipped. */
  function DoProcess(s: State): State {
    if !s.proc.Running? || s.proc.next >= |s.proc.page| then s
    else
      var id := s.proc.page[s.proc.next];
      s.(proc := Running(s.proc.page, s.proc.next + 1),
         scanned := if id < |s.log| && s.log[id] then s.scanned + [id] else s.scanned)
  }

  /** XACK of the whole page once every message was processed. */
  function DoAck(s: State): State {
    if !s.proc.Running? || s.proc.page == [] || s.proc.next != |s.proc.page| then s
    else
      var ids := set id | id in s.proc.page;
      s.(pending := s.pending - ids, acked := s.acked + ids, proc := Running([], 0))
  }

  /** One page of drop_own_pending. */
  function DoDrop(s: State, ids: set<Id>): State {
    if !s.proc.Dropping? || !(ids <= s.pending) || ids == {} || |ids| > READ_COUNT then s
    else s.(pending := s.pending - ids, acked := s.acked + ids, dropped := s.dropped + ids)
  }

  function Apply(s: State, l: Label): State {
    match l
    case Append(parses) => s.(log := s.log + [parses])
    case Trim(upTo) => s.(trimmed := Min(Max(s.trimmed, upTo), |s.log|))
    case Read(count) => DoRead(s, count)
    case Process => DoProcess(s)
    case Ack => DoAck(s)
    case Crash => s.(proc := Down)
    case Restart => if s.proc.Down? then s.(proc := Dropping) else s
    case Drop(ids) => DoDrop(s, ids)
    case DropDone => if s.proc.Dropping? && s.pending == {} then s.(proc := Running([], 0)) else s
  }

  function Run(s: State, labels: seq<Label>): State {
    if labels == [] then s else Apply(Run(s, labels[..|labels| - 1]), labels[|labels| - 1])
  }

  predicate Parses(s: State, id: Id) {
    id < |s.log| && s.log[id]
  }

  // ----- the invariant

  ghost predicate PageOk(s: State, page: seq<Id>, next: nat) {
    && next <= |page| && NoDup(page)
    && (forall i :: 0 <= i < |page| ==> page[i] in s.pending)
    && (forall i :: 0 <= i < next ==> page[i] in s.scanned || !Parses(s, page[i]))
    && (forall i :: next <= i < |page| ==> page[i] !in s.scanned)
  }

  ghost predicate Inv(s: State) {
    && s.lastDelivered <= |s.log|
    && (forall id: Id :: id in s.delivered ==> id < s.lastDelivered)
    && s.delivered == s.pending + s.acked && s.pending !! s.acked
    && NoDup(s.scanned)
    && (forall id: Id :: id in s.scanned ==> id in s.delivered && Parses(s, id))
    && (forall id: Id :: id in s.acked ==> id in s.scanned || !Parses(s, id) || id in s.dropped)
    && (s.proc.Running? ==> PageOk(s, s.proc.page, s.proc.next))
  }

  lemma {:induction false} ReadKeeps(s: State, count: nat)
    requires Inv(s)
    ensures Inv(DoRead(s, count))
  {
  }

  /** The message about to be processed is scanned neither before nor later on this page. */
  lemma {:induction false} NextIsNew(s: State)
    requires Inv(s) && s.proc.Running? && s.proc.next < |s.proc.page|
    ensures
      var Running(page, next) := s.proc;
      page[next] !in s.scanned && page[next] in s.pending && forall i :: next < i < |page| ==> page[i] != page[next]
  {
  }

  lemma {:induction false} ProcessKeeps(s: State)
    requires Inv(s)
    ensures Inv(DoProcess(s))
  {
    hide NoDup;
    var s' := DoProcess(s);
    if s' != s {
      NextIsNew(s);
      var page, next := s.proc.page, s.proc.next;
      var id := page[next];
      if Parses(s, id) {
        assert NoDup([id]) by { SingleNoDup(id); }
        NoDupConcat(s.scanned, [id]);
        assert s'.scanned == s.scanned + [id];
        assert forall x: Id :: x in s'.scanned <==> x in s.scanned || x == id;
      }
    }
  }

  lemma {:induction false} SingleNoDup(id: Id)
    ensures NoDup([id])
  {
  }

  lemma {:induction false} AckKeeps(s: State)
    requires Inv(s)
    ensures Inv(DoAck(s))
  {
  }

  lemma {:induction false} AppendKeeps(s: State, parses: bool)
    requires Inv(s)
    ensures Inv(Apply(s, Append(parses)))
  {
  }

  lemma {:induction false} StepKeeps(s: State, l: Label)
    requires Inv(s)
    ensures Inv(Apply(s, l))
  {
    match l {
      case Append(parses) => AppendKeeps(s, parses);
      case Read(count) => ReadKeeps(s, count);
      case Process => ProcessKeeps(s);
      case Ack => AckKeeps(s);
      case _ => RestKeeps(s, l);
    }
  }

  lemma {:induction false} RestKeeps(s: State, l: Label)
    requires Inv(s) && !l.Append? && !l.Read? && !l.Process? && !l.Ack?
    ensures Inv(Apply(s, l))
  {
    match l {
      case Drop(ids) => DropKeeps(s, ids);
      case _ => ProcOnlyKeeps(s, Apply(s, l));
    }
  }

  lemma {:induction false} DropKeeps(s: State, ids: set<Id>)
    requires Inv(s)
    ensures Inv(DoDrop(s, ids))
  {
  }

  /** Only the process or the trim point changed, and a process that runs has the old or an empty page. */
  lemma {:induction false} ProcOnlyKeeps(s: State, s': State)
    requires Inv(s) && s' == s.(proc := s'.proc, trimmed := s'.trimmed)
    requires s'.proc == s.proc || !s'.proc.Running? || s'.proc == Running([], 0)
    ensures Inv(s')
  {
  }

  lemma {:induction false} RunKeeps(labels: seq<Label>)
    ensures Inv(Run(Init(), labels))
  {
    if labels != [] {
      hide Inv;
      RunKeeps(labels[..|labels| - 1]);
      StepKeeps(Run(Init(), labels[..|labels| - 1]), labels[|labels| - 1]);
    }
  }

  /**
    Main result: across every crash and restart each entry is scanned at most once, and an
    acknowledged entry was scanned, unparsable, or dropped at a restart.
   */
  lemma {:induction false} AtMostOnce(labels: seq<Label>, id: Id)
    ensures
      var s := Run(Init(), labels);
      && multiset(s.scanned)[id] <= 1
      && (id in s.delivered <==> id in s.pending || id in s.acked) && !(id in s.pending && id in s.acked)
      && (id in s.acked ==> id in s.scanned || !Parses(s, id) || id in s.dropped)
      && (id in s.scanned ==> id in s.delivered && Parses(s, id))
  {
    hide Run;
    RunKeeps(labels);
    NoDupCount<Id>(Run(Init(), labels).scanned, id);
  }

  /** A consumer started only once drops nothing, so it scans every valid entry it acknowledges. */
  lemma {:induction false} NothingDroppedInFirstLife(labels: seq<Label>)
    requires StartsOnce(labels)
    ensures Run(Init(), labels).dropped == {}
    ensures
      var s := Run(Init(), labels);
      forall id: Id :: id in s.acked && Parses(s, id) ==> id in s.scanned
  {
    FirstLife(labels);
    RunKeeps(labels);
  }

  /** Before the second start there is nothing to drop. */
  ghost predicate FirstLifeOk(s: State, restarted: bool) {
    && s.dropped == {}
    && (!restarted ==> s.proc.Down?)
    && (s.proc.Down? && !restarted ==> s.pending == {})
    && (s.proc.Dropping? ==> s.pending == {})
  }

  ghost predicate StartsOnce(labels: seq<Label>) {
    forall i, j :: 0 <= i < j < |labels| ==> !(labels[i].Restart? && labels[j].Restart?)
  }

  ghost predicate HasRestart(labels: seq<Label>) {
    exists i :: 0 <= i < |labels| && labels[i].Restart?
  }

  lemma {:induction false} FirstLifeStep(s: State, l: Label, restarted: bool)
    requires FirstLifeOk(s, restarted) && !(l.Restart? && restarted)
    ensures FirstLifeOk(Apply(s, l), restarted || l.Restart?)
  {
  }

  lemma {:induction false} FirstLife(labels: seq<Label>)
    requires StartsOnce(labels)
    ensures FirstLifeOk(Run(Init(), labels), HasRestart(labels))
  {
    if labels != [] {
      hide FirstLifeOk, Apply, StartsOnce, HasRestart;
      var init, l := labels[..|labels| - 1], labels[|labels| - 1];
      assert labels == init + [l];
      StartsOnceSnoc(init, l);
      HasRestartSnoc(init, l);
      FirstLife(init);
      FirstLifeStep(Run(Init(), init), l, HasRestart(init));
    }
  }

  lemma {:induction false} StartsOnceSnoc(labels: seq<Label>, l: Label)
    requires StartsOnce(labels + [l])
    ensures StartsOnce(labels) && !(l.Restart? && HasRestart(labels))
  {
    var all := labels + [l];
    assert all[|labels|] == l && forall i :: 0 <= i < |labels| ==> all[i] == labels[i];
  }

  lemma {:induction false} HasRestartSnoc(labels: seq<Label>, l: Label)
    ensures HasRestart(labels + [l]) <==> HasRestart(labels) || l.Restart?
  {
    var all := labels + [l];
    assert all[|labels|] == l;
    if HasRestart(labels) {
      var i :| 0 <= i < |labels| && labels[i].Restart?;
      assert all[i].Restart?;
    }
  }
}
