/** The append-only event log of an external feature rename, and the grammar
    (`validateEvent`) every recorded or reloaded event must satisfy.

    A plan freezes `n` pointer files.  Each effect of the protocol is written
    ahead as an `Intent` event and acknowledged by a `Done` event. */
module RenameJournal {

  import opened Options

  datatype Effect =
    | Stage(i: nat) | Preserve(i: nat) | Publish(i: nat)
    | Unpublish(i: nat) | Restore(i: nat) | Cleanup(i: nat)
    | Move | Abort | MoveBack | Complete | Aborted | Cleaned

  datatype Phase = Intent | Done

  datatype Event = Event(effect: Effect, phase: Phase)

  type Log = seq<Event>

  /** The intent of an effect. */
  function I(e: Effect): Event { Event(e, Intent) }

  /** The acknowledgement of an effect. */
  function D(e: Effect): Event { Event(e, Done) }

  // ---------- the grammar ----------

  predicate InRange(n: nat, e: Effect) {
    match e
    case Stage(i) => i < n
    case Preserve(i) => i < n
    case Publish(i) => i < n
    case Unpublish(i) => i < n
    case Restore(i) => i < n
    case Cleanup(i) => i < n
    case _ => true
  }

  predicate Terminal(log: Log) { D(Complete) in log || D(Aborted) in log }

  predicate Staged(log: Log, i: nat) { D(Stage(i)) in log }

  /** Which direction of the protocol may still speak. */
  predicate DirectionAllows(log: Log, e: Effect) {
    match e
    case Cleanup(_) => Terminal(log)
    case Cleaned => Terminal(log)
    case Abort => !Terminal(log)
    case Unpublish(_) => !Terminal(log) && I(Abort) in log
    case Restore(_) => !Terminal(log) && I(Abort) in log
    case MoveBack => !Terminal(log) && I(Abort) in log
    case Aborted => !Terminal(log) && I(Abort) in log
    case _ => !Terminal(log) && I(Abort) !in log
  }

  /** The frozen order of effects. */
  predicate OrderAllows(n: nat, log: Log, e: Effect) {
    match e
    case Complete => D(Move) in log && forall i: nat | i < n :: D(Publish(i)) in log
    case Stage(i) => I(Move) !in log && (i > 0 ==> D(Stage(i - 1)) in log)
    case Move => forall i: nat | i < n :: D(Stage(i)) in log
    case Preserve(i) =>
      D(Move) in log && D(Stage(i)) in log && (i > 0 ==> D(Publish(i - 1)) in log)
    case Publish(i) =>
      D(Move) in log && D(Stage(i)) in log && (i > 0 ==> D(Publish(i - 1)) in log) && D(Preserve(i)) in log
    case Restore(i) => D(Unpublish(i)) in log
    case MoveBack => forall i: nat | i < n :: Staged(log, i) ==> D(Restore(i)) in log
    case Aborted => D(MoveBack) in log
    case Cleaned => forall i: nat | i < n :: Staged(log, i) ==> D(Cleanup(i)) in log
    case _ => true
  }

  /** `validateEvent`, without the record header and the staging evidence. */
  predicate ValidEvent(n: nat, log: Log, ev: Event) {
    && ev !in log
    && (ev.phase == Done ==> I(ev.effect) in log)
    && InRange(n, ev.effect)
    && D(Cleaned) !in log
    && DirectionAllows(log, ev.effect)
    && OrderAllows(n, log, ev.effect)
  }

  /** A log every event of which was valid when it was appended. */
  predicate Accepted(n: nat, log: Log) {
    |log| == 0 ||
    (Accepted(n, log[..|log| - 1]) && ValidEvent(n, log[..|log| - 1], log[|log| - 1]))
  }

  // ---------- records on disk ----------

  datatype PointerKind = Forward | Backpointer | Registry

  datatype PointerPlan = PointerPlan(kind: PointerKind, stageRoot: string, afterHash: nat, mode: nat)

  datatype Plan = Plan(hash: nat, pointers: seq<PointerPlan>)

  const JOURNAL_VERSION := 1

  datatype DirectoryEvidence = DirectoryEvidence(path: string, identity: nat)

  datatype FileEvidence = FileEvidence(present: bool, regular: bool, inode: nat, hash: nat, mode: nat)

  datatype Record = Record(
    version: int, sequence: int, planHash: nat, event: Event,
    directory: Option<DirectoryEvidence>, file: Option<FileEvidence>)

  /** Only a completed staging may, and must, carry filesystem authority. */
  predicate EvidenceAllows(plan: Plan, r: Record) {
    if r.event.effect.Stage? && r.event.phase == Done then
      && r.event.effect.i < |plan.pointers|
      && r.directory.Some? && r.file.Some?
      && var p := plan.pointers[r.event.effect.i];
      && r.directory.value.path == p.stageRoot && r.directory.value.identity != 0
      && r.file.value.present && r.file.value.regular && r.file.value.inode != 0
      && r.file.value.hash == p.afterHash && r.file.value.mode == p.mode
    else
      r.directory.None? && r.file.None?
  }

  predicate ValidRecord(plan: Plan, log: Log, r: Record) {
    && r.version == JOURNAL_VERSION
    && r.sequence == |log|
    && r.planHash == plan.hash
    && ValidEvent(|plan.pointers|, log, r.event)
    && EvidenceAllows(plan, r)
  }

  function EventsOf(rs: seq<Record>): (log: Log)
    ensures |log| == |rs|
  {
    if |rs| == 0 then [] else EventsOf(rs[..|rs| - 1]) + [rs[|rs| - 1].event]
  }

  /** Every record is valid after the records before it. */
  predicate GoodRecords(plan: Plan, rs: seq<Record>) {
    |rs| == 0 ||
    (GoodRecords(plan, rs[..|rs| - 1]) && ValidRecord(plan, EventsOf(rs[..|rs| - 1]), rs[|rs| - 1]))
  }

  lemma {:induction false} GoodPrefix(plan: Plan, rs: seq<Record>, k: nat)
    requires GoodRecords(plan, rs) && k <= |rs|
    ensures GoodRecords(plan, rs[..k])
  {
    if k == |rs| {
      assert rs[..k] == rs;
    } else {
      GoodPrefix(plan, rs[..|rs| - 1], k);
      assert rs[..|rs| - 1][..k] == rs[..k];
    }
  }

  /** The events of good records form a log the grammar accepts. */
  lemma {:induction false} GoodRecordsAccepted(plan: Plan, rs: seq<Record>)
    requires GoodRecords(plan, rs)
    ensures Accepted(|plan.pointers|, EventsOf(rs))
  {
    if |rs| > 0 {
      GoodRecordsAccepted(plan, rs[..|rs| - 1]);
      AcceptedExtend(|plan.pointers|, EventsOf(rs[..|rs| - 1]), rs[|rs| - 1].event);
    }
  }

  /** Reloading a journal directory: accepted exactly when every record is valid
      after the ones before it, and then the log is one the grammar accepts. */
  method LoadJournal(plan: Plan, rs: seq<Record>) returns (ok: bool, log: Log)
    ensures ok <==> GoodRecords(plan, rs)
    ensures ok ==> log == EventsOf(rs) && Accepted(|plan.pointers|, log)
  {
    log := [];
    var k := 0;
    while k < |rs|
      invariant 0 <= k <= |rs|
      invariant log == EventsOf(rs[..k])
      invariant GoodRecords(plan, rs[..k])
    {
      var valid := ValidRecord(plan, log, rs[k]);
      assert rs[..k + 1][..k] == rs[..k];
      assert GoodRecords(plan, rs[..k + 1]) == valid;
      if !valid {
        if GoodRecords(plan, rs) { GoodPrefix(plan, rs, k + 1); }
        return false, log;
      }
      log := log + [rs[k].event];
      k := k + 1;
    }
    assert rs[..|rs|] == rs;
    GoodRecordsAccepted(plan, rs);
    return true, log;
  }

  /** What the executor writes as its `k`-th record: a completed staging names the directory it made and the
      regular file in it, with the content and the mode the plan asks for; nothing else names a file. */
  function Written(plan: Plan, k: nat, ev: Event, identity: nat, inode: nat): Record
    requires InRange(|plan.pointers|, ev.effect)
  {
    match ev
    case Event(Stage(i), Done) =>
      var p := plan.pointers[i];
      Record(JOURNAL_VERSION, k, plan.hash, ev, Some(DirectoryEvidence(p.stageRoot, identity)),
             Some(FileEvidence(true, true, inode, p.afterHash, p.mode)))
    case _ => Record(JOURNAL_VERSION, k, plan.hash, ev, None, None)
  }

  ghost predicate WrittenAt(plan: Plan, rs: seq<Record>, k: nat)
    requires k < |rs|
  {
    && InRange(|plan.pointers|, rs[k].event.effect)
    && exists identity: nat, inode: nat ::
         identity > 0 && inode > 0 && rs[k] == Written(plan, k, rs[k].event, identity, inode)
  }

  lemma ValidIsWritten(plan: Plan, rs: seq<Record>, k: nat)
    requires k < |rs| && InRange(|plan.pointers|, rs[k].event.effect)
    ensures WrittenAt(plan, rs, k) <==>
              && rs[k].version == JOURNAL_VERSION && rs[k].sequence == k && rs[k].planHash == plan.hash
              && EvidenceAllows(plan, rs[k])
  {
    var r := rs[k];
    if EvidenceAllows(plan, r) && r.version == JOURNAL_VERSION && r.sequence == k && r.planHash == plan.hash {
      if r.directory.Some? {
        assert r == Written(plan, k, r.event, r.directory.value.identity, r.file.value.inode);
      } else {
        assert r == Written(plan, k, r.event, 1, 1);
      }
    }
  }

  /** What the executor writes loads again, and nothing else does. */
  lemma {:induction false} LoadsExactlyWritten(plan: Plan, rs: seq<Record>)
    ensures GoodRecords(plan, rs) <==>
              Accepted(|plan.pointers|, EventsOf(rs)) && forall k :: 0 <= k < |rs| ==> WrittenAt(plan, rs, k)
  {
    if |rs| > 0 {
      var n := |rs| - 1;
      var before := rs[..n];
      LoadsExactlyWritten(plan, before);
      assert EventsOf(rs)[..n] == EventsOf(before) && EventsOf(rs)[n] == rs[n].event;
      hide Written, EvidenceAllows, DirectionAllows, OrderAllows;
      forall k: nat | k < n ensures WrittenAt(plan, rs, k) == WrittenAt(plan, before, k) {
        assert rs[k] == before[k];
      }
      if InRange(|plan.pointers|, rs[n].event.effect) { ValidIsWritten(plan, rs, n); }
    }
  }

  // ---------- prefixes of accepted logs ----------

  lemma AcceptedExtend(n: nat, log: Log, ev: Event)
    requires Accepted(n, log) && ValidEvent(n, log, ev)
    ensures Accepted(n, log + [ev])
  {
    assert (log + [ev])[..|log|] == log;
  }

  lemma {:induction false} AcceptedPrefix(n: nat, log: Log, k: nat)
    requires Accepted(n, log) && k <= |log|
    ensures Accepted(n, log[..k])
  {
    if k == |log| {
      assert log[..k] == log;
    } else {
      AcceptedPrefix(n, log[..|log| - 1], k);
      assert log[..|log| - 1][..k] == log[..k];
    }
  }

  /** Every event of an accepted log was valid after the events before it. */
  lemma {:induction false} AcceptedAt(n: nat, log: Log, k: nat)
    requires Accepted(n, log) && k < |log|
    ensures ValidEvent(n, log[..k], log[k])
  {
    AcceptedPrefix(n, log, k + 1);
    assert log[..k + 1][..k] == log[..k];
  }

  // ---------- what an accepted log means ----------

  /** What the presence of one event says about the rest of the log, whatever the positions. */
  ghost predicate Explained(n: nat, log: Log, ev: Event) {
    && InRange(n, ev.effect)
    && (ev.phase == Done ==> I(ev.effect) in log)
    && match ev.effect
       case Stage(i) => i > 0 ==> D(Stage(i - 1)) in log
       case Move => forall i: nat | i < n :: D(Stage(i)) in log
       case Preserve(i) => D(Move) in log && D(Stage(i)) in log && (i > 0 ==> D(Publish(i - 1)) in log)
       case Publish(i) => D(Move) in log && D(Stage(i)) in log && D(Preserve(i)) in log
       case Complete =>
         && D(Move) in log
         && (forall i: nat | i < n :: D(Publish(i)) in log)
         && (ev.phase == Done ==> I(Abort) !in log)
       case Abort => D(Complete) !in log
       case Unpublish(_) => I(Abort) in log
       case Restore(i) => I(Abort) in log && D(Unpublish(i)) in log
       case MoveBack =>
         I(Abort) in log && forall i: nat | i < n :: Staged(log, i) ==> D(Restore(i)) in log
       case Aborted => I(Abort) in log && D(MoveBack) in log
       case Cleanup(_) => Terminal(log)
       case Cleaned => Terminal(log) && forall i: nat | i < n :: Staged(log, i) ==> D(Cleanup(i)) in log
  }

  ghost predicate Closed(n: nat, log: Log) {
    forall ev :: ev in log ==> Explained(n, log, ev)
  }

  lemma ExplainedSurvives(n: nat, log: Log, next: Event, ev: Event)
    requires Closed(n, log) && ValidEvent(n, log, next) && ev in log
    ensures Explained(n, log + [next], ev)
  {
    assert Explained(n, log, ev);
    if ev.effect.Abort? {
      assert I(Abort) in log;
      assert next != D(Complete);
    }
  }

  lemma ExplainedAtFirst(n: nat, log: Log, next: Event)
    requires Closed(n, log) && ValidEvent(n, log, next)
    ensures Explained(n, log + [next], next)
  {
    if next.effect.Publish? { assert Explained(n, log, D(Preserve(next.effect.i))); }
  }

  lemma {:induction false} AcceptedClosed(n: nat, log: Log)
    requires Accepted(n, log)
    ensures Closed(n, log)
  {
    if |log| > 0 {
      var init, last := log[..|log| - 1], log[|log| - 1];
      AcceptedClosed(n, init);
      assert init + [last] == log;
      forall ev | ev in log ensures Explained(n, log, ev) {
        if ev in init { ExplainedSurvives(n, init, last, ev); } else { ExplainedAtFirst(n, init, last); }
      }
    }
  }

  /** Completion and rollback exclude each other, for good. */
  lemma {:induction false} TerminalOutcomesExclusive(n: nat, log: Log)
    requires Accepted(n, log)
    ensures !(D(Complete) in log && D(Aborted) in log)
    ensures D(Complete) in log ==> I(Abort) !in log
  {
    AcceptedClosed(n, log);
    if D(Complete) in log { assert Explained(n, log, D(Complete)); }
    if D(Aborted) in log { assert Explained(n, log, D(Aborted)); }
  }

  /** Nothing follows the `cleaned` acknowledgement. */
  lemma {:induction false} NothingAfterCleaned(n: nat, log: Log)
    requires Accepted(n, log) && D(Cleaned) in log
    ensures log[|log| - 1] == D(Cleaned)
    ensures D(Cleaned) !in log[..|log| - 1]
  {
    assert ValidEvent(n, log[..|log| - 1], log[|log| - 1]);
    assert log == log[..|log| - 1] + [log[|log| - 1]];
  }

  // ---------- the frozen forward order ----------

  predicate IsForwardDone(ev: Event) {
    ev.phase == Done &&
    (ev.effect.Stage? || ev.effect.Move? || ev.effect.Preserve? || ev.effect.Publish? || ev.effect.Complete?)
  }

  function ForwardDone(log: Log): Log {
    if |log| == 0 then []
    else
      var last := log[|log| - 1];
      ForwardDone(log[..|log| - 1]) + (if IsForwardDone(last) then [last] else [])
  }

  function FrozenLength(n: nat): nat { 3 * n + 2 }

  /** The k-th forward effect: stage all, move, then preserve and publish pointer by pointer, then complete. */
  function FrozenAt(n: nat, k: nat): Effect
    requires k < FrozenLength(n)
  {
    if k < n then Stage(k)
    else if k == n then Move
    else if k < 3 * n + 1 then
      (if (k - n - 1) % 2 == 0 then Preserve((k - n - 1) / 2) else Publish((k - n - 1) / 2))
    else Complete
  }

  /** The frozen sequence of acknowledged forward effects. */
  function Frozen(n: nat): (s: Log)
    ensures |s| == FrozenLength(n)
    ensures forall k :: 0 <= k < |s| ==> s[k] == D(FrozenAt(n, k))
  {
    seq(FrozenLength(n), k requires 0 <= k < FrozenLength(n) => D(FrozenAt(n, k)))
  }

  function FrozenIndex(n: nat, e: Effect): nat
    requires IsForwardDone(D(e)) && InRange(n, e)
  {
    match e
    case Stage(i) => i
    case Move => n
    case Preserve(i) => n + 1 + 2 * i
    case Publish(i) => n + 2 + 2 * i
    case _ => 3 * n + 1
  }

  lemma FrozenIndexed(n: nat, e: Effect)
    requires IsForwardDone(D(e)) && InRange(n, e)
    ensures FrozenIndex(n, e) < FrozenLength(n) && FrozenAt(n, FrozenIndex(n, e)) == e
  {
  }

  /** A valid forward effect finds the effect just before it in the frozen order acknowledged. */
  lemma PredecessorDone(n: nat, log: Log, ev: Event)
    requires ValidEvent(n, log, ev) && IsForwardDone(ev)
    ensures FrozenIndex(n, ev.effect) > 0 ==>
              D(FrozenAt(n, FrozenIndex(n, ev.effect) - 1)) in log
  {
    var k := FrozenIndex(n, ev.effect);
    FrozenIndexed(n, ev.effect);
    match ev.effect
    case Stage(i) =>
    case Move => if n > 0 { assert D(Stage(n - 1)) in log; }
    case Preserve(i) =>
      if i > 0 { assert (k - 1 - n - 1) == 2 * (i - 1) + 1; assert FrozenAt(n, k - 1) == Publish(i - 1); }
    case Publish(i) => assert k - 1 - n - 1 == 2 * i; assert FrozenAt(n, k - 1) == Preserve(i);
    case Complete =>
      if n > 0 { assert k - 1 - n - 1 == 2 * (n - 1) + 1; assert FrozenAt(n, k - 1) == Publish(n - 1); }
  }

  lemma {:induction false} ForwardDoneMembers(log: Log, ev: Event)
    ensures ev in ForwardDone(log) <==> ev in log && IsForwardDone(ev)
  {
    if |log| > 0 {
      ForwardDoneMembers(log[..|log| - 1], ev);
      assert log == log[..|log| - 1] + [log[|log| - 1]];
    }
  }

  /** The next acknowledged forward effect is the next one of the frozen order. */
  lemma NextForward(n: nat, log: Log, last: Event, m: nat)
    requires m <= FrozenLength(n) && ForwardDone(log) == Frozen(n)[..m]
    requires ValidEvent(n, log, last) && IsForwardDone(last)
    ensures m < FrozenLength(n) && last == D(FrozenAt(n, m))
  {
    var k := FrozenIndex(n, last.effect);
    FrozenIndexed(n, last.effect);
    PredecessorDone(n, log, last);
    if k < m {
      assert ForwardDone(log)[k] == last;
      ForwardDoneMembers(log, last);
    } else if k > m {
      var prev := D(FrozenAt(n, k - 1));
      ForwardDoneMembers(log, prev);
      FrozenForward(n, k - 1);
      var j :| 0 <= j < m && ForwardDone(log)[j] == prev;
      FrozenInjective(n, j, k - 1);
    }
  }

  lemma FrozenForward(n: nat, k: nat)
    requires k < FrozenLength(n)
    ensures IsForwardDone(D(FrozenAt(n, k)))
  {
  }

  /** In every accepted log the acknowledged forward effects are an initial part of the
      frozen order: nothing is skipped, repeated or reordered, at any moment of any run. */
  lemma {:induction false} ForwardFollowsFrozenOrder(n: nat, log: Log)
    requires Accepted(n, log)
    ensures |ForwardDone(log)| <= FrozenLength(n)
    ensures ForwardDone(log) == Frozen(n)[..|ForwardDone(log)|]
  {
    if |log| > 0 {
      var init, last := log[..|log| - 1], log[|log| - 1];
      ForwardFollowsFrozenOrder(n, init);
      if IsForwardDone(last) {
        var m := |ForwardDone(init)|;
        NextForward(n, init, last, m);
        assert Frozen(n)[..m + 1] == Frozen(n)[..m] + [Frozen(n)[m]];
      }
    }
  }

  lemma FrozenInjective(n: nat, j: nat, k: nat)
    requires j < FrozenLength(n) && k < FrozenLength(n) && FrozenAt(n, j) == FrozenAt(n, k)
    ensures j == k
  {
    assert FrozenIndex(n, FrozenAt(n, j)) == j;
    assert FrozenIndex(n, FrozenAt(n, k)) == k;
  }

  /** A completed log acknowledges the whole frozen order, each effect once, completion last. */
  lemma CompleteMeansEverything(n: nat, log: Log)
    requires Accepted(n, log) && D(Complete) in log
    ensures ForwardDone(log) == Frozen(n)
  {
    ForwardFollowsFrozenOrder(n, log);
    ForwardDoneMembers(log, D(Complete));
    var m := |ForwardDone(log)|;
    var j :| 0 <= j < m && ForwardDone(log)[j] == D(Complete);
    assert Frozen(n)[j] == D(FrozenAt(n, j));
    FrozenInjective(n, j, 3 * n + 1);
    assert Frozen(n)[..m] == Frozen(n);
  }

  // ---------- the length bound ----------

  function Code(n: nat, ev: Event): nat
    requires InRange(n, ev.effect)
  {
    var base: nat :=
      match ev.effect
      case Stage(i) => i
      case Preserve(i) => n + i
      case Publish(i) => 2 * n + i
      case Unpublish(i) => 3 * n + i
      case Restore(i) => 4 * n + i
      case Cleanup(i) => 5 * n + i
      case Move => 6 * n
      case Abort => 6 * n + 1
      case MoveBack => 6 * n + 2
      case Complete => 6 * n + 3
      case Aborted => 6 * n + 4
      case Cleaned => 6 * n + 5;
    2 * base + (if ev.phase == Intent then 0 else 1)
  }

  lemma CodeInjective(n: nat, a: Event, b: Event)
    requires InRange(n, a.effect) && InRange(n, b.effect) && Code(n, a) == Code(n, b)
    ensures a == b
  {
    assert Code(n, a) % 2 == Code(n, b) % 2;
  }

  function Below(m: nat): (s: set<nat>)
    ensures |s| == m
    ensures forall x: nat :: x in s <==> x < m
  {
    if m == 0 then {} else Below(m - 1) + {m - 1}
  }

  function Elements(s: seq<nat>): (r: set<nat>)
    ensures forall x :: x in r <==> x in s
    ensures |r| <= |s|
    ensures (forall i, j :: 0 <= i < j < |s| ==> s[i] != s[j]) ==> |r| == |s|
  {
    if |s| == 0 then {}
    else
      assert s == s[..|s| - 1] + [s[|s| - 1]];
      Elements(s[..|s| - 1]) + {s[|s| - 1]}
  }

  lemma {:induction false} SubsetSize<T>(a: set<T>, b: set<T>)
    requires a <= b
    ensures |a| <= |b|
  {
    if a != {} {
      var x :| x in a;
      SubsetSize(a - {x}, b - {x});
    }
  }

  lemma Pigeonhole(s: seq<nat>, m: nat)
    requires forall i :: 0 <= i < |s| ==> s[i] < m
    requires forall i, j :: 0 <= i < j < |s| ==> s[i] != s[j]
    ensures |s| <= m
  {
    SubsetSize(Elements(s), Below(m));
  }

  /** No event is ever written twice, so a log over n pointers has at most 12(n+1) events:
      the termination measure of recovery. */
  lemma LogLengthBounded(n: nat, log: Log)
    requires Accepted(n, log)
    ensures forall i, j :: 0 <= i < j < |log| ==> log[i] != log[j]
    ensures |log| <= 12 * (n + 1)
  {
    forall k | 0 <= k < |log| ensures InRange(n, log[k].effect) { AcceptedAt(n, log, k); }
    forall i, j | 0 <= i < j < |log| ensures log[i] != log[j] {
      AcceptedAt(n, log, j);
      assert log[..j][i] == log[i];
    }
    var codes := seq(|log|, k requires 0 <= k < |log| => Code(n, log[k]));
    forall i, j | 0 <= i < j < |log| ensures codes[i] != codes[j] {
      if codes[i] == codes[j] { CodeInjective(n, log[i], log[j]); }
    }
    Pigeonhole(codes, 12 * (n + 1));
  }
}
