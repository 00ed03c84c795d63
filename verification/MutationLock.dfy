/** The workspace-wide checkout mutation lock: processes creating, reading, judging, taking over and releasing
    one lock file, dying at any point, next to the state files their operations leave. */
module MutationLock {
  import opened Options

  type Pid = nat

  datatype Operation = Sync | Reparent | Publication | Metadata

  /** What a lock file says about its owner. */
  datatype Claim = Claim(pid: Pid, token: string, feature: string, operation: Operation, statePath: string)

  /** The lock file.  It is created empty and written afterwards; until then nobody can read it. */
  datatype File = Absent | Unwritten(creator: Pid) | Owned(claim: Claim)

  /** A recoverable state file: one that bars a fresh acquisition.  Most are while their operation is unfinished; a
      reparent's is until it is removed, even when it already says that the run has ended.  In the file system name
      and directory give feature and operation. */
  datatype StateFile = StateFile(path: string, feature: string, operation: Operation)

  /** `replaced` is the dead owner's claim that was removed on the way, if any; `recorded` tells whether a holder
      has written, or read, its own state file.  A reparent is `Closing` once it gave up the lock and before it
      removed its state file. */
  datatype Phase =
    | Creating(again: bool, replaced: Option<Claim>)
    | Filling(replaced: Option<Claim>)
    | Verifying(replaced: Option<Claim>)
    | Holding(replaced: Option<Claim>, recorded: bool)
    | Closing
    | Reading
    | Judging(found: Claim)
    | Removing(found: Claim)

  datatype Proc = Proc(claim: Claim, isNew: bool, phase: Phase)

  /** `isNew` tells a fresh mutation from a recovery; `dead` remembers the processes that ended; `ended` are the
      recoverable files that say their run has ended. */
  datatype State = State(
    file: File, states: set<StateFile>, alive: set<Pid>, dead: set<Pid>, procs: map<Pid, Proc>, ended: set<StateFile>)

  datatype Event =
    | Spawn(pid: Pid)
    | Acquire(claim: Claim)
    | Reclaim(claim: Claim)
    | Advance(pid: Pid)
    | WriteFails(pid: Pid)
    | Fail(pid: Pid)
    | SaveState(pid: Pid, state: StateFile)
    | DropState(pid: Pid, state: StateFile)
    | Release(pid: Pid)
    | Finish(pid: Pid)
    | LateSave(pid: Pid)
    | Retire(pid: Pid)
    | Leave(pid: Pid)
    | Die(pid: Pid)

  // ---------- steps ----------

  predicate SameOwner(a: Claim, b: Claim) {
    a.token == b.token && a.feature == b.feature && a.operation == b.operation && a.statePath == b.statePath
  }

  /** The state files an operation writes and its recovery may find: its own, and for a reparent the checkout sync
      of its feature, which it writes so that older releases keep out. */
  predicate Own(c: Claim, f: StateFile) {
    && f.feature == c.feature
    && ((f.path == c.statePath && f.operation == c.operation) || (c.operation.Reparent? && f.operation.Sync?))
  }

  /** The operation's own state file. */
  function OwnFile(c: Claim): StateFile {
    StateFile(c.statePath, c.feature, c.operation)
  }

  function With(s: State, p: Pid, phase: Phase): State
    requires p in s.procs
  {
    s.(procs := s.procs[p := s.procs[p].(phase := phase)])
  }

  function GaveUp(s: State, p: Pid): State {
    s.(procs := s.procs - {p})
  }

  /** `removeCheckoutMutationLockIfUnchanged` as one step. */
  function Removed(s: State, c: Claim): State {
    if s.file == Owned(c) then s.(file := Absent) else s
  }

  /** `ReleaseCheckoutMutationLock`: the file is read, and removed when the token is still the caller's. */
  function Released(s: State, token: string): State {
    if s.file.Owned? && s.file.claim.token == token then s.(file := Absent) else s
  }

  /** One step of an acquisition. */
  function Advanced(s: State, p: Pid): State
    requires p in s.procs
  {
    var proc := s.procs[p];
    match proc.phase
    case Creating(again, replaced) =>
      if s.file.Absent? then With(s, p, Filling(replaced)).(file := Unwritten(p))
      else if proc.isNew && !again then With(s, p, Reading)
      else GaveUp(s, p)
    case Filling(replaced) => With(s, p, Verifying(replaced)).(file := Owned(proc.claim))
    case Verifying(replaced) =>
      if (if proc.isNew then s.states == {} else forall f | f in s.states :: Own(proc.claim, f))
      then With(s, p, Holding(replaced, !proc.isNew))
      else Released(GaveUp(s, p), proc.claim.token)
    case Holding(_, _) => s
    case Closing => s
    case Reading =>
      if s.file.Owned? then With(s, p, Judging(s.file.claim))
      else if s.file.Absent? && !proc.isNew then With(s, p, Creating(true, None))
      else GaveUp(s, p)
    case Judging(found) =>
      if proc.isNew then
        if found.pid in s.alive || exists f | f in s.states :: f.path == found.statePath
        then GaveUp(s, p) else With(s, p, Removing(found))
      else if !SameOwner(found, proc.claim) || (found.pid != p && found.pid in s.alive)
      then GaveUp(s, p) else With(s, p, Removing(found))
    case Removing(found) =>
      if s.file == Owned(found) then Removed(With(s, p, Creating(true, Some(found))), found) else GaveUp(s, p)
  }

  predicate Idle(s: State, p: Pid) {
    p in s.alive && p !in s.procs
  }

  function Late(s: State, f: StateFile): State {
    s.(states := s.states + {f}, ended := s.ended + {f})
  }

  predicate HoldsLock(s: State, p: Pid) {
    p in s.procs && s.procs[p].phase.Holding?
  }

  predicate Closes(s: State, p: Pid) {
    p in s.procs && s.procs[p].phase.Closing?
  }

  function Step(s: State, e: Event): State {
    match e
    // Process identifiers are not used twice.
    case Spawn(p) => if p in s.dead then s else s.(alive := s.alive + {p})
    case Acquire(c) =>
      if Idle(s, c.pid) then s.(procs := s.procs[c.pid := Proc(c, true, Creating(false, None))]) else s
    case Reclaim(c) => if Idle(s, c.pid) then s.(procs := s.procs[c.pid := Proc(c, false, Reading)]) else s
    case Advance(p) => if p in s.procs then Advanced(s, p) else s
    case WriteFails(p) =>
      if p in s.procs && s.procs[p].phase.Filling? then GaveUp(s, p).(file := Absent) else s
    // Any other error ends an acquisition where it is, with the lock file as it is.
    case Fail(p) => if p in s.procs && !s.procs[p].phase.Holding? then GaveUp(s, p) else s
    // The own state file comes first.  What is saved under the lock counts as unfinished.
    case SaveState(p, f) =>
      if HoldsLock(s, p) && Own(s.procs[p].claim, f) && (f == OwnFile(s.procs[p].claim) || s.procs[p].phase.recorded)
      then With(s, p, s.procs[p].phase.(recorded := true)).(states := s.states + {f}, ended := s.ended - {f}) else s
    // A reparent keeps its own until it has given up the lock.
    case DropState(p, f) =>
      if HoldsLock(s, p) && Own(s.procs[p].claim, f) && !(s.procs[p].claim.operation.Reparent? && f.operation.Reparent?)
      then s.(states := s.states - {f}, ended := s.ended - {f}) else s
    case Release(p) => if HoldsLock(s, p) then Released(GaveUp(s, p), s.procs[p].claim.token) else s
    case Finish(p) =>
      if HoldsLock(s, p) && s.procs[p].claim.operation.Reparent? && s.procs[p].phase.recorded
      then Released(With(s, p, Closing), s.procs[p].claim.token) else s
    // What it saves without the lock says that the run has ended.
    case LateSave(p) => if Closes(s, p) then Late(s, OwnFile(s.procs[p].claim)) else s
    case Retire(p) =>
      if Closes(s, p)
      then var f := OwnFile(s.procs[p].claim); GaveUp(s, p).(states := s.states - {f}, ended := s.ended - {f})
      else s
    // A command that returns an error keeps the lock file where it is.
    case Leave(p) => if HoldsLock(s, p) || Closes(s, p) then GaveUp(s, p) else s
    case Die(p) => if p in s.alive then GaveUp(s, p).(alive := s.alive - {p}, dead := s.dead + {p}) else s
  }

  function Run(s: State, es: seq<Event>): State {
    if |es| == 0 then s else Step(Run(s, es[..|es| - 1]), es[|es| - 1])
  }

  // ---------- the invariant ----------

  /** A claim removed or about to be removed: its owner is dead, or is the recovering process itself, and a
      recovery removes only its own operation's claim. */
  ghost predicate Replaceable(s: State, p: Pid, proc: Proc, found: Claim) {
    if proc.isNew then found.pid in s.dead
    else SameOwner(found, proc.claim) && (found.pid in s.dead || found.pid == p)
  }

  ghost predicate PhaseInv(s: State, p: Pid, proc: Proc) {
    && p in s.alive && proc.claim.pid == p
    && match proc.phase
       case Creating(_, replaced) => replaced.Some? ==> Replaceable(s, p, proc, replaced.value)
       case Filling(replaced) =>
         s.file == Unwritten(p) && (replaced.Some? ==> Replaceable(s, p, proc, replaced.value))
       case Verifying(replaced) =>
         s.file == Owned(proc.claim) && (replaced.Some? ==> Replaceable(s, p, proc, replaced.value))
       case Holding(replaced, recorded) =>
         && s.file == Owned(proc.claim) && (replaced.Some? ==> Replaceable(s, p, proc, replaced.value))
         && (!proc.isNew ==> recorded)
       case Closing => proc.claim.operation.Reparent?
       case Reading => true
       case Judging(found) => found.pid in s.alive + s.dead
       case Removing(found) => Replaceable(s, p, proc, found)
  }

  ghost predicate FileInv(s: State) {
    match s.file
    case Absent => true
    case Unwritten(p) => p in s.alive + s.dead
    case Owned(c) => c.pid in s.alive + s.dead
  }

  ghost predicate Inv(s: State) {
    && s.alive !! s.dead && s.ended <= s.states
    && FileInv(s)
    && forall p :: p in s.procs ==> PhaseInv(s, p, s.procs[p])
  }

  lemma OthersUndisturbed(s: State, p: Pid, q: Pid)
    requires Inv(s) && p in s.procs && q in s.procs && p != q
    ensures q in Advanced(s, p).procs && PhaseInv(Advanced(s, p), q, Advanced(s, p).procs[q])
  {
    hide Own, SameOwner, FileInv;
    assert PhaseInv(s, p, s.procs[p]) && PhaseInv(s, q, s.procs[q]);
  }

  lemma AdvanceKeepsInv(s: State, p: Pid)
    requires Inv(s) && p in s.procs
    ensures Inv(Advanced(s, p))
  {
    var t := Advanced(s, p);
    assert PhaseInv(s, p, s.procs[p]);
    forall q | q in t.procs
      ensures PhaseInv(t, q, t.procs[q])
    {
      if q != p { OthersUndisturbed(s, p, q); }
    }
  }

  lemma StepKeepsPhase(s: State, e: Event, q: Pid)
    requires Inv(s) && !(e.Advance? && e.pid in s.procs) && q in Step(s, e).procs
    ensures PhaseInv(Step(s, e), q, Step(s, e).procs[q])
  {
    hide Own, SameOwner, FileInv;
    if q in s.procs { assert PhaseInv(s, q, s.procs[q]); }
  }

  lemma StepKeepsInv(s: State, e: Event)
    requires Inv(s)
    ensures Inv(Step(s, e))
  {
    if e.Advance? && e.pid in s.procs {
      AdvanceKeepsInv(s, e.pid);
    } else {
      var t := Step(s, e);
      assert FileInv(t) && t.alive !! t.dead;
      hide Step, FileInv, PhaseInv;
      forall q | q in t.procs
        ensures PhaseInv(t, q, t.procs[q])
      {
        StepKeepsPhase(s, e, q);
      }
    }
  }

  lemma {:induction false} RunKeepsInv(s: State, es: seq<Event>)
    requires Inv(s)
    ensures Inv(Run(s, es))
  {
    if |es| > 0 {
      RunKeepsInv(s, es[..|es| - 1]);
      StepKeepsInv(Run(s, es[..|es| - 1]), es[|es| - 1]);
    }
  }

  // ---------- what follows, after any history ----------

  function Start(): State {
    State(Absent, {}, {}, {}, map[], {})
  }

  lemma RunStep(s: State, es: seq<Event>, e: Event)
    ensures Run(s, es + [e]) == Step(Run(s, es), e)
  {
    assert (es + [e])[..|es|] == es;
  }

  /** At most one live process holds the lock, and the lock file names it. */
  lemma OneHolder(es: seq<Event>, p: Pid, q: Pid)
    requires HoldsLock(Run(Start(), es), p) && HoldsLock(Run(Start(), es), q)
    ensures p == q && p in Run(Start(), es).alive
    ensures Run(Start(), es).file == Owned(Run(Start(), es).procs[p].claim)
  {
    RunKeepsInv(Start(), es);
    var s := Run(Start(), es);
    assert PhaseInv(s, p, s.procs[p]) && PhaseInv(s, q, s.procs[q]);
  }

  /** A process comes to hold the lock by passing its verification. */
  lemma HoldingStarts(s: State, e: Event, p: Pid)
    requires !HoldsLock(s, p) && HoldsLock(Step(s, e), p)
    ensures e == Advance(p) && p in s.procs && s.procs[p].phase.Verifying?
    ensures Step(s, e).states == s.states && Step(s, e).procs[p].isNew == s.procs[p].isNew
    ensures s.procs[p].isNew ==> s.states == {}
  {
  }

  /** A fresh acquisition succeeds only in a workspace without recoverable files and without a holder. */
  lemma FreshAcquireFindsNothing(es: seq<Event>, e: Event, p: Pid, q: Pid)
    requires var s := Run(Start(), es);
             !HoldsLock(s, p) && HoldsLock(Step(s, e), p) && Step(s, e).procs[p].isNew
    ensures Run(Start(), es).states == {} == Step(Run(Start(), es), e).states
    ensures !HoldsLock(Run(Start(), es), q)
  {
    RunKeepsInv(Start(), es);
    var s := Run(Start(), es);
    HoldingStarts(s, e, p);
    hide Run, Step;
    assert PhaseInv(s, p, s.procs[p]);
    if q in s.procs { assert PhaseInv(s, q, s.procs[q]); }
  }

  // ---------- whose the state is ----------

  ghost predicate OneFeature(states: set<StateFile>) {
    forall a, b :: a in states && b in states ==> a.feature == b.feature
  }

  /** Recoverable files whose run has not ended. */
  ghost function Unfinished(s: State): set<StateFile> {
    s.states - s.ended
  }

  /** These files are of one feature, and while the lock is held they are the holder's operation's. */
  ghost predicate Belongs(s: State, files: set<StateFile>) {
    OneFeature(files) && forall p, f :: HoldsLock(s, p) && f in files ==> Own(s.procs[p].claim, f)
  }

  /** Every step keeps that of the unfinished files. */
  lemma StepKeepsUnfinished(s: State, e: Event)
    requires Inv(s) && Belongs(s, Unfinished(s))
    ensures Belongs(Step(s, e), Unfinished(Step(s, e)))
  {
    var t := Step(s, e);
    forall p, f | HoldsLock(t, p) && f in Unfinished(t)
      ensures Own(t.procs[p].claim, f)
    {
      UnfinishedAfter(s, e, p, f);
    }
    UnfinishedOfOneFeature(s, e);
  }

  lemma UnfinishedOfOneFeature(s: State, e: Event)
    requires Belongs(s, Unfinished(s))
    ensures OneFeature(Unfinished(Step(s, e)))
  {
    var t := Step(s, e);
    if e.SaveState? && t != s {
      assert forall f :: f in Unfinished(s) ==> f.feature == e.state.feature;
      assert forall f :: f in Unfinished(t) ==> f in Unfinished(s) || f == e.state;
    } else {
      assert forall f :: f in Unfinished(t) ==> f in Unfinished(s);
    }
  }

  lemma UnfinishedAfter(s: State, e: Event, p: Pid, f: StateFile)
    requires Inv(s) && Belongs(s, Unfinished(s)) && HoldsLock(Step(s, e), p) && f in Unfinished(Step(s, e))
    ensures Own(Step(s, e).procs[p].claim, f)
  {
    if HoldsLock(s, p) {
      assert PhaseInv(s, p, s.procs[p]);
      if f !in Unfinished(s) && HoldsLock(s, e.pid) { assert PhaseInv(s, e.pid, s.procs[e.pid]); }
    } else {
      HoldingStarts(s, e, p);
    }
  }

  lemma {:induction false} UnfinishedBelongs(es: seq<Event>)
    ensures Inv(Run(Start(), es)) && Belongs(Run(Start(), es), Unfinished(Run(Start(), es)))
  {
    if |es| > 0 {
      var before, e := es[..|es| - 1], es[|es| - 1];
      UnfinishedBelongs(before);
      hide Inv, Belongs, Start, Unfinished;
      StepKeepsInv(Run(Start(), before), e);
      StepKeepsUnfinished(Run(Start(), before), e);
    }
  }

  /** All recoverable files are accounted for, ended or not. */
  ghost predicate Accounted(s: State) {
    Belongs(s, s.states)
  }

  /** A reparent that has given up the lock saves its state file once more.  Its file is still there, or nobody
      else has a recoverable one, nor the lock. */
  ghost predicate Timely(s: State, e: Event) {
    e.LateSave? && Closes(s, e.pid) ==>
      var f := OwnFile(s.procs[e.pid].claim);
      || f in s.states
      || ((forall g :: g in s.states ==> g.feature == f.feature)
          && forall p :: HoldsLock(s, p) ==> Own(s.procs[p].claim, f))
  }

  /** No other step can leave a recoverable file unaccounted for. */
  lemma StepAccounted(s: State, e: Event)
    requires Inv(s) && Accounted(s)
    ensures Accounted(Step(s, e)) <==> Timely(s, e)
  {
    var t := Step(s, e);
    if e.LateSave? && Closes(s, e.pid) {
      LateSaveAccounted(s, e.pid);
    } else {
      forall p, f | HoldsLock(t, p) && f in t.states
        ensures Own(t.procs[p].claim, f)
      {
        HolderAfter(s, e, p, f);
      }
      OneFeatureAfter(s, e);
    }
  }

  lemma LateSaveAccounted(s: State, p: Pid)
    requires Inv(s) && Accounted(s) && Closes(s, p)
    ensures Accounted(Step(s, LateSave(p))) <==> Timely(s, LateSave(p))
  {
    var f := OwnFile(s.procs[p].claim);
    var t := Step(s, LateSave(p));
    assert t.states == s.states + {f} && t.procs == s.procs;
    assert forall q :: HoldsLock(t, q) <==> HoldsLock(s, q);
    hide Own, Step;
    if f in s.states { assert t.states == s.states; }
    if Accounted(t) { assert f in t.states; }
  }

  lemma HolderAfter(s: State, e: Event, p: Pid, f: StateFile)
    requires Inv(s) && Accounted(s) && !(e.LateSave? && Closes(s, e.pid))
    requires HoldsLock(Step(s, e), p) && f in Step(s, e).states
    ensures Own(Step(s, e).procs[p].claim, f)
  {
    if HoldsLock(s, p) {
      assert PhaseInv(s, p, s.procs[p]);
      if f !in s.states && HoldsLock(s, e.pid) { assert PhaseInv(s, e.pid, s.procs[e.pid]); }
    } else {
      HoldingStarts(s, e, p);
    }
  }

  lemma OneFeatureAfter(s: State, e: Event)
    requires Inv(s) && Accounted(s) && !(e.LateSave? && Closes(s, e.pid))
    ensures OneFeature(Step(s, e).states)
  {
    if e.SaveState? && HoldsLock(s, e.pid) {
      assert forall f :: f in s.states ==> Own(s.procs[e.pid].claim, f);
    }
  }

  /** Every late save of the history was timely. */
  ghost predicate AllTimely(es: seq<Event>) {
    forall k :: 0 <= k < |es| ==> Timely(Run(Start(), es[..k]), es[k])
  }

  ghost predicate AllAccounted(es: seq<Event>) {
    forall k :: 0 <= k <= |es| ==> Accounted(Run(Start(), es[..k]))
  }

  lemma OneMoreEvent(es: seq<Event>, e: Event)
    ensures AllTimely(es + [e]) <==> AllTimely(es) && Timely(Run(Start(), es), e)
    ensures AllAccounted(es + [e]) <==> AllAccounted(es) && Accounted(Run(Start(), es + [e]))
    ensures AllAccounted(es) ==> Accounted(Run(Start(), es))
  {
    hide Timely, Accounted, Run, Start;
    var more := es + [e];
    assert forall k :: 0 <= k <= |es| ==> more[..k] == es[..k];
    assert es[..|es|] == es && more[..|more|] == more;
    if AllTimely(more) {
      assert Timely(Run(Start(), more[..|es|]), more[|es|]);
      forall k | 0 <= k < |es| ensures Timely(Run(Start(), es[..k]), es[k]) {
        assert Timely(Run(Start(), more[..k]), more[k]);
      }
    }
    if AllAccounted(more) {
      assert Accounted(Run(Start(), more[..|more|]));
      forall k | 0 <= k <= |es| ensures Accounted(Run(Start(), es[..k])) {
        assert Accounted(Run(Start(), more[..k]));
      }
    }
  }

  /** Recoverable files are accounted for all through a history exactly when its late saves are timely. */
  lemma {:induction false} AccountedExactly(es: seq<Event>)
    ensures AllAccounted(es) <==> AllTimely(es)
  {
    if |es| > 0 {
      var before, e := es[..|es| - 1], es[|es| - 1];
      assert es == before + [e];
      AccountedExactly(before);
      RunKeepsInv(Start(), before);
      OneMoreEvent(before, e);
      RunStep(Start(), before, e);
      hide AllTimely, AllAccounted, Timely, Accounted, Run, Start, Inv, Step;
      if Accounted(Run(Start(), before)) { StepAccounted(Run(Start(), before), e); }
    }
  }

  lemma AccountedAfter(es: seq<Event>)
    requires AllTimely(es)
    ensures Accounted(Run(Start(), es))
  {
    AccountedExactly(es);
    assert es[..|es|] == es;
    hide Timely, Accounted, Run, Start;
  }

  /** While the lock is held, whatever is unfinished is the holder's own operation's; where late saves are timely,
      so is what has ended. */
  lemma HolderOwnsAllState(es: seq<Event>, p: Pid, f: StateFile)
    requires var s := Run(Start(), es); HoldsLock(s, p) && f in s.states
    ensures f in Unfinished(Run(Start(), es)) || AllTimely(es) ==> Own(Run(Start(), es).procs[p].claim, f)
  {
    UnfinishedBelongs(es);
    if AllTimely(es) { AccountedAfter(es); }
    hide AllTimely, Run, Start;
  }

  /** What is unfinished never belongs to two features at once; where late saves are timely, nothing recoverable
      does. */
  lemma StateOfOneFeature(es: seq<Event>, a: StateFile, b: StateFile)
    requires a in Run(Start(), es).states && b in Run(Start(), es).states
    ensures {a, b} <= Unfinished(Run(Start(), es)) || AllTimely(es) ==> a.feature == b.feature
  {
    UnfinishedBelongs(es);
    if AllTimely(es) { AccountedAfter(es); }
    hide AllTimely, Run, Start;
    if {a, b} <= Unfinished(Run(Start(), es)) { assert a in {a, b} && b in {a, b}; }
  }

  // ---------- when recoveries do not overlap ----------

  /** A recovery of a reparent begins with the state file in place and nobody else at work on it. */
  ghost predicate Orderly(s: State, e: Event) {
    e.Reclaim? && e.claim.operation.Reparent? ==>
      OwnFile(e.claim) in s.states && forall q :: q in s.procs ==> s.procs[q].claim.statePath != e.claim.statePath
  }

  ghost predicate AllOrderly(es: seq<Event>) {
    forall k :: 0 <= k < |es| ==> Orderly(Run(Start(), es[..k]), es[k])
  }

  predicate Recovers(s: State, p: Pid) {
    p in s.procs && !s.procs[p].isNew && s.procs[p].claim.operation.Reparent?
  }

  /** A reparent that came as far as the lock. */
  predicate Runs(s: State, p: Pid) {
    (HoldsLock(s, p) || Closes(s, p)) && s.procs[p].claim.operation.Reparent?
  }

  /** A recovery and whatever it recovers have the state file to themselves. */
  ghost predicate Apart(s: State) {
    forall p, q :: Recovers(s, p) && (Recovers(s, q) || Runs(s, q)) && p != q ==>
      s.procs[p].claim.statePath != s.procs[q].claim.statePath
  }

  /** Who counts on its state file finds it; a run that has not written it yet has written nothing. */
  ghost predicate Recorded(s: State) {
    && (forall p :: Recovers(s, p) ==> OwnFile(s.procs[p].claim) in s.states)
    && (forall p :: Runs(s, p) && (Closes(s, p) || s.procs[p].phase.recorded) ==>
          OwnFile(s.procs[p].claim) in s.states)
    && (forall p :: Runs(s, p) && HoldsLock(s, p) && !s.procs[p].phase.recorded ==> s.states == {})
  }

  /** While a reparent closes nobody holds the lock and no other one closes. */
  ghost predicate ClosesAlone(s: State) {
    forall p, q :: Closes(s, p) && (HoldsLock(s, q) || Closes(s, q)) ==> p == q
  }

  ghost predicate Calm(s: State) {
    Apart(s) && Recorded(s) && ClosesAlone(s)
  }

  /** `t` has the same recoverable files, and nobody got further in it than trying for the lock. */
  ghost predicate Quieter(s: State, t: State) {
    && t.states == s.states
    && forall q :: q in t.procs ==>
         && (HoldsLock(t, q) || Closes(t, q) ==> q in s.procs && t.procs[q] == s.procs[q])
         && (Recovers(t, q) ==>
               q in s.procs && t.procs[q].claim == s.procs[q].claim && t.procs[q].isNew == s.procs[q].isNew)
  }

  lemma QuieterIsCalm(s: State, t: State)
    requires Calm(s) && Quieter(s, t)
    ensures Calm(t)
  {
    forall p, q | Recovers(t, p) && (Recovers(t, q) || Runs(t, q)) && p != q
      ensures t.procs[p].claim.statePath != t.procs[q].claim.statePath
    {
      assert Recovers(s, p) && (Recovers(s, q) || Runs(s, q));
    }
    forall p | Recovers(t, p) ensures OwnFile(t.procs[p].claim) in t.states {
      assert Recovers(s, p);
    }
    forall p, q | Closes(t, p) && (HoldsLock(t, q) || Closes(t, q)) ensures p == q {
      assert Closes(s, p) && (HoldsLock(s, q) || Closes(s, q));
    }
  }

  /** The steps after which nobody is further than before. */
  predicate Harmless(s: State, e: Event) {
    match e
    case Reclaim(c) => !c.operation.Reparent?
    case Advance(p) => !(p in s.procs && s.procs[p].phase.Verifying?)
    case SaveState(_, _) => false
    case DropState(_, _) => false
    case Finish(_) => false
    case LateSave(_) => false
    case Retire(_) => false
    case _ => true
  }

  lemma HarmlessIsQuieter(s: State, e: Event)
    requires Inv(s) && Harmless(s, e)
    ensures Quieter(s, Step(s, e))
  {
    if e.Advance? && e.pid in s.procs { AdvanceIsQuieter(s, e.pid); }
  }

  lemma AdvanceIsQuieter(s: State, p: Pid)
    requires Inv(s) && p in s.procs && !s.procs[p].phase.Verifying?
    ensures Quieter(s, Advanced(s, p))
  {
    hide Inv;
  }

  predicate Passes(s: State, p: Pid) {
    && p in s.procs && s.procs[p].phase.Verifying?
    && if s.procs[p].isNew then s.states == {} else forall f | f in s.states :: Own(s.procs[p].claim, f)
  }

  /** Nobody takes the lock from a reparent that closes. */
  lemma ClosingKeepsOut(s: State, p: Pid, q: Pid)
    requires Inv(s) && Calm(s) && Passes(s, p)
    ensures !Closes(s, q)
  {
    if Closes(s, q) {
      assert PhaseInv(s, q, s.procs[q]);
      assert Runs(s, q) && OwnFile(s.procs[q].claim) in s.states;
      assert Recovers(s, p);
      assert false;
    }
  }

  /** A fresh run does not come to the lock while anybody recovers. */
  lemma RecoveryKeepsOut(s: State, p: Pid, q: Pid)
    requires Calm(s) && Passes(s, p) && s.procs[p].isNew
    ensures !Recovers(s, q)
  {
  }

  /** Nobody gained by the step, and everybody is who it was. */
  ghost predicate SameCast(s: State, t: State) {
    && (forall q :: Recovers(t, q) ==> Recovers(s, q))
    && forall q :: q in t.procs ==> q in s.procs && t.procs[q].claim == s.procs[q].claim
  }

  lemma StaysApart(s: State, t: State)
    requires Apart(s) && SameCast(s, t) && forall q :: Runs(t, q) ==> Runs(s, q)
    ensures Apart(t)
  {
    forall p, q | Recovers(t, p) && (Recovers(t, q) || Runs(t, q)) && p != q
      ensures t.procs[p].claim.statePath != t.procs[q].claim.statePath
    {
      assert Recovers(s, p) && (Recovers(s, q) || Runs(s, q));
    }
  }

  /** Who verifies or holds the lock is the only one that can hold it. */
  lemma LockIsTaken(s: State, p: Pid)
    requires Inv(s) && p in s.procs && (s.procs[p].phase.Verifying? || s.procs[p].phase.Holding?)
    ensures forall q :: HoldsLock(s, q) ==> q == p
  {
    assert forall q :: q in s.procs ==> PhaseInv(s, q, s.procs[q]);
  }

  lemma AloneAtTheLock(s: State, p: Pid)
    requires Inv(s) && Calm(s) && Passes(s, p)
    ensures forall q :: !Runs(s, q) && !HoldsLock(s, q) && !Closes(s, q)
    ensures s.procs[p].isNew ==> forall q :: !Recovers(s, q)
  {
    LockIsTaken(s, p);
    forall q ensures !Closes(s, q) { ClosingKeepsOut(s, p, q); }
    if s.procs[p].isNew {
      forall q ensures !Recovers(s, q) { RecoveryKeepsOut(s, p, q); }
    }
  }

  lemma VerifyIsCalm(s: State, p: Pid)
    requires Inv(s) && Calm(s) && p in s.procs && s.procs[p].phase.Verifying?
    ensures Calm(Advanced(s, p))
  {
    var t := Advanced(s, p);
    if Passes(s, p) {
      AloneAtTheLock(s, p);
      assert t.states == s.states && t.procs[p].phase.recorded == !s.procs[p].isNew;
      assert t.procs[p].claim == s.procs[p].claim && t.procs[p].isNew == s.procs[p].isNew;
      assert forall q :: q in t.procs && q != p ==> q in s.procs && t.procs[q] == s.procs[q];
      hide Inv, Own, Passes, Advanced;
      AcquiredIsCalm(s, t, p);
    } else {
      assert Quieter(s, t);
      QuieterIsCalm(s, t);
    }
  }

  lemma AcquiredIsCalm(s: State, t: State, p: Pid)
    requires Calm(s) && p in s.procs && HoldsLock(t, p)
    requires forall q :: !Runs(s, q) && !HoldsLock(s, q) && !Closes(s, q)
    requires t.states == s.states && t.procs[p].phase.recorded == !s.procs[p].isNew
    requires t.procs[p].claim == s.procs[p].claim && t.procs[p].isNew == s.procs[p].isNew
    requires forall q :: q in t.procs && q != p ==> q in s.procs && t.procs[q] == s.procs[q]
    requires s.procs[p].isNew ==> s.states == {} && forall q :: !Recovers(s, q)
    ensures Calm(t)
  {
    assert forall q :: HoldsLock(t, q) || Closes(t, q) ==> q == p;
    assert forall q :: Recovers(t, q) ==> Recovers(s, q);
    if Runs(t, p) && !s.procs[p].isNew { assert Recovers(s, p); }
  }

  lemma ReclaimIsCalm(s: State, c: Claim)
    requires Calm(s) && c.operation.Reparent? && Orderly(s, Reclaim(c))
    ensures Calm(Step(s, Reclaim(c)))
  {
    var t := Step(s, Reclaim(c));
    if Idle(s, c.pid) {
      assert forall q :: Runs(t, q) <==> Runs(s, q);
      assert forall q :: HoldsLock(t, q) <==> HoldsLock(s, q);
      assert forall q :: Closes(t, q) <==> Closes(s, q);
      assert forall q :: Recovers(t, q) <==> Recovers(s, q) || q == c.pid;
      assert t.procs[c.pid].claim == c && forall q :: q in s.procs ==> t.procs[q] == s.procs[q];
      assert t.states == s.states;
      hide Step;
    }
  }

  lemma SaveIsCalm(s: State, p: Pid, f: StateFile)
    requires Inv(s) && Calm(s)
    ensures Calm(Step(s, SaveState(p, f)))
  {
    var t := Step(s, SaveState(p, f));
    if t != s {
      LockIsTaken(s, p);
      assert forall q :: q in t.procs && q != p ==> q in s.procs && t.procs[q] == s.procs[q];
      assert HoldsLock(t, p) && t.procs[p].claim == s.procs[p].claim && t.procs[p].isNew == s.procs[p].isNew;
      assert t.states == s.states + {f} && t.procs[p].phase.recorded;
      assert f == OwnFile(s.procs[p].claim) || s.procs[p].phase.recorded;
      hide Step, Inv, Own;
      SavedIsCalm(s, t, p, f);
    }
  }

  lemma SavedIsCalm(s: State, t: State, p: Pid, f: StateFile)
    requires Calm(s) && HoldsLock(s, p) && HoldsLock(t, p) && forall q :: HoldsLock(s, q) ==> q == p
    requires forall q :: q in t.procs && q != p ==> q in s.procs && t.procs[q] == s.procs[q]
    requires t.procs[p].claim == s.procs[p].claim && t.procs[p].isNew == s.procs[p].isNew
    requires t.states == s.states + {f} && t.procs[p].phase.recorded
    requires f == OwnFile(s.procs[p].claim) || s.procs[p].phase.recorded
    ensures Calm(t)
  {
    NobodyCloses(s, p);
    forall q | q != p ensures !HoldsLock(t, q) && !Closes(t, q) {
      assert !HoldsLock(s, q) && !Closes(s, q);
    }
    assert forall q :: Runs(t, q) ==> q == p && Runs(s, q);
    assert forall q :: Recovers(t, q) ==> Recovers(s, q);
    StaysApart(s, t);
  }

  lemma NobodyCloses(s: State, p: Pid)
    requires ClosesAlone(s) && HoldsLock(s, p)
    ensures forall q :: !Closes(s, q)
  {
    forall q ensures !Closes(s, q) {
      assert Closes(s, q) && HoldsLock(s, p) ==> q == p;
    }
  }

  lemma DropIsCalm(s: State, p: Pid, f: StateFile)
    requires Inv(s) && Calm(s)
    ensures Calm(Step(s, DropState(p, f)))
  {
    var t := Step(s, DropState(p, f));
    if t != s {
      assert t.procs == s.procs && t.states == s.states - {f} && !f.operation.Reparent?;
      hide Step, Inv;
      DroppedIsCalm(s, t, f);
    }
  }

  lemma DroppedIsCalm(s: State, t: State, f: StateFile)
    requires Calm(s) && t.procs == s.procs && t.states == s.states - {f} && !f.operation.Reparent?
    ensures Calm(t)
  {
    assert forall q :: Runs(t, q) <==> Runs(s, q);
    assert forall q :: Recovers(t, q) <==> Recovers(s, q);
    assert forall q :: HoldsLock(t, q) <==> HoldsLock(s, q);
    assert forall q :: Closes(t, q) <==> Closes(s, q);
    StaysApart(s, t);
    forall q | Recovers(t, q) || Runs(t, q) ensures OwnFile(t.procs[q].claim) != f {}
  }

  lemma FinishIsCalm(s: State, p: Pid)
    requires Inv(s) && Calm(s)
    ensures Calm(Step(s, Finish(p)))
  {
    var t := Step(s, Finish(p));
    if t != s {
      LockIsTaken(s, p);
      assert forall q :: q in t.procs && q != p ==> q in s.procs && t.procs[q] == s.procs[q];
      assert Closes(t, p) && t.procs[p].claim == s.procs[p].claim && t.procs[p].isNew == s.procs[p].isNew;
      assert t.states == s.states && Runs(s, p) && s.procs[p].phase.recorded;
      hide Step, Inv;
      FinishedIsCalm(s, t, p);
    }
  }

  lemma FinishedIsCalm(s: State, t: State, p: Pid)
    requires Calm(s) && HoldsLock(s, p) && Closes(t, p) && forall q :: HoldsLock(s, q) ==> q == p
    requires forall q :: q in t.procs && q != p ==> q in s.procs && t.procs[q] == s.procs[q]
    requires t.procs[p].claim == s.procs[p].claim && t.procs[p].isNew == s.procs[p].isNew
    requires t.states == s.states && Runs(s, p) && s.procs[p].phase.recorded
    ensures Calm(t)
  {
    NobodyCloses(s, p);
    forall q | q != p ensures !HoldsLock(t, q) && !Closes(t, q) {
      assert !HoldsLock(s, q) && !Closes(s, q);
    }
    assert forall q :: Runs(t, q) ==> q == p && Runs(s, q);
    assert forall q :: Recovers(t, q) ==> Recovers(s, q);
    StaysApart(s, t);
  }

  lemma LateSaveIsCalm(s: State, p: Pid)
    requires Inv(s) && Calm(s)
    ensures Timely(s, LateSave(p)) && Calm(Step(s, LateSave(p)))
  {
    if Closes(s, p) {
      assert PhaseInv(s, p, s.procs[p]);
      assert Runs(s, p);
      assert s.states + {OwnFile(s.procs[p].claim)} == s.states;
      hide Inv;
      assert Quieter(s, Step(s, LateSave(p)));
      QuieterIsCalm(s, Step(s, LateSave(p)));
    }
  }

  lemma RetireIsCalm(s: State, p: Pid)
    requires Inv(s) && Calm(s)
    ensures Calm(Step(s, Retire(p)))
  {
    var t := Step(s, Retire(p));
    if t != s {
      assert t.procs == s.procs - {p} && t.states == s.states - {OwnFile(s.procs[p].claim)};
      assert PhaseInv(s, p, s.procs[p]);
      hide Step, Inv;
      RetiredIsCalm(s, t, p);
    }
  }

  lemma RetiredIsCalm(s: State, t: State, p: Pid)
    requires Calm(s) && Closes(s, p) && Runs(s, p)
    requires t.procs == s.procs - {p} && t.states == s.states - {OwnFile(s.procs[p].claim)}
    ensures Calm(t)
  {
    forall q ensures !HoldsLock(t, q) && !Closes(t, q) {
      assert HoldsLock(s, q) || Closes(s, q) ==> q == p;
    }
    forall q | Recovers(t, q)
      ensures Recovers(s, q) && q != p && OwnFile(t.procs[q].claim) in t.states
    {
      assert Recovers(s, q) && Runs(s, p);
    }
    StaysApart(s, t);
  }

  lemma CalmStep(s: State, e: Event)
    requires Inv(s) && Calm(s) && Orderly(s, e)
    ensures Calm(Step(s, e)) && Timely(s, e)
  {
    if Harmless(s, e) {
      HarmlessIsQuieter(s, e);
      QuieterIsCalm(s, Step(s, e));
    } else {
      hide Inv, Calm, Orderly, Timely;
      match e
      case Reclaim(c) => ReclaimIsCalm(s, c);
      case Advance(p) => VerifyIsCalm(s, p);
      case SaveState(p, f) => SaveIsCalm(s, p, f);
      case DropState(p, f) => DropIsCalm(s, p, f);
      case Finish(p) => FinishIsCalm(s, p);
      case LateSave(p) => LateSaveIsCalm(s, p);
      case Retire(p) => RetireIsCalm(s, p);
    }
  }

  lemma {:induction false} OrderlyIsCalm(es: seq<Event>)
    requires AllOrderly(es)
    ensures AllTimely(es) && Calm(Run(Start(), es)) && Inv(Run(Start(), es))
  {
    if |es| > 0 {
      var before, e := es[..|es| - 1], es[|es| - 1];
      assert es == before + [e];
      OrderlyBefore(before, e);
      OrderlyIsCalm(before);
      OneMoreEvent(before, e);
      RunStep(Start(), before, e);
      StepKeepsInv(Run(Start(), before), e);
      hide AllTimely, AllOrderly, AllAccounted, Timely, Orderly, Accounted, Calm, Run, Start, Inv, Step;
      CalmStep(Run(Start(), before), e);
    }
  }

  lemma OrderlyBefore(es: seq<Event>, e: Event)
    requires AllOrderly(es + [e])
    ensures AllOrderly(es) && Orderly(Run(Start(), es), e)
  {
    hide Orderly, Run, Start;
    var more := es + [e];
    forall k | 0 <= k < |es| ensures Orderly(Run(Start(), es[..k]), es[k]) {
      assert Orderly(Run(Start(), more[..k]), more[k]) && more[..k] == es[..k];
    }
    assert Orderly(Run(Start(), more[..|es|]), more[|es|]) && more[..|es|] == es;
  }

  /** Where recoveries of a reparent do not overlap, recoverable files are accounted for all through; a reparent that
      closes finds its state file and nobody at the lock; and the checkout sync of a running reparent never stands
      without the reparent's own state file. */
  lemma OrderlyOwnership(es: seq<Event>, p: Pid, q: Pid)
    requires AllOrderly(es)
    ensures AllAccounted(es)
    ensures var s := Run(Start(), es);
            && (Closes(s, p) ==> OwnFile(s.procs[p].claim) in s.states && !HoldsLock(s, q))
            && (HoldsLock(s, p) && s.procs[p].claim.operation.Reparent? && s.states != {} ==>
                  OwnFile(s.procs[p].claim) in s.states)
  {
    OrderlyIsCalm(es);
    AccountedExactly(es);
    hide *;
    CalmMeans(Run(Start(), es), p, q);
  }

  lemma CalmMeans(s: State, p: Pid, q: Pid)
    requires Inv(s) && Calm(s)
    ensures Closes(s, p) ==> OwnFile(s.procs[p].claim) in s.states && !HoldsLock(s, q)
    ensures HoldsLock(s, p) && s.procs[p].claim.operation.Reparent? && s.states != {} ==>
              OwnFile(s.procs[p].claim) in s.states
  {
    if Closes(s, p) {
      assert PhaseInv(s, p, s.procs[p]);
      hide Inv;
      assert Runs(s, p);
      assert p != q || !HoldsLock(s, q);
    } else if HoldsLock(s, p) && s.procs[p].claim.operation.Reparent? {
      hide Inv;
      assert Runs(s, p);
    }
  }

  // ---------- when they do ----------

  lemma {:induction false} RunBoth(s: State, a: seq<Event>, b: seq<Event>)
    ensures Run(s, a + b) == Run(Run(s, a), b)
  {
    if |b| == 0 {
      assert a + b == a;
    } else {
      var c, e := b[..|b| - 1], b[|b| - 1];
      RunBoth(s, a, c);
      assert a + b == (a + c) + [e] && b == c + [e];
      RunStep(s, a + c, e);
      RunStep(Run(s, a), c, e);
    }
  }

  // ---------- what one process does while nobody else acts ----------

  function Placed(s: State, c: Claim, isNew: bool, phase: Phase): State {
    s.(procs := s.procs[c.pid := Proc(c, isNew, phase)])
  }

  /** The verification at the end of an acquisition passes. */
  predicate Clear(s: State, c: Claim, isNew: bool) {
    if isNew then s.states == {} else forall f | f in s.states :: Own(c, f)
  }

  /** What becomes of an acquisition that finds the lock file gone. */
  function AtFreeFile(s: State, c: Claim, isNew: bool, replaced: Option<Claim>): State {
    if Clear(s, c, isNew) then Placed(s, c, isNew, Holding(replaced, !isNew)).(file := Owned(c))
    else GaveUp(s, c.pid).(file := Absent)
  }

  lemma Creates(s: State, c: Claim, isNew: bool, again: bool, replaced: Option<Claim>)
    requires s.file.Absent?
    ensures Step(Placed(s, c, isNew, Creating(again, replaced)), Advance(c.pid))
            == Placed(s, c, isNew, Filling(replaced)).(file := Unwritten(c.pid))
  {
    var t := Step(Placed(s, c, isNew, Creating(again, replaced)), Advance(c.pid));
    assert t.procs == s.procs[c.pid := Proc(c, isNew, Filling(replaced))];
  }

  lemma Fills(s: State, c: Claim, isNew: bool, replaced: Option<Claim>)
    ensures Step(Placed(s, c, isNew, Filling(replaced)).(file := Unwritten(c.pid)), Advance(c.pid))
            == Placed(s, c, isNew, Verifying(replaced)).(file := Owned(c))
  {
    var t := Step(Placed(s, c, isNew, Filling(replaced)).(file := Unwritten(c.pid)), Advance(c.pid));
    assert t.procs == s.procs[c.pid := Proc(c, isNew, Verifying(replaced))];
  }

  lemma Verifies(s: State, c: Claim, isNew: bool, replaced: Option<Claim>)
    ensures Step(Placed(s, c, isNew, Verifying(replaced)).(file := Owned(c)), Advance(c.pid))
            == AtFreeFile(s, c, isNew, replaced)
  {
    var t := Step(Placed(s, c, isNew, Verifying(replaced)).(file := Owned(c)), Advance(c.pid));
    if Clear(s, c, isNew) {
      assert t.procs == s.procs[c.pid := Proc(c, isNew, Holding(replaced, !isNew))];
    } else {
      assert t.procs == s.procs - {c.pid};
    }
  }

  lemma FreeFile(s: State, c: Claim, isNew: bool, again: bool, replaced: Option<Claim>)
    requires s.file.Absent?
    ensures var a := Advance(c.pid);
            Step(Step(Step(Placed(s, c, isNew, Creating(again, replaced)), a), a), a)
            == AtFreeFile(s, c, isNew, replaced)
  {
    Creates(s, c, isNew, again, replaced);
    Fills(s, c, isNew, replaced);
    Verifies(s, c, isNew, replaced);
    hide Step, Placed, AtFreeFile;
  }

  /** Nothing is left to do. */
  predicate Rests(s: State, p: Pid) {
    p !in s.procs || s.procs[p].phase.Holding?
  }

  lemma StaysAtRest(s: State, p: Pid)
    requires Rests(s, p)
    ensures Step(s, Advance(p)) == s
  {
  }

  lemma RunFour(s: State, a: Event, b: Event, c: Event, d: Event)
    ensures Run(s, [a, b, c, d]) == Step(Step(Step(Step(s, a), b), c), d)
  {
    RunStep(s, [], a);
    RunStep(s, [a], b);
    RunStep(s, [a, b], c);
    RunStep(s, [a, b, c], d);
    assert [] + [a] == [a] && [a] + [b] == [a, b] && [a, b] + [c] == [a, b, c] && [a, b, c] + [d] == [a, b, c, d];
  }

  lemma FreshTakes(s: State, c: Claim)
    requires Idle(s, c.pid) && s.file.Absent? && s.states == {}
    ensures var a := Advance(c.pid);
            Run(s, [Acquire(c), a, a, a]) == Placed(s, c, true, Holding(None, false)).(file := Owned(c))
  {
    var a := Advance(c.pid);
    RunFour(s, Acquire(c), a, a, a);
    assert Step(s, Acquire(c)) == Placed(s, c, true, Creating(false, None));
    FreeFile(s, c, true, false, None);
    hide Run, Step, Placed;
  }

  lemma RecoveryTakesFree(s: State, c: Claim)
    requires s.file.Absent? && c.pid in s.procs && s.procs[c.pid] == Proc(c, false, Reading)
    requires forall f :: f in s.states ==> Own(c, f)
    ensures var a := Advance(c.pid);
            Run(s, [a, a, a, a]) == Placed(s, c, false, Holding(None, true)).(file := Owned(c))
  {
    var a := Advance(c.pid);
    RunFour(s, a, a, a, a);
    assert Step(s, a) == Placed(s, c, false, Creating(true, None));
    FreeFile(s, c, false, true, None);
    hide Run, Step, Placed;
  }

  // A reparent of feature `x`, begun by process 0 and recovered by 1 and by 2, and a sync of feature `y` by 3.
  const FIRST := Claim(0, "t", "x", Reparent, "x-reparent")
  const ONE := FIRST.(pid := 1)
  const TWO := FIRST.(pid := 2)
  const OTHER := Claim(3, "u", "y", Sync, "y-sync")
  const X_FILE := OwnFile(FIRST)
  const Y_FILE := OwnFile(OTHER)

  // The first process dies while it closes, and two recoveries begin with its state file in place.
  const SPAWNED := [Spawn(0), Spawn(1), Spawn(2), Spawn(3)]
  const LOCKED := [Acquire(FIRST), Advance(0), Advance(0), Advance(0)]
  const DIED := [SaveState(0, X_FILE), Finish(0), Die(0), Reclaim(ONE)]
  const BEGUN := SPAWNED + LOCKED + DIED + [Reclaim(TWO)]

  // One recovery is held up while it closes; the other ends, and the sync starts.
  const RECOVERED := [Advance(1), Advance(1), Advance(1), Advance(1)] + [Finish(1)]
  const REPEATED := [Advance(2), Advance(2), Advance(2), Advance(2)] + [Finish(2)] + [Retire(2)]
  const STARTED := [Acquire(OTHER), Advance(3), Advance(3), Advance(3)] + [SaveState(3, Y_FILE)]
  const OVERTAKEN := BEGUN + RECOVERED + REPEATED + STARTED

  const AT_FIRST := State(Owned(FIRST), {}, {0, 1, 2, 3}, {}, map[0 := Proc(FIRST, true, Holding(None, false))], {})
  const AT_BEGUN := State(Absent, {X_FILE}, {1, 2, 3}, {0},
    map[1 := Proc(ONE, false, Reading), 2 := Proc(TWO, false, Reading)], {})
  const AT_RECOVERED := AT_BEGUN.(procs := map[1 := Proc(ONE, false, Closing), 2 := Proc(TWO, false, Reading)])
  const AT_REPEATED := AT_BEGUN.(states := {}, procs := map[1 := Proc(ONE, false, Closing)])
  const AT_STARTED := State(Owned(OTHER), {Y_FILE}, {1, 2, 3}, {0},
    map[1 := Proc(ONE, false, Closing), 3 := Proc(OTHER, true, Holding(None, true))], {})

  lemma FirstLocks()
    ensures Run(Run(Start(), SPAWNED), LOCKED) == AT_FIRST
  {
    RunFour(Start(), Spawn(0), Spawn(1), Spawn(2), Spawn(3));
    var s := Run(Start(), SPAWNED);
    assert s == State(Absent, {}, {0, 1, 2, 3}, {}, map[], {});
    FreshTakes(s, FIRST);
  }

  lemma FirstDies()
    ensures Step(Run(AT_FIRST, DIED), Reclaim(TWO)) == AT_BEGUN
  {
    RunFour(AT_FIRST, SaveState(0, X_FILE), Finish(0), Die(0), Reclaim(ONE));
    var s3 := Step(Step(AT_FIRST, SaveState(0, X_FILE)), Finish(0));
    assert s3 == State(Absent, {X_FILE}, {0, 1, 2, 3}, {}, map[0 := Proc(FIRST, true, Closing)], {});
    var s4 := Step(s3, Die(0));
    assert s4 == State(Absent, {X_FILE}, {1, 2, 3}, {0}, map[], {});
    assert Step(s4, Reclaim(ONE)) == s4.(procs := map[1 := Proc(ONE, false, Reading)]);
  }

  lemma OneRecovers()
    ensures Run(AT_BEGUN, RECOVERED) == AT_RECOVERED
  {
    var a := [Advance(1), Advance(1), Advance(1), Advance(1)];
    RecoveryTakesFree(AT_BEGUN, ONE);
    RunStep(AT_BEGUN, a, Finish(1));
    assert Step(Run(AT_BEGUN, a), Finish(1)).procs == AT_RECOVERED.procs;
  }

  lemma TwoRecovers()
    ensures Run(AT_RECOVERED, REPEATED) == AT_REPEATED
  {
    var a := [Advance(2), Advance(2), Advance(2), Advance(2)];
    RecoveryTakesFree(AT_RECOVERED, TWO);
    RunStep(AT_RECOVERED, a, Finish(2));
    RunStep(AT_RECOVERED, a + [Finish(2)], Retire(2));
    var s := Step(Run(AT_RECOVERED, a), Finish(2));
    assert s == AT_RECOVERED.(procs := AT_RECOVERED.procs[2 := Proc(TWO, false, Closing)]);
    assert Step(s, Retire(2)).procs == AT_REPEATED.procs;
  }

  lemma OtherStarts()
    ensures Run(AT_REPEATED, STARTED) == AT_STARTED
  {
    var a := [Acquire(OTHER), Advance(3), Advance(3), Advance(3)];
    FreshTakes(AT_REPEATED, OTHER);
    RunStep(AT_REPEATED, a, SaveState(3, Y_FILE));
    assert Step(Run(AT_REPEATED, a), SaveState(3, Y_FILE)).procs == AT_STARTED.procs;
  }

  lemma OvertakenRun()
    ensures Run(Start(), OVERTAKEN) == AT_STARTED
  {
    RunBoth(Start(), SPAWNED, LOCKED);
    RunBoth(Start(), SPAWNED + LOCKED, DIED);
    RunStep(Start(), SPAWNED + LOCKED + DIED, Reclaim(TWO));
    RunBoth(Start(), BEGUN, RECOVERED);
    RunBoth(Start(), BEGUN + RECOVERED, REPEATED);
    RunBoth(Start(), BEGUN + RECOVERED + REPEATED, STARTED);
    hide Run, Step, Start;
    FirstLocks();
    FirstDies();
    OneRecovers();
    TwoRecovers();
    OtherStarts();
  }

  /** After that the recovery that was held up saves its state file once more: the lock is a sync's, and beside its
      unfinished state lies the file of an ended reparent of another feature. */
  lemma StaleRecoveryMixes()
    ensures var s := Run(Start(), OVERTAKEN);
            var t := Run(Start(), OVERTAKEN + [LateSave(1)]);
            && HoldsLock(s, 3) && Accounted(s) && !Timely(s, LateSave(1))
            && HoldsLock(t, 3) && t.states == {X_FILE, Y_FILE} && Unfinished(t) == {Y_FILE} && !Accounted(t)
  {
    OvertakenRun();
    RunStep(Start(), OVERTAKEN, LateSave(1));
    hide Run, Start;
    var t := Step(AT_STARTED, LateSave(1));
    assert t.states == {X_FILE, Y_FILE} && t.procs == AT_STARTED.procs;
    assert X_FILE in t.states && HoldsLock(t, 3) && !Own(t.procs[3].claim, X_FILE);
  }

  /** A takeover removed a claim whose owner was dead, or the recovering process's own; a recovery took
      over only the same token, feature, operation and state path. */
  lemma TakeoverIdentity(es: seq<Event>, p: Pid)
    requires var s := Run(Start(), es); HoldsLock(s, p) && s.procs[p].phase.replaced.Some?
    ensures var s := Run(Start(), es);
            var d := s.procs[p].phase.replaced.value;
            && d.pid !in s.alive - {p}
            && (s.procs[p].isNew ==> d.pid in s.dead)
            && (!s.procs[p].isNew ==> SameOwner(d, s.procs[p].claim))
  {
    RunKeepsInv(Start(), es);
    var s := Run(Start(), es);
    assert PhaseInv(s, p, s.procs[p]);
  }

  /** The lock file's creator is no longer about to write it. */
  predicate Abandoned(s: State, p: Pid) {
    s.file == Unwritten(p) && !(p in s.procs && s.procs[p].phase.Filling?)
  }

  /** A process that dies, or fails, between creating the lock file and writing it closes the workspace for
      good: no history lets anybody hold the lock again. */
  lemma {:induction false} UnwrittenLockStays(es: seq<Event>, more: seq<Event>, p: Pid, q: Pid)
    requires Abandoned(Run(Start(), es), p)
    ensures Abandoned(Run(Run(Start(), es), more), p) && !HoldsLock(Run(Run(Start(), es), more), q)
    ensures Inv(Run(Run(Start(), es), more))
    decreases |more|
  {
    if |more| == 0 {
      RunKeepsInv(Start(), es);
      AbandonedHasNoHolder(Run(Start(), es), p, q);
    } else {
      UnwrittenLockStays(es, more[..|more| - 1], p, q);
      var s, e := Run(Run(Start(), es), more[..|more| - 1]), more[|more| - 1];
      StepKeepsInv(s, e);
      AbandonedStays(s, e, p);
      AbandonedHasNoHolder(Step(s, e), p, q);
    }
  }

  lemma AbandonedStays(s: State, e: Event, p: Pid)
    requires Inv(s) && Abandoned(s, p)
    ensures Abandoned(Step(s, e), p)
  {
    hide Own, SameOwner;
    assert forall r :: r in s.procs ==> PhaseInv(s, r, s.procs[r]);
  }

  lemma AbandonedHasNoHolder(s: State, p: Pid, q: Pid)
    requires Inv(s) && Abandoned(s, p)
    ensures !HoldsLock(s, q)
  {
    if q in s.procs { assert PhaseInv(s, q, s.procs[q]); }
  }

  /** Four events lead there: a process starts, asks for the lock, creates the file and dies. */
  lemma LockAbandoned(c: Claim)
    ensures Abandoned(Run(Start(), [Spawn(c.pid), Acquire(c), Advance(c.pid), Die(c.pid)]), c.pid)
    ensures c.pid in Run(Start(), [Spawn(c.pid), Acquire(c), Advance(c.pid), Die(c.pid)]).dead
  {
    var a, b, d, e := Spawn(c.pid), Acquire(c), Advance(c.pid), Die(c.pid);
    RunStep(Start(), [], a);
    RunStep(Start(), [a], b);
    RunStep(Start(), [a, b], d);
    RunStep(Start(), [a, b, d], e);
    assert [] + [a] == [a] && [a] + [b] == [a, b] && [a, b] + [d] == [a, b, d] && [a, b, d] + [e] == [a, b, d, e];
    var s := Step(Step(Step(Start(), a), b), d);
    assert s.file == Unwritten(c.pid) && c.pid in s.alive;
  }

  /** An uninterrupted fresh acquisition, started while nobody else acts. */
  function Alone(s: State, e: Event, p: Pid): State {
    Run(s, [e, Advance(p), Advance(p), Advance(p), Advance(p), Advance(p), Advance(p), Advance(p)])
  }

  lemma AloneSteps(s: State, e: Event, p: Pid)
    ensures var a := Advance(p);
            Alone(s, e, p) == Step(Step(Step(Step(Step(Step(Step(Step(s, e), a), a), a), a), a), a), a)
  {
    var a := Advance(p);
    RunStep(s, [], e);
    RunStep(s, [e], a);
    RunStep(s, [e, a], a);
    RunStep(s, [e, a, a], a);
    RunStep(s, [e, a, a, a], a);
    RunStep(s, [e, a, a, a, a], a);
    RunStep(s, [e, a, a, a, a, a], a);
    RunStep(s, [e, a, a, a, a, a, a], a);
    assert [] + [e] == [e] && [e] + [a] == [e, a] && [e, a] + [a] == [e, a, a] && [e, a, a] + [a] == [e, a, a, a];
    assert [e, a, a, a] + [a] == [e, a, a, a, a] && [e, a, a, a, a] + [a] == [e, a, a, a, a, a];
    assert [e, a, a, a, a, a] + [a] == [e, a, a, a, a, a, a];
    assert [e, a, a, a, a, a, a] + [a] == [e, a, a, a, a, a, a, a];
  }

  /** Whom the lock file belongs to bars this acquisition. */
  predicate Barred(s: State, c: Claim, isNew: bool) {
    match s.file
    case Absent => false
    case Unwritten(_) => true
    case Owned(d) =>
      if isNew then d.pid in s.alive || exists f | f in s.states :: f.path == d.statePath
      else !SameOwner(d, c) || (d.pid != c.pid && d.pid in s.alive)
  }

  /** What becomes of an acquisition that nobody disturbs: barred, it changes nothing; otherwise it replaces a dead
      owner's claim, holds the lock when its verification passes, and gives the file back when not. */
  function Outcome(s: State, c: Claim, isNew: bool): State {
    if Barred(s, c, isNew) then s
    else AtFreeFile(s.(file := Absent), c, isNew, if s.file.Owned? then Some(s.file.claim) else None)
  }

  /** The exact outcome of an undisturbed fresh acquisition. */
  lemma FreshOutcome(s: State, c: Claim)
    requires Inv(s) && Idle(s, c.pid)
    ensures Alone(s, Acquire(c), c.pid) == Outcome(s, c, true)
  {
    AloneSteps(s, Acquire(c), c.pid);
    var a := Advance(c.pid);
    var s1 := Step(s, Acquire(c));
    assert s1 == Placed(s, c, true, Creating(false, None));
    if s.file.Absent? {
      FreeFile(s, c, true, false, None);
      AtFreeFileRests(s, c, true, None);
    } else {
      var s2 := Step(s1, a);
      assert s2 == Placed(s, c, true, Reading);
      ReadingOutcome(s, c, true);
    }
    hide Step, Placed, AtFreeFile, Inv;
  }

  /** The exact outcome of an undisturbed recovery. */
  lemma RecoveryOutcome(s: State, c: Claim)
    requires Inv(s) && Idle(s, c.pid)
    ensures Alone(s, Reclaim(c), c.pid) == Outcome(s, c, false)
  {
    AloneSteps(s, Reclaim(c), c.pid);
    var a := Advance(c.pid);
    var s1 := Step(s, Reclaim(c));
    assert s1 == Placed(s, c, false, Reading);
    if s.file.Absent? {
      assert Step(s1, a) == Placed(s, c, false, Creating(true, None));
      FreeFile(s, c, false, true, None);
      AtFreeFileRests(s, c, false, None);
    } else {
      ReadingOutcome(s, c, false);
    }
    hide Step, Placed, AtFreeFile, Inv;
  }

  lemma AtFreeFileRests(s: State, c: Claim, isNew: bool, replaced: Option<Claim>)
    ensures Step(AtFreeFile(s, c, isNew, replaced), Advance(c.pid)) == AtFreeFile(s, c, isNew, replaced)
  {
    StaysAtRest(AtFreeFile(s, c, isNew, replaced), c.pid);
  }

  /** An acquisition that met a lock file: six steps settle it, and a seventh changes nothing. */
  lemma ReadingOutcome(s: State, c: Claim, isNew: bool)
    requires Inv(s) && Idle(s, c.pid) && !s.file.Absent?
    ensures var a := Advance(c.pid);
            var t := Step(Step(Step(Step(Step(Step(Placed(s, c, isNew, Reading), a), a), a), a), a), a);
            t == Outcome(s, c, isNew) && Step(t, a) == t
  {
    var a := Advance(c.pid);
    var s1 := Step(Placed(s, c, isNew, Reading), a);
    if s.file.Unwritten? {
      assert s1.procs == s.procs;
      StaysAtRest(s, c.pid);
    } else {
      var d := s.file.claim;
      assert s1 == Placed(s, c, isNew, Judging(d));
      var s2 := Step(s1, a);
      if Barred(s, c, isNew) {
        assert s2.procs == s.procs;
        StaysAtRest(s, c.pid);
      } else {
        assert s2 == Placed(s, c, isNew, Removing(d));
        assert Step(s2, a) == Placed(s.(file := Absent), c, isNew, Creating(true, Some(d)));
        FreeFile(s.(file := Absent), c, isNew, true, Some(d));
        AtFreeFileRests(s.(file := Absent), c, isNew, Some(d));
      }
    }
    hide Step, Placed, AtFreeFile, Inv;
  }

  // ---------- whole operations ----------

  /** Giving the lock back frees it and disturbs nothing else; so does a reparent that closes. */
  lemma ReleaseFrees(s: State, p: Pid)
    requires Inv(s) && HoldsLock(s, p)
    ensures Step(s, Release(p)) == s.(file := Absent, procs := s.procs - {p})
    ensures s.procs[p].claim.operation.Reparent? && s.procs[p].phase.recorded ==>
              Step(s, Finish(p)) == s.(file := Absent, procs := s.procs[p := s.procs[p].(phase := Closing)])
  {
    assert PhaseInv(s, p, s.procs[p]);
  }

  /** The next fresh acquisition gets the lock exactly when nothing recoverable is left behind. */
  lemma NextInLine(s: State, p: Pid, c: Claim)
    requires Inv(s) && HoldsLock(s, p) && Idle(s, c.pid)
    ensures HoldsLock(Alone(Step(s, Release(p)), Acquire(c), c.pid), c.pid) <==> s.states == {}
  {
    ReleaseFrees(s, p);
    StepKeepsInv(s, Release(p));
    FreshOutcome(Step(s, Release(p)), c);
  }

  /** How an acquisition, a command or a process may end otherwise: a failed write takes the lock file along, any
      other error and any death leave it. */
  lemma GivingUp(s: State, p: Pid)
    requires Inv(s) && p in s.procs
    ensures s.procs[p].phase.Filling? ==> Step(s, WriteFails(p)) == s.(file := Absent, procs := s.procs - {p})
    ensures !HoldsLock(s, p) ==> Step(s, Fail(p)) == s.(procs := s.procs - {p})
    ensures HoldsLock(s, p) || Closes(s, p) ==> Step(s, Leave(p)) == s.(procs := s.procs - {p})
    ensures Step(s, Die(p)) == s.(procs := s.procs - {p}, alive := s.alive - {p}, dead := s.dead + {p})
  {
    assert PhaseInv(s, p, s.procs[p]);
  }

  function Started(c: Claim): seq<Event> {
    [Acquire(c), Advance(c.pid), Advance(c.pid), Advance(c.pid)] + [SaveState(c.pid, OwnFile(c))]
  }

  /** The state of a workspace otherwise empty while one operation, with its state file written, holds the lock. */
  function AtWork(s: State, c: Claim, isNew: bool, replaced: Option<Claim>): State {
    Placed(s, c, isNew, Holding(replaced, true)).(file := Owned(c), states := {OwnFile(c)})
  }

  predicate Empty(s: State) {
    s.file.Absent? && s.states == {} == s.ended
  }

  lemma SavesOwn(s: State, c: Claim)
    requires s.states == {} == s.ended
    ensures Step(Placed(s, c, true, Holding(None, false)).(file := Owned(c)), SaveState(c.pid, OwnFile(c)))
            == AtWork(s, c, true, None)
  {
    var t := Step(Placed(s, c, true, Holding(None, false)).(file := Owned(c)), SaveState(c.pid, OwnFile(c)));
    assert t.procs == s.procs[c.pid := Proc(c, true, Holding(None, true))];
    assert t.states == {OwnFile(c)} && t.ended == {};
  }

  lemma StartedState(s: State, c: Claim)
    requires Idle(s, c.pid) && Empty(s)
    ensures Run(s, Started(c)) == AtWork(s, c, true, None)
  {
    var a := [Acquire(c), Advance(c.pid), Advance(c.pid), Advance(c.pid)];
    RunStep(s, a, SaveState(c.pid, OwnFile(c)));
    FreshTakes(s, c);
    hide Run, Step, Placed, AtWork;
    SavesOwn(s, c);
  }

  /** Dropping its state file and giving the lock back ends an operation at work. */
  lemma EndsWork(s: State, c: Claim, isNew: bool, replaced: Option<Claim>)
    requires c.pid !in s.procs && Empty(s) && !c.operation.Reparent?
    ensures Step(Step(AtWork(s, c, isNew, replaced), DropState(c.pid, OwnFile(c))), Release(c.pid)) == s
  {
    var t := Step(AtWork(s, c, isNew, replaced), DropState(c.pid, OwnFile(c)));
    assert t.states == {} == t.ended;
    assert t == Placed(s, c, isNew, Holding(replaced, true)).(file := Owned(c));
    assert Step(t, Release(c.pid)).procs == s.procs;
  }

  /** An acquisition that meets a lock file it cannot read, one that is not the one it judged, or one where it had made
      room, gives up and touches nothing; so does a fresh one that finds the file gone.  A recovery then goes on. */
  lemma InterferenceGivesUp(s: State, p: Pid)
    requires Inv(s) && p in s.procs
    ensures var phase, isNew := s.procs[p].phase, s.procs[p].isNew;
            || (phase.Reading? && (s.file.Unwritten? || (s.file.Absent? && isNew)))
            || (phase.Removing? && s.file != Owned(phase.found))
            || (phase.Creating? && !s.file.Absent? && (phase.again || !isNew))
            ==> Step(s, Advance(p)) == s.(procs := s.procs - {p})
    ensures s.procs[p].phase.Reading? && s.file.Absent? && !s.procs[p].isNew ==>
              Step(s, Advance(p)) == s.(procs := s.procs[p := s.procs[p].(phase := Creating(true, None))])
  {
    match s.procs[p].phase
    case Creating(_, _) =>
    case Reading =>
    case Removing(_) =>
    case _ =>
  }

  /** An undisturbed operation other than a reparent leaves the workspace as it was. */
  lemma WholeOperation(s: State, c: Claim)
    requires Idle(s, c.pid) && Empty(s) && !c.operation.Reparent?
    ensures Run(s, Started(c) + [DropState(c.pid, OwnFile(c))] + [Release(c.pid)]) == s
  {
    RunStep(s, Started(c), DropState(c.pid, OwnFile(c)));
    RunStep(s, Started(c) + [DropState(c.pid, OwnFile(c))], Release(c.pid));
    StartedState(s, c);
    hide Run, Step, AtWork, Started;
    EndsWork(s, c, true, None);
  }

  /** What a closing reparent leaves until it ends. */
  function AtClosing(s: State, c: Claim): State {
    Placed(s, c, true, Closing).(states := {OwnFile(c)})
  }

  lemma SavesSync(s: State, c: Claim, sync: StateFile)
    requires Empty(s) && c.operation.Reparent? && sync.operation.Sync? && sync.feature == c.feature
    ensures var t := Step(AtWork(s, c, true, None), SaveState(c.pid, sync));
            && t.states == {OwnFile(c), sync} && HoldsLock(t, c.pid)
            && Step(t, DropState(c.pid, sync)) == AtWork(s, c, true, None)
  {
    var held := AtWork(s, c, true, None);
    var t := Step(held, SaveState(c.pid, sync));
    assert t.procs == held.procs && t.states == {OwnFile(c), sync} && t.ended == {};
    var u := Step(t, DropState(c.pid, sync));
    assert u.procs == held.procs && u.states == {OwnFile(c)} && u.ended == {};
  }

  lemma BeginsClosing(s: State, c: Claim)
    requires Empty(s) && c.operation.Reparent?
    ensures Step(AtWork(s, c, true, None), Finish(c.pid)) == AtClosing(s, c)
  {
    assert Step(AtWork(s, c, true, None), Finish(c.pid)).procs == s.procs[c.pid := Proc(c, true, Closing)];
  }

  lemma EndsClosing(s: State, c: Claim)
    requires c.pid !in s.procs && Empty(s)
    ensures Step(AtClosing(s, c), LateSave(c.pid)).ended == {OwnFile(c)}
    ensures Step(Step(AtClosing(s, c), LateSave(c.pid)), Retire(c.pid)) == s
  {
    var t := Step(AtClosing(s, c), LateSave(c.pid));
    assert t == AtClosing(s, c).(ended := {OwnFile(c)}) by { assert t.states == {OwnFile(c)}; }
    var u := Step(t, Retire(c.pid));
    assert u.procs == s.procs && u.states == {} == u.ended;
  }

  lemma ClosingKeepsOthersOut(s: State, c: Claim, d: Claim)
    requires Inv(s) && Idle(s, c.pid) && Empty(s) && c.operation.Reparent? && Idle(s, d.pid) && d.pid != c.pid
    ensures Alone(AtClosing(s, c), Acquire(d), d.pid) == AtClosing(s, c)
  {
    var t := AtClosing(s, c);
    forall q | q in t.procs ensures PhaseInv(t, q, t.procs[q]) {
      if q != c.pid { assert PhaseInv(s, q, s.procs[q]); }
    }
    FreshOutcome(t, d);
    assert OwnFile(c) in t.states && t.procs - {d.pid} == t.procs;
  }

  /** So does a reparent: it saves its own file and its feature's checkout sync, removes the latter, gives the lock
      back, and saves its own file once more before it removes it.  Until then nobody else gets the lock. */
  lemma WholeReparent(s: State, c: Claim, sync: StateFile, d: Claim)
    requires Inv(s) && Idle(s, c.pid) && Empty(s) && c.operation.Reparent?
    requires sync.operation.Sync? && sync.feature == c.feature && Idle(s, d.pid) && d.pid != c.pid
    ensures var both := Run(s, Started(c) + [SaveState(c.pid, sync)]);
            both.states == {OwnFile(c), sync} && HoldsLock(both, c.pid)
    ensures var closing := Run(s, Started(c) + [SaveState(c.pid, sync)] + [DropState(c.pid, sync)] + [Finish(c.pid)]);
            && closing.file.Absent? && closing.states == {OwnFile(c)}
            && Alone(closing, Acquire(d), d.pid) == closing
            && Step(closing, LateSave(c.pid)).ended == {OwnFile(c)}
            && Step(Step(closing, LateSave(c.pid)), Retire(c.pid)) == s
  {
    var p, a := c.pid, Started(c);
    RunStep(s, a, SaveState(p, sync));
    RunStep(s, a + [SaveState(p, sync)], DropState(p, sync));
    RunStep(s, a + [SaveState(p, sync)] + [DropState(p, sync)], Finish(p));
    assert AtClosing(s, c).file.Absent? && AtClosing(s, c).states == {OwnFile(c)};
    hide Run, Step, AtWork, AtClosing, Started, Alone, Inv;
    StartedState(s, c);
    SavesSync(s, c, sync);
    BeginsClosing(s, c);
    EndsClosing(s, c);
    ClosingKeepsOthersOut(s, c, d);
  }

  /** The workspace once the process of an operation at work has died. */
  function Orphaned(s: State, c: Claim): State {
    s.(file := Owned(c), states := {OwnFile(c)}, alive := s.alive - {c.pid}, dead := s.dead + {c.pid})
  }

  lemma DiesAtWork(s: State, c: Claim)
    requires Inv(s) && Idle(s, c.pid) && Empty(s)
    ensures Step(AtWork(s, c, true, None), Die(c.pid)) == Orphaned(s, c)
  {
    assert Step(AtWork(s, c, true, None), Die(c.pid)).procs == s.procs;
  }

  lemma OrphanOutcome(s: State, c: Claim, d: Claim)
    requires Inv(Orphaned(s, c)) && c.pid !in s.alive - {c.pid} && Idle(s, d.pid) && c.pid != d.pid
    ensures Alone(Orphaned(s, c), Acquire(d), d.pid) == Orphaned(s, c)
    ensures !SameOwner(c, d) ==> Alone(Orphaned(s, c), Reclaim(d), d.pid) == Orphaned(s, c)
  {
    var t := Orphaned(s, c);
    FreshOutcome(t, d);
    RecoveryOutcome(t, d);
    assert OwnFile(c) in t.states;
  }

  lemma OrphanRecovered(s: State, c: Claim, r: Claim)
    requires Inv(Orphaned(s, c)) && Empty(s) && Idle(s, r.pid) && c.pid != r.pid && SameOwner(c, r)
    ensures Alone(Orphaned(s, c), Reclaim(r), r.pid)
            == AtWork(s.(alive := s.alive - {c.pid}, dead := s.dead + {c.pid}), r, false, Some(c))
  {
    RecoveryOutcome(Orphaned(s, c), r);
    assert OwnFile(c) == OwnFile(r);
  }

  /** An operation whose process dies bars everybody but its own recovery, which takes the lock over and, unless it
      is a reparent's, leaves the workspace as it was before. */
  lemma InterruptedOperation(s: State, c: Claim, d: Claim, r: Claim)
    requires Inv(s) && Idle(s, c.pid) && Empty(s)
    requires Idle(s, d.pid) && Idle(s, r.pid) && c.pid != d.pid && c.pid != r.pid && SameOwner(c, r)
    ensures var t := Run(s, Started(c) + [Die(c.pid)]);
            && Alone(t, Acquire(d), d.pid) == t && t.file == Owned(c) && t.states == {OwnFile(c)}
            && (!SameOwner(c, d) ==> Alone(t, Reclaim(d), d.pid) == t)
            && var u := Alone(t, Reclaim(r), r.pid);
               && HoldsLock(u, r.pid) && u.states == {OwnFile(c)}
               && (!c.operation.Reparent? ==>
                     Step(Step(u, DropState(r.pid, OwnFile(c))), Release(r.pid))
                     == s.(alive := s.alive - {c.pid}, dead := s.dead + {c.pid}))
  {
    RunStep(s, Started(c), Die(c.pid));
    StartedState(s, c);
    DiesAtWork(s, c);
    RunKeepsInv(s, Started(c) + [Die(c.pid)]);
    var after := s.(alive := s.alive - {c.pid}, dead := s.dead + {c.pid});
    assert OwnFile(c) == OwnFile(r) && HoldsLock(AtWork(after, r, false, Some(c)), r.pid);
    hide Run, Step, AtWork, Started, Alone, Inv;
    OrphanOutcome(s, c, d);
    OrphanRecovered(s, c, r);
    if !c.operation.Reparent? { EndsWork(after, r, false, Some(c)); }
  }

  /** With the lock file gone, a recovery takes the lock exactly when nothing recoverable is left but its own state
      file and, for a reparent, its feature's checkout sync; otherwise it changes nothing. */
  lemma RecoveryFindsItsOwn(s: State, c: Claim)
    requires Inv(s) && Idle(s, c.pid) && s.file.Absent?
    ensures var t := Alone(s, Reclaim(c), c.pid);
            var own := forall f :: f in s.states ==>
                || (f.feature == c.feature && f.operation == c.operation && f.path == c.statePath)
                || (f.feature == c.feature && f.operation == Sync && c.operation == Reparent);
            (own ==> HoldsLock(t, c.pid) && t.file == Owned(c)) && (!own ==> t == s)
  {
    RecoveryOutcome(s, c);
    assert s.procs - {c.pid} == s.procs;
  }

  /** A dead owner's lock is recovered only by token, feature, operation and state path together. */
  lemma RecoveryNeedsIdentity(s: State, c: Claim)
    requires Inv(s) && Idle(s, c.pid) && s.file.Owned?
    ensures var d := s.file.claim;
            d.token != c.token || d.feature != c.feature || d.operation != c.operation || d.statePath != c.statePath ==>
              Alone(s, Reclaim(c), c.pid) == s
    ensures s.file.claim.pid in s.alive && s.file.claim.pid != c.pid ==> Alone(s, Reclaim(c), c.pid) == s
  {
    RecoveryOutcome(s, c);
  }

  /** The lock of a dead owner without state is taken over by the next fresh acquisition; with state left, in
      the owner's name or anyone's, it never is. */
  lemma OrphanTakenOver(s: State, c: Claim)
    requires Inv(s) && Idle(s, c.pid) && s.file.Owned? && s.file.claim.pid !in s.alive
    ensures HoldsLock(Alone(s, Acquire(c), c.pid), c.pid) <==> s.states == {}
  {
    AloneSteps(s, Acquire(c), c.pid);
    var a := Advance(c.pid);
    var s1 := Step(s, Acquire(c));
    var s2 := Step(s1, a);
    assert s2.procs[c.pid].phase.Reading?;
    var s3 := Step(s2, a);
    assert s3.procs[c.pid].phase == Judging(s.file.claim);
    var s4 := Step(s3, a);
    if exists f :: f in s.states && f.path == s.file.claim.statePath {
      assert c.pid !in s4.procs;
    } else {
      var s5 := Step(s4, a);
      var s6 := Step(s5, a);
      var s7 := Step(s6, a);
      assert s7.procs[c.pid].phase.Verifying?;
    }
  }

  /** A recovery of the dead owner's own operation takes the lock over exactly when every recoverable file is
      that operation's. */
  lemma RecoveryTakesOver(s: State, c: Claim)
    requires Inv(s) && Idle(s, c.pid) && s.file.Owned? && s.file.claim.pid !in s.alive
    ensures HoldsLock(Alone(s, Reclaim(c), c.pid), c.pid) <==>
              SameOwner(s.file.claim, c) && forall f :: f in s.states ==> Own(c, f)
  {
    AloneSteps(s, Reclaim(c), c.pid);
    var a := Advance(c.pid);
    var s1 := Step(s, Reclaim(c));
    var s2 := Step(s1, a);
    assert s2.procs[c.pid].phase == Judging(s.file.claim);
    var s3 := Step(s2, a);
    if SameOwner(s.file.claim, c) {
      var s4 := Step(s3, a);
      var s5 := Step(s4, a);
      var s6 := Step(s5, a);
      assert s6.procs[c.pid].phase.Verifying?;
    } else {
      assert c.pid !in s3.procs;
    }
  }
}
