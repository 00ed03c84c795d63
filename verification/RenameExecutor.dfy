/** The rename executor: forward, rollback and cleanup, each effect written ahead,
    under an arbitrary script of failures and process deaths at every step. */
module RenameExecutor {
  import opened Options
  import opened RenameJournal
  import opened RenameDisk

  /** The files of a staging directory, in the order cleanup removes them. */
  datatype CellName = OriginalCell | PublishedCell | NextCell

  function CellOf(p: PointerDisk, c: CellName): Cell {
    match c
    case OriginalCell => p.original
    case PublishedCell => p.published
    case NextCell => p.next
  }

  function WithCell(p: PointerDisk, c: CellName, v: Cell): PointerDisk {
    match c
    case OriginalCell => p.(original := v)
    case PublishedCell => p.(published := v)
    case NextCell => p.(next := v)
  }

  /** What happens at one step that touches the file system. */
  datatype Fault = Fine | Fail | Die | DieTorn

  predicate AllFine(faults: seq<Fault>) {
    forall k :: 0 <= k < |faults| ==> faults[k] == Fine
  }

  /** At most one failure, and no death. */
  predicate FailsOnce(faults: seq<Fault>) {
    || AllFine(faults)
    || (|faults| > 0 && if faults[0] == Fine then FailsOnce(faults[1..]) else faults[0] == Fail && AllFine(faults[1..]))
  }

  datatype Outcome = Ok | Failed | Interrupted

  datatype Recovery = Fresh | Continue | AbortRename

  function Broken(f: Fault): Outcome { if f == Fail then Failed else Interrupted }

  /** `verifyStable`, as far as the pointers go. */
  predicate Stable(n: nat, w: World)
    requires |w.ptr| == n
  {
    forall i: nat | i < n ::
      if !Staged(w.log, i) then w.ptr[i].live == Some(Pre)
      else if I(Cleanup(i)) in w.log then w.ptr[i].live == Some(FinalImage(w.log))
      else StateOf(w.ptr[i]) != Unknown
  }

  /** `verifyPhysicalInventory`: a missing worktree marker must be a recorded preservation. */
  predicate Inventory(plan: Plan, w: World)
    requires |w.ptr| == |plan.pointers|
  {
    forall i: nat | i < |plan.pointers| ::
      plan.pointers[i].kind == Forward && w.ptr[i].live == None ==>
        I(Preserve(i)) in w.log && StateOf(w.ptr[i]) == Preserved
  }

  /** `verifyFinal`: the directory and every pointer are at the required final binding. */
  predicate Final(n: nat, w: World, moved: bool)
    requires |w.ptr| == n
  {
    && w.dir == (if moved then NewName else OldName)
    && forall i: nat | i < n :: w.ptr[i].live == Some(if moved then Post else Pre)
  }

  /** Neither finished nor turned back. */
  predicate Forwarding(log: Log) { I(Abort) !in log && !Terminal(log) }

  predicate StagedTo(log: Log, k: nat) { forall j: nat | j < k :: D(Stage(j)) in log }

  predicate PublishedTo(log: Log, k: nat) { forall j: nat | j < k :: D(Publish(j)) in log }

  predicate CleanedTo(log: Log, k: nat) {
    forall j: nat | j < k :: Staged(log, j) ==> D(Cleanup(j)) in log
  }

  predicate RestoredFrom(log: Log, k: nat, n: nat) {
    forall j: nat | k <= j < n :: Staged(log, j) ==> D(Restore(j)) in log
  }

  lemma StagedToKept(a: Log, b: Log, k: nat)
    requires forall x :: x in a ==> x in b
    ensures StagedTo(a, k) ==> StagedTo(b, k)
  {
  }

  lemma PublishedToKept(a: Log, b: Log, k: nat)
    requires forall x :: x in a ==> x in b
    ensures PublishedTo(a, k) ==> PublishedTo(b, k)
    ensures PublishedTo(a, k) && D(Publish(k)) in b ==> PublishedTo(b, k + 1)
  {
  }

  lemma CleanedToKept(a: Log, b: Log, k: nat)
    requires forall x :: x in a ==> x in b
    requires forall x :: x in b ==> x in a || x.effect == Cleanup(k)
    requires CleanedTo(a, k) && D(Cleanup(k)) in b
    ensures CleanedTo(b, k + 1) && (Terminal(a) ==> Terminal(b))
  {
  }

  lemma RestoredKept(a: Log, b: Log, k: nat, n: nat)
    requires forall x :: x in a ==> x in b
    requires forall x :: x in b ==> x in a || x.effect == Unpublish(k) || x.effect == Restore(k)
    requires k < n && RestoredFrom(a, k + 1, n)
    ensures RestoredFrom(b, k + 1, n) && (Staged(a, k) ==> Staged(b, k))
    ensures D(Restore(k)) in b ==> RestoredFrom(b, k, n)
    ensures I(Abort) in a ==> I(Abort) in b
    ensures !Terminal(a) ==> !Terminal(b)
  {
  }

  /** A staging directory that no `done` record adopted. */
  predicate ResidueAt(w: World, i: nat)
    requires i < |w.ptr|
  {
    !Staged(w.log, i) && w.ptr[i].staging
  }

  predicate ResidueFrom(n: nat, w: World, k: nat)
    requires |w.ptr| == n
  {
    exists i: nat | k <= i < n :: ResidueAt(w, i)
  }

  predicate Residue(n: nat, w: World)
    requires |w.ptr| == n
  {
    ResidueFrom(n, w, 0)
  }

  lemma ResidueStep(n: nat, w: World, k: nat)
    requires |w.ptr| == n && k < n
    ensures ResidueFrom(n, w, k) <==> ResidueAt(w, k) || ResidueFrom(n, w, k + 1)
  {
  }

  lemma ResidueSame(n: nat, w: World, w': World)
    requires |w.ptr| == n && w'.log == w.log && w'.ptr == w.ptr
    ensures Residue(n, w') == Residue(n, w)
  {
    forall i: nat | i < n ensures ResidueAt(w', i) == ResidueAt(w, i) {}
  }

  /** Pointers from `k` on have neither been staged nor changed since `w`. */
  ghost predicate UntouchedFrom(n: nat, w: World, w': World, k: nat)
    requires |w.ptr| == |w'.ptr| == n
  {
    forall j: nat | k <= j < n :: ResidueAt(w', j) == ResidueAt(w, j)
  }

  lemma UntouchedBeyond(n: nat, w: World, w': World, i: nat)
    requires |w.ptr| == |w'.ptr| == n && i < n
    requires forall x :: x in w.log ==> x in w'.log
    requires forall x :: x in w'.log ==> x in w.log || x.effect == Stage(i)
    requires forall j: nat | j < n && j != i :: w'.ptr[j] == w.ptr[j]
    ensures UntouchedFrom(n, w, w', i + 1)
  {
  }

  /** Not yet cleaned, and no evidence that recovery refuses to judge. */
  predicate Recoverable(n: nat, w: World)
    requires |w.ptr| == n
  {
    !w.torn && D(Cleaned) !in w.log && !Residue(n, w)
  }

  /** Finished: entirely moved or entirely not, on both disks, with every private file gone. */
  ghost predicate Settled(n: nat, w: World)
    requires |w.ptr| == n && |w.ptrDurable| == n
  {
    && D(Cleaned) in w.log
    && Final(n, w, D(Complete) in w.log)
    && w.dirDurable == w.dir
    && forall i: nat | i < n ::
         !w.ptr[i].staging && !w.ptrDurable[i].staging && w.ptrDurable[i].live == w.ptr[i].live
  }

  lemma ReceiptIsSettled(n: nat, w: World)
    requires Inv(n, w) && D(Cleaned) in w.log
    ensures Settled(n, w)
  {
    ExecutedFacts(n, w.log);
    FinalHolds(n, w);
    forall i: nat | i < n
      ensures !w.ptr[i].staging && !w.ptrDurable[i].staging
      ensures w.ptrDurable[i].live == Some(FinalImage(w.log))
    {
      assert PointerAllowed(w.log, i, w.ptr[i]) && PointerAllowed(w.log, i, w.ptrDurable[i]);
      if !Staged(w.log, i) { assert I(Abort) in w.log; }
    }
  }

  /** A first record cut short. */
  function TornStart(n: nat): World {
    Initially(n).(torn := true)
  }

  /** The first staging directory made, by a process that died before anything else. */
  function ResidueStart(n: nat): World
    requires n > 0
  {
    var p := Initially(n).ptr[0].(staging := true);
    Initially(n).(log := [I(Stage(0))], durable := 1, ptr := Initially(n).ptr[0 := p])
  }

  /** The two windows in which recovery fails closed, both within the invariant: a record cut short,
      and a staging directory whose `done` record was never written. */
  lemma FailClosedWindows(n: nat)
    ensures Inv(n, TornStart(n)) && !Recoverable(n, TornStart(n))
    ensures n > 0 ==> Inv(n, ResidueStart(n)) && !ResidueStart(n).torn && !Recoverable(n, ResidueStart(n))
  {
    TornWindow(n);
    if n > 0 { ResidueWindow(n); }
  }

  lemma TornWindow(n: nat)
    ensures Inv(n, TornStart(n)) && !Recoverable(n, TornStart(n))
  {
    InitInv(n);
    TornKeepsInv(n, Initially(n));
    hide Inv;
  }

  lemma ResidueWindow(n: nat)
    requires n > 0
    ensures Inv(n, ResidueStart(n)) && !ResidueStart(n).torn && !Recoverable(n, ResidueStart(n))
  {
    InitInv(n);
    var init := Initially(n);
    hide Inv, View, ValidEvent, ExecutorOrder, PointerAllowed;
    FirstIntentFits(n);
    AppendKeepsInv(n, init, I(Stage(0)));
    var w := init.(log := init.log + [I(Stage(0))], durable := |init.log| + 1);
    FirstStagingFits(n, w.log, w.ptr[0]);
    PointerStep(n, w, 0, w.ptr[0].(staging := true), w.ptrDurable[0]);
    assert ResidueStart(n) ==
           w.(ptr := w.ptr[0 := w.ptr[0].(staging := true)], ptrDurable := w.ptrDurable[0 := w.ptrDurable[0]]);
    assert ResidueAt(ResidueStart(n), 0);
  }

  lemma FirstIntentFits(n: nat)
    requires n > 0
    ensures ValidEvent(n, [], I(Stage(0))) && ExecutorOrder(n, [], Stage(0)) && View(n, [I(Stage(0))], Initially(n))
    ensures [] + [I(Stage(0))] == [I(Stage(0))]
  {
    assert [] + [I(Stage(0))] == [I(Stage(0))];
  }

  lemma FirstStagingFits(n: nat, log: Log, p: PointerDisk)
    requires n > 0 && log == [I(Stage(0))] && p == Initially(n).ptr[0]
    ensures PointerAllowed(log, 0, p) && PointerAllowed(log, 0, p.(staging := true)) && !Staged(log, 0)
  {
  }

  /** What one power cut keeps. */
  datatype Cut = Cut(keepRecord: bool, tear: bool, keepMove: bool, keepPointers: set<nat>)

  function AfterCut(w: World, cut: Cut): World
    requires w.durable <= |w.log| && |w.ptr| == |w.ptrDurable|
  {
    var log := if cut.keepRecord then w.log else w.log[..w.durable];
    var dir := if cut.keepMove then w.dir else w.dirDurable;
    var ptr := seq(|w.ptr|, i requires 0 <= i < |w.ptr| =>
                     if i in cut.keepPointers then w.ptr[i] else w.ptrDurable[i]);
    World(log, |log|, cut.tear && (w.torn || |log| < |w.log|), dir, dir, ptr, ptr)
  }

  datatype Happening = Command(abort: bool, script: seq<Fault>) | PowerFails(cut: Cut)

  lemma DoneIntended(n: nat, log: Log, e: Effect)
    requires Executed(n, log) && D(e) in log
    ensures I(e) in log
  {
    ExecutedFacts(n, log);
  }

  lemma StableHolds(plan: Plan, w: World)
    requires Inv(|plan.pointers|, w)
    ensures Stable(|plan.pointers|, w) && Inventory(plan, w)
  {
    ExecutedFacts(|plan.pointers|, w.log);
    forall i: nat | i < |plan.pointers| ensures PointerAllowed(w.log, i, w.ptr[i]) {}
  }

  /** An event the grammar and the executor's own order both admit now. */
  predicate Allowed(n: nat, log: Log, e: Effect) {
    && InRange(n, e) && D(Cleaned) !in log
    && DirectionAllows(log, e) && OrderAllows(n, log, e) && ExecutorOrder(n, log, e)
  }

  /** What the action of an effect relies on, also when it is repeated on resume. */
  predicate ActionPre(n: nat, log: Log, e: Effect) {
    && InRange(n, e)
    && match e
       case Move => I(Abort) !in log
       case Preserve(i) => Staged(log, i) && I(Abort) !in log && !Terminal(log)
       case Publish(i) => Staged(log, i) && I(Abort) !in log && !Terminal(log) && D(Preserve(i)) in log
       case Unpublish(i) => Staged(log, i) && !Terminal(log)
       case Restore(i) => Staged(log, i) && !Terminal(log) && D(Unpublish(i)) in log
       case Complete =>
         I(Abort) !in log && !Terminal(log) && D(Move) in log && forall i: nat | i < n :: D(Publish(i)) in log
       case Aborted => !Terminal(log) && D(MoveBack) in log
       case Cleaned => Terminal(log)
       case Cleanup(i) => Terminal(log) && Staged(log, i)
       case MoveBack => true
       case _ => false
  }

  /** An allowed effect whose intent was just written may act, and may then be acknowledged. */
  lemma AllowedGivesPre(n: nat, log: Log, log': Log, e: Effect)
    requires Allowed(n, log, e) && !e.Stage? && !e.Abort? && D(e) !in log && Facts(n, log)
    requires forall x :: x in log' <==> x in log || x == I(e)
    ensures ActionPre(n, log', e)
    ensures ValidEvent(n, log', D(e)) && ExecutorOrder(n, log', e)
  {
  }

  /** An allowed effect's intent is valid, or was written before. */
  lemma IntentValid(n: nat, log: Log, e: Effect)
    requires Allowed(n, log, e)
    ensures I(e) in log || ValidEvent(n, log, I(e))
    ensures ExecutorOrder(n, log, e)
  {
  }

  /** Once the intent of an allowed effect is in the journal, the effect may act and be acknowledged. */
  lemma IntendedGivesPre(n: nat, w: World, log: Log, e: Effect)
    requires Inv(n, w) && Allowed(n, w.log, e) && !e.Stage? && !e.Abort? && D(e) !in w.log
    requires I(e) in log && (log == w.log || log == w.log + [I(e)])
    ensures D(e) !in log && ActionPre(n, log, e)
    ensures ValidEvent(n, log, D(e)) && ExecutorOrder(n, log, e)
  {
    ExecutedFacts(n, w.log);
    assert forall x :: x in log <==> x in w.log || x == I(e);
    AllowedGivesPre(n, w.log, log, e);
  }

  lemma FinalHolds(n: nat, w: World)
    requires Inv(n, w)
    ensures I(Abort) !in w.log && D(Move) in w.log && (forall i: nat | i < n :: D(Publish(i)) in w.log) ==>
              Final(n, w, true)
    ensures D(MoveBack) in w.log ==> Final(n, w, false)
    ensures Terminal(w.log) ==> Final(n, w, D(Complete) in w.log)
  {
    ExecutedFacts(n, w.log);
    forall i: nat | i < n ensures PointerAllowed(w.log, i, w.ptr[i]) {}
  }

  /** The intent of an allowed effect fits the disk as it is. */
  lemma IntentFits(n: nat, w: World, e: Effect)
    requires Inv(n, w) && Allowed(n, w.log, e) && !e.Abort?
    ensures View(n, w.log + [I(e)], w)
  {
    if e.Cleanup? {
      ExecutedFacts(n, w.log);
      var l := w.log + [I(e)];
      assert forall x :: x in l <==> x in w.log || x == I(e);
      assert PointerAllowed(w.log, e.i, w.ptr[e.i]) && PointerAllowed(w.log, e.i, w.ptrDurable[e.i]);
      assert FinalImage(l) == FinalImage(w.log);
      ViewAfterPointerEvent(n, w, I(e), e.i);
    } else {
      ViewUndisturbed(n, w, I(e));
    }
  }

  /** A world that differs from `w` at most in one pointer still satisfies the invariant. */
  lemma PointerStep(n: nat, w: World, i: nat, p: PointerDisk, q: PointerDisk)
    requires Inv(n, w) && w.durable == |w.log| && i < n
    requires PointerAllowed(w.log, i, p) && PointerAllowed(w.log, i, q)
    requires !Staged(w.log, i) && q.staging ==> p.staging
    ensures Inv(n, w.(ptr := w.ptr[i := p], ptrDurable := w.ptrDurable[i := q]))
  {
    assert w.log[..w.durable] == w.log;
  }

  /** Acknowledging an allowed effect whose disk state is settled keeps the invariant. */
  lemma AppendKeepsInv(n: nat, w: World, ev: Event)
    requires Inv(n, w) && w.durable == |w.log| && !w.torn
    requires ValidEvent(n, w.log, ev) && ExecutorOrder(n, w.log, ev.effect)
    requires View(n, w.log + [ev], w)
    ensures Inv(n, w.(log := w.log + [ev]))
    ensures Inv(n, w.(log := w.log + [ev], durable := |w.log| + 1))
  {
    var l := w.log + [ev];
    ExecutedExtend(n, w.log, ev);
    assert l[..|l|] == l && l[..|w.log|] == w.log && w.log[..w.durable] == w.log;
    assert forall x :: x in l <==> x in w.log || x == ev;
  }

  lemma TornKeepsInv(n: nat, w: World)
    requires Inv(n, w) && w.durable == |w.log|
    ensures Inv(n, w.(torn := true))
  {
  }

  class Operation {
    const plan: Plan
    var w: World
    var faults: seq<Fault>

    function N(): nat { |plan.pointers| }

    /** No failure or death is scheduled any more. */
    ghost predicate Quiet() reads this {
      AllFine(faults)
    }

    /** At most one failure is still scheduled, and no death. */
    ghost predicate Single() reads this {
      FailsOnce(faults)
    }

    ghost predicate Ready() reads this {
      Inv(N(), w) && !w.torn && w.durable == |w.log|
    }

    /** Common to every step: the invariant, an append-only journal, and no surprises without faults. */
    twostate predicate Kept(r: Outcome) reads this {
      && Inv(N(), w)
      && old(w).log <= w.log && old(w).durable <= w.durable
      && (forall x :: x in old(w).log ==> x in w.log)
      && (r != Interrupted ==> Ready())
      && (old(Quiet()) ==> Quiet() && r != Interrupted)
      && (old(Single()) ==> Single())
    }

    /** Only a fault can make the step fail, so of a single failure nothing is left then. */
    twostate predicate Sure(r: Outcome) reads this {
      && (old(Quiet()) ==> r == Ok)
      && (old(Single()) && r != Ok ==> Quiet())
    }

    /** Only one pointer's disk state may differ. */
    twostate predicate OnlyPointer(i: nat) reads this {
      && |w.ptr| == |w.ptrDurable| == |old(w).ptr| == |old(w).ptrDurable| == N() && i < N()
      && w == old(w).(ptr := old(w).ptr[i := w.ptr[i]], ptrDurable := old(w).ptrDurable[i := w.ptrDurable[i]])
    }

    constructor (plan: Plan, script: seq<Fault>)
      ensures this.plan == plan && w == Initially(|plan.pointers|) && faults == script
      ensures Ready()
    {
      this.plan := plan;
      w := Initially(|plan.pointers|);
      faults := script;
      new;
      InitInv(|plan.pointers|);
    }

    method NextFault() returns (f: Fault)
      modifies this`faults
      ensures old(Quiet()) ==> f == Fine && Quiet()
      ensures old(Single()) ==> Single() && (f == Fine || (f == Fail && Quiet()))
      ensures |old(faults)| > 0 ==> f == old(faults)[0] && faults == old(faults)[1..]
    {
      f := Fine;
      if |faults| > 0 {
        f := faults[0];
        faults := faults[1..];
      }
    }

    method VerifyStable() returns (ok: bool)
      requires Inv(N(), w)
      modifies this`faults
      ensures ok ==> Stable(N(), w)
      ensures old(Quiet()) ==> ok && Quiet()
      ensures old(Single()) ==> Single() && (ok || Quiet())
      ensures |old(faults)| > 0 && old(faults)[0] == Fine ==> ok && faults == old(faults)[1..]
    {
      var f := NextFault();
      StableHolds(plan, w);
      ok := f == Fine && Stable(N(), w);
    }

    method VerifyFinal(moved: bool) returns (ok: bool)
      requires Inv(N(), w)
      modifies this`faults
      ensures ok ==> Final(N(), w, moved)
      ensures old(Quiet()) ==> Quiet() && ok == Final(N(), w, moved)
      ensures old(Single()) ==> Single() && (Final(N(), w, moved) ==> ok || Quiet())
    {
      var f := NextFault();
      StableHolds(plan, w);
      ok := f == Fine && Stable(N(), w) && Inventory(plan, w) && Final(N(), w, moved);
    }

    // ---------- the journal ----------

    /** `record`: validate, write exclusively, synchronise.  Any failure of the write itself
        ends the invocation, because the record may or may not have reached the disk. */
    method Record(ev: Event) returns (r: Outcome)
      requires Ready()
      requires ev !in w.log && ValidEvent(N(), w.log, ev) ==>
                 ExecutorOrder(N(), w.log, ev.effect) && View(N(), w.log + [ev], w)
      modifies this
      ensures Kept(r)
      ensures w == old(w).(log := w.log, durable := w.durable, torn := w.torn)
      ensures w.log == old(w).log || (ev !in old(w).log && w.log == old(w).log + [ev])
      ensures r == Ok ==> ev in w.log
      ensures r == Failed ==> w == old(w)
      ensures ev in old(w).log || ValidEvent(N(), old(w).log, ev) ==> Sure(r)
      ensures [Fine, Fail] <= old(faults) && ev !in old(w).log && ValidEvent(N(), old(w).log, ev) ==>
                r == Interrupted && w == old(w).(torn := true)
      ensures [Fine, Fine, Fine] <= old(faults) && ev !in old(w).log && ValidEvent(N(), old(w).log, ev) ==>
                r == Ok && faults == old(faults)[3..]
    {
      hide Inv, ValidEvent, ExecutorOrder, View;
      var f := NextFault();
      if f != Fine { return Broken(f); }
      if ev in w.log { return Ok; }
      if !ValidEvent(N(), w.log, ev) { return Failed; }
      r := Append(ev);
    }

    /** The exclusive write of a record and its synchronisation. */
    method Append(ev: Event) returns (r: Outcome)
      requires Ready() && ev !in w.log && ValidEvent(N(), w.log, ev)
      requires ExecutorOrder(N(), w.log, ev.effect) && View(N(), w.log + [ev], w)
      modifies this
      ensures Kept(r) && r != Failed
      ensures w == old(w).(log := w.log, durable := w.durable, torn := w.torn)
      ensures w.log == old(w).log || w.log == old(w).log + [ev]
      ensures r == Ok ==> w.log == old(w).log + [ev]
      ensures Sure(r)
      ensures [Fail] <= old(faults) ==> r == Interrupted && w == old(w).(torn := true)
      ensures [Fine, Fine] <= old(faults) ==> r == Ok && faults == old(faults)[2..]
    {
      assert w.log[..w.durable] == w.log;
      AppendKeepsInv(N(), w, ev);
      hide Inv, ValidEvent, ExecutorOrder, View;
      assert Inv(N(), w.(torn := true)) by { TornKeepsInv(N(), w); }
      var f := NextFault();
      match f {
        case Die => return Interrupted;
        case Fail | DieTorn => w := w.(torn := true); return Interrupted;
        case Fine =>
      }
      w := w.(log := w.log + [ev]);
      f := NextFault();
      if f != Fine { return Interrupted; }
      w := w.(durable := |w.log|);
      r := Ok;
    }

    // ---------- directory effects ----------

    method SyncRoot() returns (r: Outcome)
      requires Ready()
      modifies this
      ensures Kept(r) && w == old(w).(dirDurable := w.dirDurable)
      ensures r == Ok ==> w.dirDurable == w.dir
      ensures Sure(r)
    {
      var f := NextFault();
      if f != Fine { return Broken(f); }
      w := w.(dirDurable := w.dir);
      r := Ok;
    }

    /** `move`: rename the feature directory, or only repeat the barrier if it already happened. */
    method MoveFeature(back: bool) returns (r: Outcome)
      requires Ready()
      requires if back then I(MoveBack) in w.log else I(Move) in w.log && I(Abort) !in w.log
      modifies this
      ensures Kept(r) && w == old(w).(dir := w.dir, dirDurable := w.dirDurable)
      ensures r == Ok ==> w.dir == w.dirDurable == (if back then OldName else NewName)
      ensures Sure(r)
    {
      ExecutedFacts(N(), w.log);
      var stable := VerifyStable();
      if !stable { return Failed; }
      if (w.dir == NewName) != back {
        r := SyncRoot();
        return;
      }
      if back { LastRestored(); }
      var registryRestored :=
        back && N() > 0 && plan.pointers[N() - 1].kind == Registry ==> w.ptr[N() - 1].live == Some(Pre);
      if !registryRestored { return Failed; }
      r := BindDirectory(back);
    }

    /** Before the directory goes back every pointer is what it was. */
    lemma LastRestored()
      requires Ready() && I(MoveBack) in w.log
      ensures N() > 0 ==> |w.ptr| == N() && w.ptr[N() - 1].live == Some(Pre)
    {
      ExecutedFacts(N(), w.log);
      assert N() > 0 ==> PointerAllowed(w.log, N() - 1, w.ptr[N() - 1]);
    }

    /** The rename of the directory itself and its barriers. */
    method BindDirectory(back: bool) returns (r: Outcome)
      requires Ready()
      requires if back then I(MoveBack) in w.log else I(Move) in w.log && I(Abort) !in w.log
      modifies this
      ensures Kept(r) && w == old(w).(dir := w.dir, dirDurable := w.dirDurable)
      ensures r == Ok ==> w.dir == w.dirDurable == (if back then OldName else NewName)
      ensures Sure(r)
    {
      ExecutedFacts(N(), w.log);
      var f := NextFault();
      if f != Fine { return Broken(f); }
      w := w.(dir := if back then OldName else NewName);
      assert w.log[..w.durable] == w.log;
      f := NextFault();
      if f != Fine { return Broken(f); }
      r := SyncRoot();
    }

    // ---------- pointer effects ----------

    /** `syncPointerBindings`: repeat the barrier for an effect found already visible. */
    method SyncPointer(i: nat) returns (r: Outcome)
      requires Ready() && i < N()
      modifies this
      ensures Kept(r) && OnlyPointer(i) && w.ptr == old(w).ptr
      ensures r == Ok ==> w.ptrDurable[i] == w.ptr[i]
      ensures Sure(r)
    {
      var f := NextFault();
      if f != Fine { return Broken(f); }
      PointerStep(N(), w, i, w.ptr[i], w.ptr[i]);
      assert w.ptr == w.ptr[i := w.ptr[i]];
      w := w.(ptrDurable := w.ptrDurable[i := w.ptr[i]]);
      r := Ok;
    }

    /** `renamePointerObject` and the exclusive link of publication: one visible change of pointer `i`,
        then the directory barriers. */
    method ChangePointer(i: nat, p: PointerDisk) returns (r: Outcome)
      requires Ready() && i < N() && PointerAllowed(w.log, i, p)
      requires !Staged(w.log, i) ==> (w.ptrDurable[i].staging ==> p.staging)
      modifies this
      ensures Kept(r) && OnlyPointer(i) && (w.ptr[i] == p || w.ptr == old(w).ptr)
      ensures r == Ok ==> w.ptr[i] == w.ptrDurable[i] == p
      ensures Sure(r)
      ensures [Fine, Die] <= old(faults) ==> r == Interrupted && w == old(w).(ptr := old(w).ptr[i := p])
    {
      var stable := VerifyStable();
      if !stable { return Failed; }
      PointerStep(N(), w, i, p, w.ptrDurable[i]);
      assert w.ptrDurable == w.ptrDurable[i := w.ptrDurable[i]];
      w := w.(ptr := w.ptr[i := p]);
      var f := NextFault();
      if f != Fine { return Broken(f); }
      r := SyncPointer(i);
    }

    method PreservePointer(i: nat) returns (r: Outcome)
      requires Ready() && I(Preserve(i)) in w.log && ActionPre(N(), w.log, Preserve(i))
      modifies this
      ensures Kept(r) && OnlyPointer(i)
      ensures r == Ok ==> w.ptr[i] == w.ptrDurable[i] && StateOf(w.ptr[i]) != Original
      ensures Sure(r)
    {
      ExecutedFacts(N(), w.log);
      assert PointerAllowed(w.log, i, w.ptr[i]);
      var p := w.ptr[i];
      if StateOf(p) != Original {
        r := SyncPointer(i);
        return;
      }
      var f := NextFault();
      if f != Fine || D(Preserve(i)) in w.log { return if f == Fine then Failed else Broken(f); }
      r := ChangePointer(i, p.(live := None, original := Named(Pre)));
    }

    method PublishPointer(i: nat) returns (r: Outcome)
      requires Ready() && I(Publish(i)) in w.log && ActionPre(N(), w.log, Publish(i))
      modifies this
      ensures Kept(r) && OnlyPointer(i)
      ensures r == Ok ==> w.ptr[i] == w.ptrDurable[i] && StateOf(w.ptr[i]) == Published
      ensures Sure(r)
    {
      ExecutedFacts(N(), w.log);
      assert PointerAllowed(w.log, i, w.ptr[i]);
      var p := w.ptr[i];
      if StateOf(p) == Published {
        r := SyncPointer(i);
        return;
      }
      var f := NextFault();
      if f != Fine || StateOf(p) != Preserved || D(Publish(i)) in w.log {
        return if f == Fine then Failed else Broken(f);
      }
      r := ChangePointer(i, p.(live := Some(Post)));
    }

    method UnpublishPointer(i: nat) returns (r: Outcome)
      requires Ready() && I(Unpublish(i)) in w.log && ActionPre(N(), w.log, Unpublish(i))
      modifies this
      ensures Kept(r) && OnlyPointer(i)
      ensures r == Ok ==> w.ptr[i] == w.ptrDurable[i] && StateOf(w.ptr[i]) != Published
      ensures Sure(r)
    {
      ExecutedFacts(N(), w.log);
      assert PointerAllowed(w.log, i, w.ptr[i]);
      var p := w.ptr[i];
      if StateOf(p) != Published {
        r := SyncPointer(i);
        return;
      }
      r := ChangePointer(i, p.(live := None, published := Named(Post)));
    }

    method RestorePointer(i: nat) returns (r: Outcome)
      requires Ready() && I(Restore(i)) in w.log && ActionPre(N(), w.log, Restore(i))
      modifies this
      ensures Kept(r) && OnlyPointer(i)
      ensures r == Ok ==> w.ptr[i] == w.ptrDurable[i] && StateOf(w.ptr[i]) == Original
      ensures Sure(r)
    {
      ExecutedFacts(N(), w.log);
      assert PointerAllowed(w.log, i, w.ptr[i]);
      var p := w.ptr[i];
      if StateOf(p) == Original {
        r := SyncPointer(i);
        return;
      }
      var f := NextFault();
      if f != Fine || StateOf(p) != Preserved { return if f == Fine then Failed else Broken(f); }
      r := ChangePointer(i, p.(live := Some(Pre), original := Gone));
    }

    // ---------- staging ----------

    /** `preparePointer`: an existing staging directory without its `done` record is never adopted. */
    method PreparePointer(i: nat) returns (r: Outcome)
      requires Ready() && i < N()
      requires I(Abort) !in w.log && !Terminal(w.log)
      requires !Staged(w.log, i) ==> I(Move) !in w.log && StagedTo(w.log, i)
      modifies this
      ensures Kept(r)
      ensures forall x :: x in w.log ==> x in old(w).log || x.effect == Stage(i)
      ensures r == Ok ==> Staged(w.log, i) && (Staged(old(w).log, i) || !old(w).ptr[i].staging)
      ensures forall j: nat | j < N() && j != i :: w.ptr[j] == old(w).ptr[j]
      ensures Staged(old(w).log, i) || !old(w).ptr[i].staging ==> Sure(r)
    {
      if Staged(w.log, i) {
        r := SyncPointer(i);
        return;
      }
      ExecutedFacts(N(), w.log);
      if i > 0 { assert D(Stage(i - 1)) in w.log; }
      r := IntendStaging(i);
      if r != Ok { return; }
      r := CreateStaging(i);
    }

    method IntendStaging(i: nat) returns (r: Outcome)
      requires Ready() && Allowed(N(), w.log, Stage(i))
      modifies this
      ensures Kept(r) && w == old(w).(log := w.log, durable := w.durable, torn := w.torn)
      ensures forall x :: x in w.log ==> x in old(w).log || x == I(Stage(i))
      ensures r == Ok ==> I(Stage(i)) in w.log && Allowed(N(), w.log, Stage(i))
      ensures Sure(r)
      ensures [Fine, Fail] <= old(faults) && I(Stage(i)) !in old(w).log ==> w == old(w).(torn := true)
      ensures [Fine, Fine, Fine] <= old(faults) && I(Stage(i)) !in old(w).log ==>
                r == Ok && faults == old(faults)[3..] && w.log == old(w).log + [I(Stage(i))]
    {
      IntentFits(N(), w, Stage(i));
      IntentValid(N(), w.log, Stage(i));
      r := Record(I(Stage(i)));
    }

    method CreateStaging(i: nat) returns (r: Outcome)
      requires Ready() && i < N() && !Staged(w.log, i)
      requires Allowed(N(), w.log, Stage(i)) && I(Stage(i)) in w.log
      modifies this
      ensures Kept(r)
      ensures forall x :: x in w.log ==> x in old(w).log || x.effect == Stage(i)
      ensures r == Ok ==> Staged(w.log, i) && !old(w).ptr[i].staging
      ensures forall j: nat | j < N() && j != i :: w.ptr[j] == old(w).ptr[j]
      ensures !old(w).ptr[i].staging ==> Sure(r)
      ensures [Fine, Fine, Die] <= old(faults) && !old(w).ptr[i].staging ==>
                w == old(w).(ptr := old(w).ptr[i := old(w).ptr[i].(staging := true)])
    {
      var stable := VerifyStable();
      if !stable { return Failed; }
      assert PointerAllowed(w.log, i, w.ptr[i]) && PointerAllowed(w.log, i, w.ptrDurable[i]);
      assert PointerAllowed(w.log, i, w.ptr[i].(staging := true));
      hide Inv, Allowed, PointerAllowed;
      if w.ptr[i].staging { return Failed; }
      r := ChangePointer(i, w.ptr[i].(staging := true));
      if r != Ok { return; }
      r := FinishStaging(i);
    }

    method FinishStaging(i: nat) returns (r: Outcome)
      requires Ready() && i < N() && !Staged(w.log, i) && w.ptr[i].staging
      requires w.ptr[i] == w.ptrDurable[i] && Allowed(N(), w.log, Stage(i)) && I(Stage(i)) in w.log
      modifies this
      ensures Kept(r)
      ensures forall x :: x in w.log ==> x in old(w).log || x.effect == Stage(i)
      ensures r == Ok ==> Staged(w.log, i)
      ensures forall j: nat | j < N() && j != i :: w.ptr[j] == old(w).ptr[j]
      ensures Sure(r)
    {
      r := WriteNext(i);
      if r != Ok { return; }
      ExecutedFacts(N(), w.log);
      assert I(Preserve(i)) !in w.log && I(Unpublish(i)) !in w.log && I(Cleanup(i)) !in w.log;
      var l := w.log + [D(Stage(i))];
      assert forall x :: x in l <==> x in w.log || x == D(Stage(i));
      assert PointerAllowed(w.log, i, w.ptr[i]);
      ViewAfterPointerEvent(N(), w, D(Stage(i)), i);
      r := Record(D(Stage(i)));
    }

    /** The staged postimage is written exclusively; a death may leave it torn. */
    method WriteNext(i: nat) returns (r: Outcome)
      requires Ready() && i < N() && !Staged(w.log, i) && w.ptr[i].staging
      requires w.ptr[i] == w.ptrDurable[i]
      modifies this
      ensures Kept(r) && OnlyPointer(i) && w.ptr[i].staging
      ensures r == Ok ==> w.ptr[i] == w.ptrDurable[i] && w.ptr[i].next == Named(Post)
      ensures Sure(r)
    {
      assert PointerAllowed(w.log, i, w.ptr[i]);
      var f := NextFault();
      if f == DieTorn {
        PointerStep(N(), w, i, w.ptr[i].(next := Named(Torn)), w.ptrDurable[i]);
        assert w.ptrDurable == w.ptrDurable[i := w.ptrDurable[i]];
        w := w.(ptr := w.ptr[i := w.ptr[i].(next := Named(Torn))]);
      }
      if f != Fine { return Broken(f); }
      r := ChangePointer(i, w.ptr[i].(next := Named(Post)));
    }

    // ---------- cleanup of one staging directory ----------

    /** Capture one file of a staging directory under its private name, then remove it; both steps synchronised. */
    method CleanupCell(i: nat, cell: CellName) returns (r: Outcome)
      requires Ready() && i < N() && I(Cleanup(i)) in w.log && w.ptr[i].staging
      modifies this
      ensures Kept(r) && OnlyPointer(i)
      ensures r == Ok ==> w.ptr[i] == WithCell(old(w).ptr[i], cell, Gone)
      ensures r == Ok ==> w.ptr[i] == w.ptrDurable[i]
      ensures Sure(r)
    {
      match CellOf(w.ptr[i], cell) {
        case Gone => r := SyncPointer(i);
        case Named(image) =>
          r := SetCell(i, cell, Captured(image));
          if r != Ok { return; }
          r := SetCell(i, cell, Gone);
        case Captured(_) => r := SetCell(i, cell, Gone);
      }
    }

    /** One rename or removal inside a staging directory being cleaned up. */
    method SetCell(i: nat, cell: CellName, v: Cell) returns (r: Outcome)
      requires Ready() && i < N() && I(Cleanup(i)) in w.log && w.ptr[i].staging
      requires v == Gone || (CellOf(w.ptr[i], cell).Named? && v == Captured(CellOf(w.ptr[i], cell).image))
      modifies this
      ensures Kept(r) && OnlyPointer(i)
      ensures r == Ok ==> w.ptr[i] == WithCell(old(w).ptr[i], cell, v)
      ensures r == Ok ==> w.ptr[i] == w.ptrDurable[i]
      ensures Sure(r)
    {
      ExecutedFacts(N(), w.log);
      assert PointerAllowed(w.log, i, w.ptr[i]);
      var f := NextFault();
      if f != Fine { return Broken(f); }
      r := ChangePointer(i, WithCell(w.ptr[i], cell, v));
    }

    method EmptyStaging(i: nat) returns (r: Outcome)
      requires Ready() && i < N() && I(Cleanup(i)) in w.log && w.ptr[i].staging
      modifies this
      ensures Kept(r) && OnlyPointer(i)
      ensures r == Ok ==> w.ptr[i] == w.ptrDurable[i]
      ensures r == Ok ==> w.ptr[i] == old(w).ptr[i].(original := Gone, published := Gone, next := Gone)
      ensures Sure(r)
    {
      hide Inv;
      r := CleanupCell(i, OriginalCell);
      if r != Ok { return; }
      r := CleanupCell(i, PublishedCell);
      if r != Ok { return; }
      r := CleanupCell(i, NextCell);
    }

    /** Residue that cleanup refuses to touch. */
    predicate UnknownResidue(i: nat, aborted: bool)
      reads this
      requires i < |w.ptr|
    {
      var p := w.ptr[i];
      || (p.next != Gone && p.next.image != Post)
      || (p.original != Gone && (aborted || p.original.image != Pre))
      || (p.published != Gone && (p.published.image != Post || I(Unpublish(i)) !in w.log))
    }

    lemma NoUnknownResidue(i: nat)
      requires Ready() && i < N() && I(Cleanup(i)) in w.log
      ensures !UnknownResidue(i, D(Complete) !in w.log) && Staged(w.log, i)
    {
      ExecutedFacts(N(), w.log);
      assert PointerAllowed(w.log, i, w.ptr[i]);
    }

    method CleanupPointer(i: nat, aborted: bool) returns (r: Outcome)
      requires Ready() && i < N() && I(Cleanup(i)) in w.log && aborted == (D(Complete) !in w.log)
      modifies this
      ensures Kept(r) && OnlyPointer(i)
      ensures r == Ok ==> w.ptr[i] == w.ptrDurable[i] && !w.ptr[i].staging
      ensures Sure(r)
    {
      if !w.ptr[i].staging {
        r := SyncPointer(i);
        return;
      }
      NoUnknownResidue(i);
      hide Inv, UnknownResidue;
      var f := NextFault();
      if f != Fine || UnknownResidue(i, aborted) { return if f == Fine then Failed else Broken(f); }
      r := EmptyStaging(i);
      if r != Ok { return; }
      r := RemoveStaging(i);
    }

    /** Removes a staging directory that was emptied. */
    method RemoveStaging(i: nat) returns (r: Outcome)
      requires Ready() && i < N() && I(Cleanup(i)) in w.log && Staged(w.log, i)
      requires w.ptr[i].original == w.ptr[i].published == w.ptr[i].next == Gone
      modifies this
      ensures Kept(r) && OnlyPointer(i)
      ensures r == Ok ==> w.ptr[i] == w.ptrDurable[i] && !w.ptr[i].staging
      ensures Sure(r)
    {
      assert PointerAllowed(w.log, i, w.ptr[i]);
      r := ChangePointer(i, w.ptr[i].(staging := false));
    }

    // ---------- effects ----------

    /** The action of an effect.  When it succeeds, the disk is settled for its acknowledgement. */
    method Action(e: Effect) returns (r: Outcome)
      requires Ready() && I(e) in w.log && ActionPre(N(), w.log, e)
      modifies this
      ensures Kept(r) && w.log == old(w).log
      ensures r == Ok ==> D(e) in w.log || View(N(), w.log + [D(e)], w)
      ensures Sure(r)
    {
      ExecutedFacts(N(), w.log);
      FinalHolds(N(), w);
      match e {
        case Move => r := MoveFeature(false);
        case MoveBack => r := MoveFeature(true);
        case Preserve(i) => r := PreservePointer(i);
        case Publish(i) => r := PublishPointer(i);
        case Unpublish(i) => r := UnpublishPointer(i);
        case Restore(i) => r := RestorePointer(i);
        case Cleanup(i) => r := CleanupPointer(i, D(Complete) !in w.log);
        case Complete =>
          var final := VerifyFinal(true);
          r := if final then Ok else Failed;
        case Aborted =>
          var final := VerifyFinal(false);
          r := if final then Ok else Failed;
        case Cleaned =>
          var final := VerifyFinal(D(Complete) in w.log);
          r := if final then Ok else Failed;
      }
      if r == Ok && D(e) !in w.log { DoneFits(e); }
    }

    /** When the disk shows an effect, both copies of it, its acknowledgement fits. */
    lemma DoneFits(e: Effect)
      requires Ready() && I(e) in w.log && ActionPre(N(), w.log, e) && D(e) !in w.log
      requires e.Move? ==> w.dir == w.dirDurable == NewName
      requires e.MoveBack? ==> w.dir == w.dirDurable == OldName
      requires e.Preserve? || e.Publish? || e.Unpublish? || e.Restore? || e.Cleanup? ==> w.ptr[e.i] == w.ptrDurable[e.i]
      requires e.Preserve? ==> StateOf(w.ptr[e.i]) != Original
      requires e.Publish? ==> StateOf(w.ptr[e.i]) == Published
      requires e.Unpublish? ==> StateOf(w.ptr[e.i]) != Published
      requires e.Restore? ==> StateOf(w.ptr[e.i]) == Original
      requires e.Cleanup? ==> !w.ptr[e.i].staging
      ensures View(N(), w.log + [D(e)], w)
    {
      ExecutedFacts(N(), w.log);
      var l := w.log + [D(e)];
      assert forall x :: x in l <==> x in w.log || x == D(e);
      if e.Move? || e.MoveBack? {
        forall i | 0 <= i < N() ensures PointerAllowed(l, i, w.ptr[i]) { PointerUndisturbed(w.log, D(e), i, w.ptr[i]); }
        forall i | 0 <= i < N() ensures PointerAllowed(l, i, w.ptrDurable[i]) {
          PointerUndisturbed(w.log, D(e), i, w.ptrDurable[i]);
        }
      } else if e.Complete? {
        forall i | 0 <= i < N() ensures PointerAllowed(l, i, w.ptr[i]) && PointerAllowed(l, i, w.ptrDurable[i]) {
          assert PointerAllowed(w.log, i, w.ptr[i]) && PointerAllowed(w.log, i, w.ptrDurable[i]);
          assert I(Cleanup(i)) !in w.log;
        }
      } else if e.Aborted? || e.Cleaned? {
        ViewUndisturbed(N(), w, D(e));
      } else {
        assert PointerAllowed(w.log, e.i, w.ptr[e.i]);
        ViewAfterPointerEvent(N(), w, D(e), e.i);
      }
    }

    /** `effect`: intent, stability, action, acknowledgement; for a completed effect only the action's barrier. */
    method Effect(e: Effect) returns (r: Outcome)
      requires Ready() && !e.Stage? && !e.Abort?
      requires D(e) in w.log ==> ActionPre(N(), w.log, e)
      requires D(e) !in w.log ==> Allowed(N(), w.log, e)
      modifies this
      ensures Kept(r)
      ensures forall x :: x in w.log ==> x in old(w).log || x.effect == e
      ensures r == Ok ==> D(e) in w.log
      ensures Sure(r)
    {
      if D(e) in w.log {
        DoneIntended(N(), w.log, e);
        r := Action(e);
        return;
      }
      r := Intend(e);
      if r != Ok { return; }
      r := Perform(e);
    }

    method Intend(e: Effect) returns (r: Outcome)
      requires Ready() && !e.Stage? && !e.Abort? && D(e) !in w.log && Allowed(N(), w.log, e)
      modifies this
      ensures Kept(r)
      ensures forall x :: x in w.log ==> x in old(w).log || x == I(e)
      ensures r == Ok ==> I(e) in w.log && D(e) !in w.log && ActionPre(N(), w.log, e)
      ensures r == Ok ==> ValidEvent(N(), w.log, D(e)) && ExecutorOrder(N(), w.log, e)
      ensures Sure(r)
    {
      assert Inv(N(), w);
      IntentFits(N(), w, e);
      IntentValid(N(), w.log, e);
      hide Inv, Allowed, ActionPre, ValidEvent, ExecutorOrder, View;
      r := Record(I(e));
      if r == Ok { IntendedGivesPre(N(), old(w), w.log, e); }
    }

    /** Everything of `effect` after its intent. */
    method Perform(e: Effect) returns (r: Outcome)
      requires Ready() && I(e) in w.log && D(e) !in w.log && ActionPre(N(), w.log, e)
      requires ValidEvent(N(), w.log, D(e)) && ExecutorOrder(N(), w.log, e)
      modifies this
      ensures Kept(r)
      ensures forall x :: x in w.log ==> x in old(w).log || x.effect == e
      ensures r == Ok ==> D(e) in w.log
      ensures Sure(r)
    {
      hide Inv, ActionPre, ValidEvent, ExecutorOrder, View, Stable;
      var stable := VerifyStable();
      if !stable { return Failed; }
      r := Action(e);
      if r != Ok { return; }
      var isCommit := e.Complete? || e.Aborted?;
      if !isCommit {
        var f := NextFault();
        if f != Fine { return Broken(f); }
      }
      r := Record(D(e));
      if r != Ok { return; }
      if isCommit {
        var f := NextFault();
        if f != Fine { return Broken(f); }
      }
    }

    // ---------- the three protocols ----------

    /** `cleanup`: verify the outcome, repeat every barrier, then empty the staging directories. */
    method CleanUp(aborted: bool) returns (r: Outcome)
      requires Ready() && Terminal(w.log) && aborted == (D(Complete) !in w.log)
      modifies this
      ensures Kept(r)
      ensures forall x :: x in w.log ==> x in old(w).log || x.effect.Cleanup? || x.effect.Cleaned?
      ensures r == Ok ==> D(Cleaned) in w.log && (D(Complete) in w.log <==> !aborted)
      ensures Sure(r)
    {
      FinalHolds(N(), w);
      var final := VerifyFinal(!aborted);
      if !final { return Failed; }
      r := SyncFinalDirectories();
      if r != Ok { return; }
      FinalHolds(N(), w);
      final := VerifyFinal(!aborted);
      if !final { return Failed; }
      r := CleanPointers();
      if r != Ok { return; }
      r := Effect(Cleaned);
    }

    method CleanPointers() returns (r: Outcome)
      requires Ready() && Terminal(w.log)
      modifies this
      ensures Kept(r)
      ensures forall x :: x in w.log ==> x in old(w).log || x.effect.Cleanup?
      ensures r == Ok ==> Terminal(w.log) && CleanedTo(w.log, N())
      ensures Sure(r)
    {
      r := Ok;
      for i := 0 to N()
        invariant r == Ok && Kept(r) && Terminal(w.log)
        invariant forall x :: x in w.log ==> x in old(w).log || x.effect.Cleanup?
        invariant CleanedTo(w.log, i)
      {
        r := CleanAt(i);
        if r != Ok { return; }
      }
    }

    method CleanAt(i: nat) returns (r: Outcome)
      requires Ready() && Terminal(w.log) && i < N() && CleanedTo(w.log, i)
      modifies this
      ensures Kept(r)
      ensures forall x :: x in w.log ==> x in old(w).log || x.effect.Cleanup?
      ensures r == Ok ==> Terminal(w.log) && CleanedTo(w.log, i + 1)
      ensures Sure(r)
    {
      r := Ok;
      if Staged(w.log, i) {
        CleanupEnabled(i);
        hide Inv, Allowed, ActionPre, CleanedTo, Terminal, Staged;
        r := Effect(Cleanup(i));
        if r == Ok { CleanedToKept(old(w).log, w.log, i); }
      }
    }

    lemma CleanupEnabled(i: nat)
      requires Ready() && Terminal(w.log) && i < N() && Staged(w.log, i)
      ensures ActionPre(N(), w.log, Cleanup(i))
      ensures D(Cleanup(i)) !in w.log ==> Allowed(N(), w.log, Cleanup(i))
    {
      ExecutedFacts(N(), w.log);
    }

    /** `syncFinalDirectories`: the workspace root and the parent of every live pointer. */
    method SyncFinalDirectories() returns (r: Outcome)
      requires Ready() && Terminal(w.log)
      modifies this
      ensures Kept(r) && w == old(w).(dirDurable := w.dirDurable, ptrDurable := w.ptrDurable)
      ensures r == Ok ==> w.dirDurable == w.dir && forall i :: 0 <= i < N() ==> w.ptrDurable[i].live == w.ptr[i].live
      ensures Sure(r)
    {
      r := SyncRoot();
      if r != Ok { return; }
      for i := 0 to N()
        invariant r == Ok && Ready() && (old(Quiet()) ==> Quiet()) && (old(Single()) ==> Single())
        invariant w == old(w).(dirDurable := w.dir, ptrDurable := w.ptrDurable)
        invariant forall k :: 0 <= k < i ==> w.ptrDurable[k].live == w.ptr[k].live
      {
        r := SyncParent(i);
        if r != Ok { return; }
      }
    }

    method SyncParent(i: nat) returns (r: Outcome)
      requires Ready() && Terminal(w.log) && i < N()
      modifies this
      ensures Kept(r) && OnlyPointer(i) && w.ptr == old(w).ptr
      ensures r == Ok ==> w.ptrDurable[i].live == w.ptr[i].live
      ensures Sure(r)
    {
      var f := NextFault();
      if f != Fine { return Broken(f); }
      ExecutedFacts(N(), w.log);
      assert PointerAllowed(w.log, i, w.ptr[i]) && PointerAllowed(w.log, i, w.ptrDurable[i]);
      var q := w.ptrDurable[i].(live := w.ptr[i].live);
      PointerStep(N(), w, i, w.ptr[i], q);
      assert w.ptr == w.ptr[i := w.ptr[i]];
      w := w.(ptrDurable := w.ptrDurable[i := q]);
      r := Ok;
    }

    /** `forward`: stage every pointer, move, then preserve and publish pointer by pointer, then commit. */
    method Forward() returns (r: Outcome)
      requires Ready() && Forwarding(w.log)
      modifies this
      ensures Kept(r) && I(Abort) !in w.log
      ensures r == Ok ==> D(Cleaned) in w.log && D(Complete) in w.log
      ensures old(Quiet()) ==> (r == Ok <==> !Residue(N(), old(w)))
      ensures !Residue(N(), old(w)) ==> Sure(r)
    {
      hide Inv, Forwarding, StagedTo, PublishedTo, Residue;
      r := StageAll();
      if r != Ok { return; }
      r := MoveOver();
      if r != Ok { return; }
      r := PublishAll();
      if r != Ok { return; }
      r := Commit();
    }

    method StageAll() returns (r: Outcome)
      requires Ready() && Forwarding(w.log)
      modifies this
      ensures Kept(r) && I(Abort) !in w.log
      ensures r == Ok ==> Forwarding(w.log) && StagedTo(w.log, N())
      ensures old(Quiet()) ==> (r == Ok <==> !Residue(N(), old(w)))
      ensures !Residue(N(), old(w)) ==> Sure(r)
    {
      r := Ok;
      for i := 0 to N()
        invariant r == Ok && Kept(r) && Forwarding(w.log) && StagedTo(w.log, i)
        invariant UntouchedFrom(N(), old(w), w, i)
        invariant ResidueFrom(N(), old(w), 0) == ResidueFrom(N(), old(w), i)
      {
        r := StageAt(i);
        ResidueStep(N(), old(w), i);
        if r != Ok { return; }
      }
    }

    method StageAt(i: nat) returns (r: Outcome)
      requires Ready() && Forwarding(w.log) && i < N() && StagedTo(w.log, i)
      modifies this
      ensures Kept(r) && I(Abort) !in w.log
      ensures r == Ok ==> Forwarding(w.log) && StagedTo(w.log, i + 1) && UntouchedFrom(N(), old(w), w, i + 1)
      ensures r == Ok ==> !ResidueAt(old(w), i)
      ensures !ResidueAt(old(w), i) ==> Sure(r)
    {
      if !Staged(w.log, i) { UnstagedMeansUnmoved(i); }
      r := PreparePointer(i);
      StagedToKept(old(w).log, w.log, i);
      UntouchedBeyond(N(), old(w), w, i);
    }

    lemma UnstagedMeansUnmoved(i: nat)
      requires Ready() && i < N() && !Staged(w.log, i)
      ensures I(Move) !in w.log
    {
      ExecutedFacts(N(), w.log);
    }

    /** The directory move of `forward`. */
    method MoveOver() returns (r: Outcome)
      requires Ready() && Forwarding(w.log) && StagedTo(w.log, N())
      modifies this
      ensures Kept(r) && I(Abort) !in w.log
      ensures r == Ok ==> Forwarding(w.log) && StagedTo(w.log, N()) && D(Move) in w.log
      ensures Sure(r)
    {
      ExecutedFacts(N(), w.log);
      r := Effect(Move);
      StagedToKept(old(w).log, w.log, N());
    }

    method PublishAll() returns (r: Outcome)
      requires Ready() && Forwarding(w.log) && StagedTo(w.log, N()) && D(Move) in w.log
      modifies this
      ensures Kept(r) && I(Abort) !in w.log
      ensures r == Ok ==> Forwarding(w.log) && D(Move) in w.log && PublishedTo(w.log, N())
      ensures Sure(r)
    {
      r := Ok;
      for i := 0 to N()
        invariant r == Ok && Kept(r) && Forwarding(w.log)
        invariant StagedTo(w.log, N()) && D(Move) in w.log && PublishedTo(w.log, i)
      {
        r := SwapPointer(i);
        if r != Ok { return; }
      }
    }

    method SwapPointer(i: nat) returns (r: Outcome)
      requires Ready() && Forwarding(w.log) && i < N()
      requires StagedTo(w.log, N()) && D(Move) in w.log && PublishedTo(w.log, i)
      modifies this
      ensures Kept(r) && I(Abort) !in w.log
      ensures r == Ok ==> Forwarding(w.log) && StagedTo(w.log, N()) && D(Move) in w.log && PublishedTo(w.log, i + 1)
      ensures Sure(r)
    {
      if plan.pointers[i].kind == Registry {
        var stable := VerifyStable();
        if !stable { return Failed; }
      }
      r := PreserveAt(i);
      if r != Ok { return; }
      r := PublishAt(i);
    }

    method PreserveAt(i: nat) returns (r: Outcome)
      requires Ready() && Forwarding(w.log) && i < N()
      requires StagedTo(w.log, N()) && D(Move) in w.log && PublishedTo(w.log, i)
      modifies this
      ensures Kept(r) && I(Abort) !in w.log
      ensures r == Ok ==> Forwarding(w.log) && StagedTo(w.log, N()) && D(Move) in w.log && PublishedTo(w.log, i)
      ensures r == Ok ==> D(Preserve(i)) in w.log
      ensures Sure(r)
    {
      PreserveEnabled(i);
      r := Effect(Preserve(i));
      StagedToKept(old(w).log, w.log, N());
    }

    lemma PreserveEnabled(i: nat)
      requires Ready() && Forwarding(w.log) && i < N()
      requires StagedTo(w.log, N()) && D(Move) in w.log && PublishedTo(w.log, i)
      ensures ActionPre(N(), w.log, Preserve(i)) && Allowed(N(), w.log, Preserve(i))
    {
      ExecutedFacts(N(), w.log);
    }

    method PublishAt(i: nat) returns (r: Outcome)
      requires Ready() && Forwarding(w.log) && i < N()
      requires StagedTo(w.log, N()) && D(Move) in w.log && PublishedTo(w.log, i) && D(Preserve(i)) in w.log
      modifies this
      ensures Kept(r) && I(Abort) !in w.log
      ensures r == Ok ==> Forwarding(w.log) && StagedTo(w.log, N()) && D(Move) in w.log && PublishedTo(w.log, i + 1)
      ensures Sure(r)
    {
      PublishEnabled(i);
      r := Effect(Publish(i));
      StagedToKept(old(w).log, w.log, N());
      PublishedToKept(old(w).log, w.log, i);
    }

    lemma PublishEnabled(i: nat)
      requires Ready() && Forwarding(w.log) && i < N()
      requires StagedTo(w.log, N()) && D(Move) in w.log && PublishedTo(w.log, i) && D(Preserve(i)) in w.log
      ensures ActionPre(N(), w.log, Publish(i)) && Allowed(N(), w.log, Publish(i))
    {
      ExecutedFacts(N(), w.log);
    }

    /** The commit point of `forward`: the durable `complete` record. */
    method Commit() returns (r: Outcome)
      requires Ready() && Forwarding(w.log) && D(Move) in w.log && PublishedTo(w.log, N())
      modifies this
      ensures Kept(r) && I(Abort) !in w.log
      ensures r == Ok ==> D(Cleaned) in w.log && D(Complete) in w.log
      ensures Sure(r)
    {
      FinalHolds(N(), w);
      var final := VerifyFinal(true);
      if !final { return Failed; }
      ExecutedFacts(N(), w.log);
      r := Effect(Complete);
      if r != Ok { return; }
      r := CleanUp(false);
    }

    /** `rollback`: judge the whole inverse first, then undo pointers from last to first, then the move. */
    method Rollback() returns (r: Outcome)
      requires Ready()
      modifies this
      ensures Kept(r)
      ensures r == Ok ==> D(Cleaned) in w.log && D(Aborted) in w.log && D(Complete) !in w.log
      ensures old(Quiet()) ==> (r == Ok <==> D(Complete) !in old(w).log && !Residue(N(), old(w)))
      ensures Residue(N(), old(w)) ==> w == old(w)
    {
      ExecutedFacts(N(), w.log);
      if D(Complete) in w.log { return Failed; }
      if D(Aborted) in w.log {
        NoResidueOnceAborting();
        r := CleanUp(true);
        return;
      }
      hide Inv, Residue, RestoredFrom, Stable;
      var stable := VerifyStable();
      if !stable || Residue(N(), w) { return Failed; }
      r := TurnBack();
    }

    /** `rollback` once it was judged. */
    method TurnBack() returns (r: Outcome)
      requires Ready() && !Terminal(w.log) && !Residue(N(), w)
      modifies this
      ensures Kept(r)
      ensures r == Ok ==> D(Cleaned) in w.log && D(Aborted) in w.log && D(Complete) !in w.log
      ensures Sure(r)
    {
      hide Inv, Residue, RestoredFrom, Stable, FailsOnce, AllFine;
      r := IntendAbort();
      if r != Ok { return; }
      r := UndoAll();
      if r != Ok { return; }
      r := MoveBackAndAbort();
    }

    lemma NoResidueOnceAborting()
      requires Ready() && I(Abort) in w.log
      ensures !Residue(N(), w)
    {
      forall i: nat | i < N() ensures !ResidueAt(w, i) { assert PointerAllowed(w.log, i, w.ptr[i]); }
    }

    lemma AbortMay()
      requires Ready() && !Residue(N(), w) && !Terminal(w.log) && I(Abort) !in w.log
      ensures View(N(), w.log + [I(Abort)], w)
      ensures ValidEvent(N(), w.log, I(Abort)) && ExecutorOrder(N(), w.log, Abort)
    {
      AbortFits();
      ExecutedFacts(N(), w.log);
    }

    lemma AbortFits()
      requires Ready() && !Residue(N(), w) && !Terminal(w.log) && I(Abort) !in w.log
      ensures View(N(), w.log + [I(Abort)], w)
    {
      ExecutedFacts(N(), w.log);
      var l := w.log + [I(Abort)];
      assert forall x :: x in l <==> x in w.log || x == I(Abort);
      forall i: nat | i < N() ensures PointerAllowed(l, i, w.ptr[i]) && PointerAllowed(l, i, w.ptrDurable[i]) {
        assert PointerAllowed(w.log, i, w.ptr[i]) && PointerAllowed(w.log, i, w.ptrDurable[i]);
        assert !ResidueAt(w, i);
      }
    }

    method IntendAbort() returns (r: Outcome)
      requires Ready() && !Terminal(w.log) && !Residue(N(), w)
      modifies this
      ensures Kept(r)
      ensures r == Ok ==> I(Abort) in w.log && !Terminal(w.log)
      ensures Sure(r)
    {
      hide Inv, View, ValidEvent, ExecutorOrder, Residue, FailsOnce, AllFine;
      if I(Abort) !in w.log { AbortMay(); }
      r := Record(I(Abort));
      if r != Ok { return; }
      assert forall x :: x in w.log ==> x in old(w).log || x == I(Abort);
      r := AcknowledgeAbort();
    }

    method AcknowledgeAbort() returns (r: Outcome)
      requires Ready() && !Terminal(w.log) && I(Abort) in w.log
      modifies this
      ensures Kept(r)
      ensures r == Ok ==> I(Abort) in w.log && !Terminal(w.log)
      ensures Sure(r)
    {
      ExecutedFacts(N(), w.log);
      ViewUndisturbed(N(), w, D(Abort));
      r := Record(D(Abort));
    }

    /** The reverse-order loop of `rollback`. */
    method UndoAll() returns (r: Outcome)
      requires Ready() && !Terminal(w.log) && I(Abort) in w.log
      modifies this
      ensures Kept(r)
      ensures r == Ok ==> I(Abort) in w.log && !Terminal(w.log) && RestoredFrom(w.log, 0, N())
      ensures Sure(r)
    {
      r := Ok;
      for i := N() downto 0
        invariant r == Ok && Kept(r) && !Terminal(w.log) && I(Abort) in w.log
        invariant RestoredFrom(w.log, i, N())
      {
        r := UndoAt(i);
        if r != Ok { return; }
      }
    }

    method UndoAt(i: nat) returns (r: Outcome)
      requires Ready() && !Terminal(w.log) && I(Abort) in w.log && i < N()
      requires RestoredFrom(w.log, i + 1, N())
      modifies this
      ensures Kept(r)
      ensures r == Ok ==> !Terminal(w.log) && I(Abort) in w.log && RestoredFrom(w.log, i, N())
      ensures Sure(r)
    {
      if !Staged(w.log, i) { return Ok; }
      r := UnpublishAt(i);
      if r != Ok { return; }
      r := RestoreAt(i);
    }

    method UnpublishAt(i: nat) returns (r: Outcome)
      requires Ready() && !Terminal(w.log) && I(Abort) in w.log && i < N()
      requires Staged(w.log, i) && RestoredFrom(w.log, i + 1, N())
      modifies this
      ensures Kept(r)
      ensures r == Ok ==> !Terminal(w.log) && I(Abort) in w.log && RestoredFrom(w.log, i + 1, N())
      ensures r == Ok ==> Staged(w.log, i) && D(Unpublish(i)) in w.log
      ensures Sure(r)
    {
      ExecutedFacts(N(), w.log);
      assert D(Unpublish(i)) in w.log ==> ActionPre(N(), w.log, Unpublish(i));
      assert D(Unpublish(i)) !in w.log ==> Allowed(N(), w.log, Unpublish(i));
      hide Inv, Allowed, ActionPre, RestoredFrom, Terminal, Staged;
      r := Effect(Unpublish(i));
      RestoredKept(old(w).log, w.log, i, N());
    }

    method RestoreAt(i: nat) returns (r: Outcome)
      requires Ready() && !Terminal(w.log) && I(Abort) in w.log && i < N()
      requires Staged(w.log, i) && D(Unpublish(i)) in w.log && RestoredFrom(w.log, i + 1, N())
      modifies this
      ensures Kept(r)
      ensures r == Ok ==> !Terminal(w.log) && I(Abort) in w.log && RestoredFrom(w.log, i, N())
      ensures Sure(r)
    {
      ExecutedFacts(N(), w.log);
      assert D(Restore(i)) in w.log ==> ActionPre(N(), w.log, Restore(i));
      assert D(Restore(i)) !in w.log ==> Allowed(N(), w.log, Restore(i));
      hide Inv, Allowed, ActionPre, RestoredFrom, Terminal, Staged;
      r := Effect(Restore(i));
      RestoredKept(old(w).log, w.log, i, N());
    }

    method MoveBackAndAbort() returns (r: Outcome)
      requires Ready() && !Terminal(w.log) && I(Abort) in w.log && RestoredFrom(w.log, 0, N())
      modifies this
      ensures Kept(r)
      ensures r == Ok ==> D(Cleaned) in w.log && D(Aborted) in w.log && D(Complete) !in w.log
      ensures Sure(r)
    {
      ExecutedFacts(N(), w.log);
      r := Effect(MoveBack);
      if r != Ok { return; }
      r := FinishAbort();
    }

    method FinishAbort() returns (r: Outcome)
      requires Ready() && !Terminal(w.log) && I(Abort) in w.log && D(MoveBack) in w.log
      modifies this
      ensures Kept(r)
      ensures r == Ok ==> D(Cleaned) in w.log && D(Aborted) in w.log && D(Complete) !in w.log
      ensures Sure(r)
    {
      ExecutedFacts(N(), w.log);
      r := Effect(Aborted);
      if r != Ok { return; }
      ExecutedFacts(N(), w.log);
      r := CleanUp(true);
    }

    // ---------- whole invocations ----------

    /** `syncJournalEvidence`: a resumed invocation first makes everything it read durable. */
    method SyncJournal() returns (r: Outcome)
      requires Inv(N(), w) && !w.torn
      modifies this
      ensures Inv(N(), w) && w == old(w).(durable := w.durable) && old(w).durable <= w.durable
      ensures r != Interrupted ==> r == Failed || Ready()
      ensures old(Quiet()) ==> r == Ok && Quiet()
      ensures old(Single()) ==> Single()
    {
      var f := NextFault();
      if f != Fine { return Broken(f); }
      assert w.log[..|w.log|] == w.log;
      w := w.(durable := |w.log|);
      r := Ok;
    }

    /** `verifyStable` and `verifyPhysicalInventory`, before anything is done. */
    method VerifyBefore() returns (ok: bool)
      requires Ready()
      modifies this`faults
      ensures old(Quiet()) ==> ok && Quiet()
      ensures old(Single()) ==> Single() && (ok || Quiet())
    {
      StableHolds(plan, w);
      ok := VerifyStable();
      if ok {
        var f := NextFault();
        ok := f == Fine && Inventory(plan, w);
      }
    }

    /** One command: a fresh rename, `--continue` or `--abort`.  On a fresh failure short of the
        commit point the rename is rolled back automatically. */
    method Run(recovery: Recovery) returns (r: Outcome, rolledBack: bool)
      requires Inv(N(), w)
      requires recovery == Fresh ==> w.log == []
      modifies this
      ensures Inv(N(), w)
      ensures old(w).log <= w.log && old(w).durable <= w.durable
      ensures old(Quiet()) ==> Quiet() && r != Interrupted
      ensures r == Ok ==> Settled(N(), w)
      ensures r == Ok ==> (D(Complete) in w.log <==> recovery != AbortRename && I(Abort) !in old(w).log)
      ensures rolledBack ==> recovery == Fresh && r == Failed && Settled(N(), w) && D(Complete) !in w.log
      ensures old(Quiet()) ==>
                (r == Ok <==> Recoverable(N(), old(w)) && (recovery == AbortRename ==> D(Complete) !in old(w).log))
      ensures old(Single()) && recovery == Fresh && r == Failed ==>
                rolledBack || w.log == [] || D(Complete) in w.log || Residue(N(), w)
    {
      rolledBack := false;
      if w.torn || D(Cleaned) in w.log { return Failed, false; }
      r := SyncJournal();
      if r != Ok { return r, false; }
      ResidueSame(N(), old(w), w);
      var before := VerifyBefore();
      if !before { return Failed, false; }
      r, rolledBack := Conclude(recovery);
    }

    method Conclude(recovery: Recovery) returns (r: Outcome, rolledBack: bool)
      requires Ready() && D(Cleaned) !in w.log
      requires recovery == Fresh ==> w.log == []
      modifies this
      ensures Inv(N(), w) && old(w).log <= w.log && old(w).durable <= w.durable
      ensures old(Quiet()) ==> Quiet() && r != Interrupted
      ensures r == Ok ==> Settled(N(), w)
      ensures r == Ok ==> (D(Complete) in w.log <==> recovery != AbortRename && I(Abort) !in old(w).log)
      ensures rolledBack ==> recovery == Fresh && r == Failed && Settled(N(), w) && D(Complete) !in w.log
      ensures old(Quiet()) ==>
                (r == Ok <==> !Residue(N(), old(w)) && (recovery == AbortRename ==> D(Complete) !in old(w).log))
      ensures old(Single()) && recovery == Fresh && r == Failed ==>
                rolledBack || D(Complete) in w.log || Residue(N(), w)
    {
      rolledBack := false;
      if recovery == Fresh { NoResidueAtFirst(); }
      r := Dispatch(recovery);
      if r == Ok {
        ReceiptIsSettled(N(), w);
      } else if r == Failed && recovery == Fresh && D(Complete) !in w.log && I(Abort) !in w.log {
        var undo := Rollback();
        rolledBack := undo == Ok;
        if rolledBack { ReceiptIsSettled(N(), w); }
      }
    }

    lemma NoResidueAtFirst()
      requires Ready() && w.log == []
      ensures !Residue(N(), w)
    {
      forall i: nat | i < N() ensures !ResidueAt(w, i) { assert PointerAllowed(w.log, i, w.ptr[i]); }
    }

    method Dispatch(recovery: Recovery) returns (r: Outcome)
      requires Ready() && D(Cleaned) !in w.log
      requires recovery == Fresh ==> w.log == []
      modifies this
      ensures Kept(r)
      ensures r == Ok ==> D(Cleaned) in w.log
      ensures r == Ok ==> (D(Complete) in w.log <==> recovery != AbortRename && I(Abort) !in old(w).log)
      ensures old(Quiet()) ==>
                (r == Ok <==> !Residue(N(), old(w)) && (recovery == AbortRename ==> D(Complete) !in old(w).log))
      ensures recovery == Fresh ==> I(Abort) !in w.log && (!Residue(N(), old(w)) ==> Sure(r))
    {
      ExecutedFacts(N(), w.log);
      if D(Complete) in w.log {
        CompletedHasNoResidue();
        if recovery == AbortRename { return Failed; }
        r := CleanUp(false);
      } else if recovery == AbortRename || I(Abort) in w.log || D(Aborted) in w.log {
        r := Rollback();
      } else {
        r := Forward();
      }
    }

    lemma CompletedHasNoResidue()
      requires Ready() && D(Complete) in w.log
      ensures !Residue(N(), w)
    {
      ExecutedFacts(N(), w.log);
    }

    /** The machine loses power: every unsynchronised change is kept or lost as `cut` says. */
    method LosePower(cut: Cut)
      requires Inv(N(), w)
      modifies this
      ensures Inv(N(), w) && PowerCut(old(w), w)
      ensures w == AfterCut(old(w), cut)
      ensures old(w).log[..old(w).durable] <= w.log && old(w).durable <= w.durable
    {
      PowerCutKeepsInv(N(), w, AfterCut(w, cut));
      w := AfterCut(w, cut);
    }

    /** Any history of recovery commands, each with its own failures and deaths, and power cuts. */
    method Live(history: seq<Happening>)
      requires Inv(N(), w)
      modifies this
      ensures Inv(N(), w)
      ensures old(w).log[..old(w).durable] <= w.log
    {
      ghost var evidence := w.log[..w.durable];
      for k := 0 to |history|
        invariant Inv(N(), w) && evidence <= w.log[..w.durable]
      {
        ghost var before := w;
        match history[k] {
          case Command(abort, script) =>
            faults := script;
            var _, _ := Run(if abort then AbortRename else Continue);
          case PowerFails(cut) => LosePower(cut);
        }
        assert before.log[..before.durable] <= w.log[..w.durable];
      }
    }

    /** Convergence: `reached` being whatever any history of crashes, power cuts, resumes and aborts
        left, one undisturbed `--continue`, or `--abort` short of the commit, settles the rename unless a
        torn record or an unadopted staging directory is left.  What was committed, or turned back, before
        stays so. */
    method Converge(history: seq<Happening>, abort: bool) returns (r: Outcome, ghost reached: World)
      requires Inv(N(), w)
      modifies this
      ensures Inv(N(), w) && Inv(N(), reached)
      ensures old(w).log[..old(w).durable] <= reached.log <= w.log
      ensures r == Ok <==> !reached.torn && !Residue(N(), reached) && (abort ==> D(Complete) !in reached.log)
      ensures r == Ok ==> Settled(N(), w)
      ensures r == Ok && D(Complete) in reached.log ==> Final(N(), w, true)
      ensures r == Ok && (abort || I(Abort) in reached.log) ==> Final(N(), w, false)
    {
      Live(history);
      reached := w;
      faults := [];
      if w.torn || Residue(N(), w) { return Failed, reached; }
      r := Ok;
      if D(Cleaned) in w.log {
        ReceiptIsSettled(N(), w);
        if abort && D(Complete) in w.log { r := Failed; }
      } else {
        var rolledBack;
        r, rolledBack := Run(if abort then AbortRename else Continue);
      }
      assert forall x :: x in reached.log ==> x in w.log;
      ExecutedFacts(N(), w.log);
    }
  }

  /** The first window is met by a fresh rename whose first write fails. */
  method ReachTornRecord(plan: Plan) returns (op: Operation)
    requires |plan.pointers| > 0
    ensures op.plan == plan && op.w == TornStart(|plan.pointers|)
  {
    op := new Operation(plan, [Fine, Fail]);
    FirstStageAllowed(|plan.pointers|);
    hide *;
    var _ := op.IntendStaging(0);
  }

  lemma FirstStageAllowed(n: nat)
    requires n > 0
    ensures Initially(n).log == [] && Allowed(n, [], Stage(0)) && I(Stage(0)) !in Initially(n).log
    ensures Initially(n) == TornStart(n).(torn := false) && TornStart(n) == Initially(n).(torn := true)
  {
  }

  /** The second is met by one that dies right after it made its first staging directory. */
  method ReachUnadoptedStaging(plan: Plan) returns (op: Operation)
    requires |plan.pointers| > 0
    ensures op.plan == plan && op.w == ResidueStart(|plan.pointers|)
  {
    var n := |plan.pointers|;
    op := new Operation(plan, [Fine, Fine, Fine, Fine, Fine, Die]);
    FirstStageAllowed(n);
    StagingIntended(n);
    hide *;
    assert [Fine, Fine, Fine] <= op.faults && op.faults[3..] == [Fine, Fine, Die];
    var r := op.IntendStaging(0);
    assert [] + [I(Stage(0))] == [I(Stage(0))];
    r := op.CreateStaging(0);
  }

  lemma StagingIntended(n: nat)
    requires n > 0
    ensures !Staged([I(Stage(0))], 0) && |Initially(n).ptr| == n && !Initially(n).ptr[0].staging
    ensures ResidueStart(n) ==
            Initially(n).(log := [I(Stage(0))], durable := 1,
                          ptr := Initially(n).ptr[0 := Initially(n).ptr[0].(staging := true)])
  {
  }
}
