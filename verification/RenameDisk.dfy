/** What a rename operation has on disk, what of it is durable, and the invariant
    tying both to the journal in every state a crash or a power cut can leave. */
module RenameDisk {
  import opened Options
  import opened RenameJournal

  /** Under which name the feature directory is bound. */
  datatype Place = OldName | NewName

  /** A pointer's preimage, its staged postimage, or a file whose writing was cut short. */
  datatype Image = Pre | Post | Torn

  /** A name inside a staging directory; cleanup first captures a file under a private name. */
  datatype Cell = Gone | Named(image: Image) | Captured(image: Image)

  datatype PointerDisk = PointerDisk(
    live: Option<Image>, staging: bool, next: Cell, original: Cell, published: Cell)

  /** `log` is the visible journal and `log[..durable]` the part that survives a power cut;
      `torn` says that a partly written record follows it.  Likewise for the directory and the pointers. */
  datatype World = World(
    log: Log, durable: nat, torn: bool,
    dir: Place, dirDurable: Place,
    ptr: seq<PointerDisk>, ptrDurable: seq<PointerDisk>)

  datatype PointerState = Original | Preserved | Published | Unknown

  /** `pointerState`: the four-way classification of one staged pointer. */
  function StateOf(p: PointerDisk): PointerState {
    var retiredOk := !p.published.Named? || p.published.image == Post;
    if !p.staging || p.next != Named(Post) then Unknown
    else if p.live == Some(Pre) && !p.original.Named? && retiredOk then Original
    else if p.live == None && p.original == Named(Pre) && retiredOk then Preserved
    else if p.live == Some(Post) && p.original == Named(Pre) && !p.published.Named? then Published
    else Unknown
  }

  /** A pointer is recognised only with nothing but the operation's own files about it: the staged postimage, a retired
      copy that is that postimage, and the preimage in one place, live or saved.  Then what is live tells the state. */
  lemma RecognisedIsOwn(p: PointerDisk)
    ensures StateOf(p) != Unknown <==>
              && p.staging && p.next == Named(Post) && p.live != Some(Torn)
              && (p.published.Named? ==> p.published.image == Post && p.live != Some(Post))
              && if p.live == Some(Pre) then !p.original.Named? else p.original == Named(Pre)
    ensures StateOf(p) != Unknown ==>
              && (StateOf(p) == Original <==> p.live == Some(Pre))
              && (StateOf(p) == Preserved <==> p.live == None)
              && (StateOf(p) == Published <==> p.live == Some(Post))
  {
    match p.live
    case None =>
    case Some(image) => match image { case Pre => case Post => case Torn => }
  }

  // ---------- the order in which the executor speaks ----------

  /** The executor is stricter than the grammar: it rolls back from the last pointer to the first
      and touches staged pointers only. */
  predicate ExecutorOrder(n: nat, log: Log, e: Effect) {
    match e
    case Unpublish(i) =>
      Staged(log, i) && forall k: nat | i < k < n :: Staged(log, k) ==> D(Restore(k)) in log
    case Restore(i) => Staged(log, i)
    case Cleanup(i) => Staged(log, i)
    case _ => true
  }

  ghost predicate Executed(n: nat, log: Log) {
    |log| == 0 ||
    (var init, last := log[..|log| - 1], log[|log| - 1];
     Executed(n, init) && ValidEvent(n, init, last) && ExecutorOrder(n, init, last.effect))
  }

  lemma {:induction false} ExecutedAccepted(n: nat, log: Log)
    requires Executed(n, log)
    ensures Accepted(n, log)
  {
    if |log| > 0 { ExecutedAccepted(n, log[..|log| - 1]); }
  }

  lemma ExecutedExtend(n: nat, log: Log, ev: Event)
    requires Executed(n, log) && ValidEvent(n, log, ev) && ExecutorOrder(n, log, ev.effect)
    ensures Executed(n, log + [ev])
  {
    assert (log + [ev])[..|log|] == log;
  }

  lemma {:induction false} ExecutedPrefix(n: nat, log: Log, k: nat)
    requires Executed(n, log) && k <= |log|
    ensures Executed(n, log[..k])
  {
    if k == |log| {
      assert log[..k] == log;
    } else {
      ExecutedPrefix(n, log[..|log| - 1], k);
      assert log[..|log| - 1][..k] == log[..k];
    }
  }

  /** The consequences of an executed log that the disk invariant leans on. */
  ghost predicate Facts(n: nat, log: Log) {
    && (forall e: Effect {:trigger D(e)} :: D(e) in log ==> I(e) in log)
    && (forall e: Effect {:trigger I(e)} :: I(e) in log ==> InRange(n, e))
    && (I(Move) in log ==> forall i: nat | i < n :: D(Stage(i)) in log)
    && (forall i: nat :: I(Preserve(i)) in log ==> D(Move) in log)
    && (forall i: nat :: I(Publish(i)) in log ==> D(Preserve(i)) in log)
    && (forall i: nat :: I(Unpublish(i)) in log ==> I(Abort) in log && Staged(log, i))
    && (forall i: nat :: I(Restore(i)) in log ==> D(Unpublish(i)) in log)
    && (I(MoveBack) in log ==>
          I(Abort) in log && forall i: nat | i < n :: Staged(log, i) ==> D(Restore(i)) in log)
    && (I(Aborted) in log ==> D(MoveBack) in log)
    && (I(Complete) in log ==> D(Move) in log && forall i: nat | i < n :: D(Publish(i)) in log)
    && !(D(Complete) in log && I(Abort) in log)
    && (forall i: nat :: I(Cleanup(i)) in log ==> Terminal(log) && Staged(log, i))
    && (I(Cleaned) in log ==>
          Terminal(log) && forall i: nat | i < n :: Staged(log, i) ==> D(Cleanup(i)) in log)
  }

  lemma {:induction false} ExecutedTouchesStaged(n: nat, log: Log, ev: Event)
    requires Executed(n, log) && ev in log
    requires ev.effect.Unpublish? || ev.effect.Cleanup?
    ensures Staged(log, ev.effect.i)
  {
    var init, last := log[..|log| - 1], log[|log| - 1];
    assert log == init + [last];
    if ev in init { ExecutedTouchesStaged(n, init, ev); }
  }

  lemma ExplainedIn(n: nat, log: Log, ev: Event)
    requires Executed(n, log) && ev in log
    ensures Explained(n, log, ev)
  {
    ExecutedAccepted(n, log);
    AcceptedClosed(n, log);
  }

  lemma ExecutedFacts(n: nat, log: Log)
    requires Executed(n, log)
    ensures Facts(n, log)
  {
    forall e: Effect | D(e) in log ensures I(e) in log { ExplainedIn(n, log, D(e)); }
    forall e: Effect | I(e) in log ensures InRange(n, e) { ExplainedIn(n, log, I(e)); }
    if I(Move) in log { ExplainedIn(n, log, I(Move)); }
    forall i: nat | I(Preserve(i)) in log ensures D(Move) in log { ExplainedIn(n, log, I(Preserve(i))); }
    forall i: nat | I(Publish(i)) in log ensures D(Preserve(i)) in log { ExplainedIn(n, log, I(Publish(i))); }
    forall i: nat | I(Unpublish(i)) in log ensures I(Abort) in log && Staged(log, i) {
      ExplainedIn(n, log, I(Unpublish(i)));
      ExecutedTouchesStaged(n, log, I(Unpublish(i)));
    }
    forall i: nat | I(Restore(i)) in log ensures D(Unpublish(i)) in log { ExplainedIn(n, log, I(Restore(i))); }
    if I(MoveBack) in log { ExplainedIn(n, log, I(MoveBack)); }
    if I(Aborted) in log { ExplainedIn(n, log, I(Aborted)); }
    if I(Complete) in log { ExplainedIn(n, log, I(Complete)); }
    if D(Complete) in log { ExplainedIn(n, log, D(Complete)); }
    forall i: nat | I(Cleanup(i)) in log ensures Terminal(log) && Staged(log, i) {
      ExplainedIn(n, log, I(Cleanup(i)));
      ExecutedTouchesStaged(n, log, I(Cleanup(i)));
    }
    if I(Cleaned) in log { ExplainedIn(n, log, I(Cleaned)); }
  }

  // ---------- the invariant ----------

  /** Where the directory may be, given the journal. */
  ghost predicate DirAllowed(log: Log, d: Place) {
    && (I(Move) !in log ==> d == OldName)
    && (D(Move) in log && I(MoveBack) !in log ==> d == NewName)
    && (D(MoveBack) in log ==> d == OldName)
  }

  /** Which of the three swap states a staged pointer may be in, given the journal. */
  ghost predicate SwapAllowed(log: Log, i: nat, p: PointerDisk) {
    && p.staging && p.next == Named(Post)
    && (p.published == Gone || (p.published == Named(Post) && I(Unpublish(i)) in log && I(Publish(i)) in log))
    && (|| (&& p.live == Some(Pre) && p.original == Gone
            && (D(Preserve(i)) in log ==> I(Restore(i)) in log))
        || (&& p.live == None && p.original == Named(Pre)
            && I(Preserve(i)) in log && D(Restore(i)) !in log
            && (D(Publish(i)) in log ==> I(Unpublish(i)) in log))
        || (&& p.live == Some(Post) && p.original == Named(Pre) && p.published == Gone
            && I(Publish(i)) in log && D(Unpublish(i)) !in log))
  }

  function FinalImage(log: Log): Image { if D(Complete) in log then Post else Pre }

  /** What may be left of a staging directory whose cleanup has begun. */
  ghost predicate RemainsAllowed(log: Log, i: nat, p: PointerDisk) {
    && p.live == Some(FinalImage(log))
    && (p.next == Gone || p.next.image == Post)
    && (p.original == Gone || (p.original.image == Pre && D(Complete) in log))
    && (p.published == Gone || (p.published.image == Post && I(Unpublish(i)) in log))
    && (!p.staging ==> p.next == Gone && p.original == Gone && p.published == Gone)
    && (D(Cleanup(i)) in log ==> !p.staging)
  }

  ghost predicate PointerAllowed(log: Log, i: nat, p: PointerDisk) {
    if !Staged(log, i) then
      && p.live == Some(Pre) && p.original == Gone && p.published == Gone
      && (I(Stage(i)) !in log || I(Abort) in log ==> !p.staging)
      && (!p.staging ==> p.next == Gone)
    else if I(Cleanup(i)) !in log then
      SwapAllowed(log, i, p)
    else
      RemainsAllowed(log, i, p)
  }

  /** Both the visible and the durable disk agree with the journal `log`. */
  ghost predicate View(n: nat, log: Log, w: World) {
    && |w.ptr| == n && |w.ptrDurable| == n
    && DirAllowed(log, w.dir) && DirAllowed(log, w.dirDurable)
    && (forall i :: 0 <= i < n ==> PointerAllowed(log, i, w.ptr[i]))
    && (forall i :: 0 <= i < n ==> PointerAllowed(log, i, w.ptrDurable[i]))
  }

  /** Of an unstaged pointer, only the visible staging directory can be ahead. */
  ghost predicate ResidueVisible(n: nat, w: World)
    requires |w.ptr| == n && |w.ptrDurable| == n
  {
    forall i :: 0 <= i < n && !Staged(w.log, i) && w.ptrDurable[i].staging ==> w.ptr[i].staging
  }

  /** Holds in every state that crashes, power cuts and resumed invocations can reach. */
  ghost predicate Inv(n: nat, w: World) {
    && Executed(n, w.log)
    && w.durable <= |w.log| <= w.durable + 1
    && (w.torn ==> w.durable == |w.log|)
    && View(n, w.log, w)
    && View(n, w.log[..w.durable], w)
    && ResidueVisible(n, w)
  }

  function Initially(n: nat): World {
    var p := PointerDisk(Some(Pre), false, Gone, Gone, Gone);
    World([], 0, false, OldName, OldName, seq(n, _ => p), seq(n, _ => p))
  }

  lemma InitInv(n: nat)
    ensures Inv(n, Initially(n))
  {
    assert Initially(n).log[..0] == [];
  }

  // ---------- growing the log ----------

  predicate About(e: Effect, i: nat) {
    match e
    case Stage(j) => j == i
    case Preserve(j) => j == i
    case Publish(j) => j == i
    case Unpublish(j) => j == i
    case Restore(j) => j == i
    case Cleanup(j) => j == i
    case _ => false
  }

  /** An event about another pointer, or an intent other than abort and cleanup, cannot disturb a pointer. */
  lemma PointerUndisturbed(log: Log, ev: Event, i: nat, p: PointerDisk)
    requires PointerAllowed(log, i, p)
    requires !About(ev.effect, i) || (ev.phase == Intent && !ev.effect.Cleanup?)
    requires ev != I(Abort) && ev != D(Complete)
    ensures PointerAllowed(log + [ev], i, p)
  {
    var l := log + [ev];
    assert forall x :: x in l <==> x in log || x == ev;
    assert Staged(l, i) <==> Staged(log, i);
    assert FinalImage(l) == FinalImage(log);
  }

  lemma ViewUndisturbed(n: nat, w: World, ev: Event)
    requires View(n, w.log, w)
    requires ev.phase == Intent || (ev.effect.Abort? || ev.effect.Aborted? || ev.effect.Cleaned?)
    requires !ev.effect.Cleanup? && ev != I(Abort)
    ensures View(n, w.log + [ev], w)
  {
    assert forall x :: x in w.log + [ev] <==> x in w.log || x == ev;
    forall i | 0 <= i < n ensures PointerAllowed(w.log + [ev], i, w.ptr[i]) {
      PointerUndisturbed(w.log, ev, i, w.ptr[i]);
    }
    forall i | 0 <= i < n ensures PointerAllowed(w.log + [ev], i, w.ptrDurable[i]) {
      PointerUndisturbed(w.log, ev, i, w.ptrDurable[i]);
    }
  }

  /** An event about one pointer needs only that pointer to be looked at. */
  lemma ViewAfterPointerEvent(n: nat, w: World, ev: Event, i: nat)
    requires View(n, w.log, w) && i < n && About(ev.effect, i)
    requires PointerAllowed(w.log + [ev], i, w.ptr[i]) && PointerAllowed(w.log + [ev], i, w.ptrDurable[i])
    ensures View(n, w.log + [ev], w)
  {
    assert forall x :: x in w.log + [ev] <==> x in w.log || x == ev;
    forall j | 0 <= j < n ensures PointerAllowed(w.log + [ev], j, w.ptr[j]) {
      if j != i { PointerUndisturbed(w.log, ev, j, w.ptr[j]); }
    }
    forall j | 0 <= j < n ensures PointerAllowed(w.log + [ev], j, w.ptrDurable[j]) {
      if j != i { PointerUndisturbed(w.log, ev, j, w.ptrDurable[j]); }
    }
  }

  // ---------- power cuts ----------

  /** A power cut keeps or loses each change that was not yet synchronised, independently;
      a record losing its synchronisation may also be left torn. */
  ghost predicate PowerCut(w: World, w': World) {
    && w.durable <= |w.log|
    && (w'.log == w.log || w'.log == w.log[..w.durable])
    && w'.durable == |w'.log|
    && (w'.torn ==> w.torn || (w.durable < |w.log| && w'.log == w.log[..w.durable]))
    && (w'.dir == w.dir || w'.dir == w.dirDurable) && w'.dirDurable == w'.dir
    && |w.ptr| == |w.ptrDurable| == |w'.ptr| && w'.ptrDurable == w'.ptr
    && forall i :: 0 <= i < |w.ptr| ==> w'.ptr[i] == w.ptr[i] || w'.ptr[i] == w.ptrDurable[i]
  }

  lemma PowerCutKeepsInv(n: nat, w: World, w': World)
    requires Inv(n, w) && PowerCut(w, w')
    ensures Inv(n, w')
  {
    ExecutedPrefix(n, w.log, w.durable);
    assert w'.log[..w'.durable] == w'.log;
    forall i | 0 <= i < n ensures PointerAllowed(w'.log, i, w'.ptr[i]) {
      assert PointerAllowed(w.log, i, w.ptr[i]) && PointerAllowed(w.log, i, w.ptrDurable[i]);
      assert PointerAllowed(w.log[..w.durable], i, w.ptr[i]) && PointerAllowed(w.log[..w.durable], i, w.ptrDurable[i]);
    }
  }

  // ---------- what the invariant says of every reachable state ----------

  /** If the directory is under its old name, every pointer is still, or again, its original. */
  lemma OldNameMeansOriginal(n: nat, w: World, i: nat)
    requires Inv(n, w) && i < n && w.dir == OldName
    ensures w.ptr[i].live == Some(Pre)
    ensures Staged(w.log, i) && I(Cleanup(i)) !in w.log ==> StateOf(w.ptr[i]) == Original
  {
    ExecutedFacts(n, w.log);
    assert PointerAllowed(w.log, i, w.ptr[i]);
  }

  /** Until completion each preimage exists exactly once: live, or saved beside its staged postimage. */
  lemma PreimageConserved(n: nat, w: World, i: nat)
    requires Inv(n, w) && i < n && D(Complete) !in w.log
    ensures (w.ptr[i].live == Some(Pre)) <==> !(w.ptr[i].original == Named(Pre))
    ensures w.ptr[i].live == Some(Pre) ==> w.ptr[i].original == Gone
    ensures (w.ptrDurable[i].live == Some(Pre)) <==> !(w.ptrDurable[i].original == Named(Pre))
  {
    ExecutedFacts(n, w.log);
    assert PointerAllowed(w.log, i, w.ptr[i]) && PointerAllowed(w.log, i, w.ptrDurable[i]);
  }

  /** Publication is in plan order, so the registry, the plan's last pointer, is published last. */
  lemma {:induction false} PublishedInOrder(n: nat, log: Log, j: nat, i: nat)
    requires Executed(n, log) && j < i < n && I(Publish(i)) in log
    ensures D(Publish(j)) in log
    decreases i
  {
    ExplainedIn(n, log, I(Publish(i)));
    ExplainedIn(n, log, D(Preserve(i)));
    if j < i - 1 { ExplainedIn(n, log, D(Publish(i - 1))); }
    if j < i - 1 { PublishedInOrder(n, log, j, i - 1); }
  }

  lemma {:induction false} UnpublishedInReverse(n: nat, log: Log, j: nat, i: nat)
    requires Executed(n, log) && j < i < n && I(Unpublish(j)) in log && Staged(log, i)
    ensures D(Restore(i)) in log
  {
    var init, last := log[..|log| - 1], log[|log| - 1];
    assert log == init + [last];
    ExecutedAccepted(n, init);
    if I(Unpublish(j)) in init {
      ExecutedFacts(n, init);
      assert last != D(Stage(i));
      UnpublishedInReverse(n, init, j, i);
    } else {
      assert last.effect == Unpublish(j);
    }
  }

  /** While the registry, or any later pointer, shows its postimage, so does every earlier pointer. */
  lemma RegistryLast(n: nat, w: World, j: nat, i: nat)
    requires Inv(n, w) && j < i < n && w.ptr[i].live == Some(Post)
    ensures w.ptr[j].live == Some(Post)
  {
    ExecutedFacts(n, w.log);
    assert PointerAllowed(w.log, i, w.ptr[i]) && PointerAllowed(w.log, j, w.ptr[j]);
    if I(Cleanup(i)) in w.log {
      assert D(Complete) in w.log;
    } else {
      assert I(Publish(i)) in w.log && D(Unpublish(i)) !in w.log;
      PublishedInOrder(n, w.log, j, i);
      if I(Unpublish(j)) in w.log { UnpublishedInReverse(n, w.log, j, i); }
    }
  }

  /** Write-ahead: an effect is visible only after its intent is durable. */
  lemma EffectsHaveDurableIntents(n: nat, w: World, i: nat)
    requires Inv(n, w) && i < n
    ensures w.dir == NewName ==> I(Move) in w.log[..w.durable]
    ensures w.ptr[i].staging ==> I(Stage(i)) in w.log[..w.durable]
    ensures w.ptr[i].live == None ==> I(Preserve(i)) in w.log[..w.durable]
    ensures w.ptr[i].live == Some(Post) ==> I(Publish(i)) in w.log[..w.durable]
    ensures w.ptr[i].published != Gone ==> I(Unpublish(i)) in w.log[..w.durable]
    ensures D(Publish(i)) in w.log[..w.durable] && w.ptr[i].live != Some(Post) ==> I(Unpublish(i)) in w.log[..w.durable]
    ensures D(Preserve(i)) in w.log[..w.durable] && w.ptr[i].live == Some(Pre) ==> I(Restore(i)) in w.log[..w.durable]
    ensures D(Move) in w.log[..w.durable] && w.dir == OldName ==> I(MoveBack) in w.log[..w.durable]
    ensures Staged(w.log[..w.durable], i) && !w.ptr[i].staging ==> I(Cleanup(i)) in w.log[..w.durable]
  {
    ExecutedPrefix(n, w.log, w.durable);
    ExecutedFacts(n, w.log[..w.durable]);
    assert PointerAllowed(w.log[..w.durable], i, w.ptr[i]);
  }

  /** Write-ahead: a `done` record, even one not yet durable itself, is preceded by its durable effect. */
  lemma DoneMeansDurable(n: nat, w: World, i: nat)
    requires Inv(n, w) && i < n
    ensures D(Move) in w.log && I(MoveBack) !in w.log ==> w.dirDurable == NewName
    ensures D(MoveBack) in w.log ==> w.dirDurable == OldName
    ensures D(Stage(i)) in w.log && I(Cleanup(i)) !in w.log ==>
              w.ptrDurable[i].staging && w.ptrDurable[i].next == Named(Post)
    ensures D(Preserve(i)) in w.log && I(Unpublish(i)) !in w.log && I(Cleanup(i)) !in w.log ==>
              w.ptrDurable[i].original == Named(Pre)
    ensures D(Publish(i)) in w.log && I(Unpublish(i)) !in w.log ==> w.ptrDurable[i].live == Some(Post)
    ensures D(Unpublish(i)) in w.log ==> w.ptrDurable[i].live != Some(Post)
    ensures D(Restore(i)) in w.log ==> w.ptrDurable[i].live == Some(Pre)
    ensures D(Cleanup(i)) in w.log ==> !w.ptrDurable[i].staging
  {
    ExecutedFacts(n, w.log);
    assert PointerAllowed(w.log, i, w.ptrDurable[i]);
  }

  /** The commit point: once `complete` is recorded the move can only be kept, on both disks. */
  lemma CommitIsFinal(n: nat, w: World, i: nat)
    requires Inv(n, w) && i < n && D(Complete) in w.log
    ensures w.dir == NewName && w.dirDurable == NewName
    ensures w.ptr[i].live == Some(Post) && w.ptrDurable[i].live == Some(Post)
  {
    ExecutedFacts(n, w.log);
    assert PointerAllowed(w.log, i, w.ptr[i]) && PointerAllowed(w.log, i, w.ptrDurable[i]);
  }

  /** Once an abort is intended, completion is out of reach and a finished abort is fully undone. */
  lemma AbortIsFinal(n: nat, w: World, i: nat)
    requires Inv(n, w) && i < n && I(Abort) in w.log
    ensures D(Complete) !in w.log
    ensures D(Aborted) in w.log ==>
              w.dir == OldName && w.dirDurable == OldName &&
              w.ptr[i].live == Some(Pre) && w.ptrDurable[i].live == Some(Pre)
  {
    ExecutedFacts(n, w.log);
    assert PointerAllowed(w.log, i, w.ptr[i]) && PointerAllowed(w.log, i, w.ptrDurable[i]);
  }

  /** Grammar and executor agree: every reachable journal is one the grammar accepts, so it is
      bounded and its forward part follows the frozen order. */
  lemma ReachableLogAccepted(n: nat, w: World)
    requires Inv(n, w)
    ensures Accepted(n, w.log) && |w.log| <= 12 * (n + 1)
    ensures ForwardDone(w.log) <= Frozen(n)
  {
    ExecutedAccepted(n, w.log);
    LogLengthBounded(n, w.log);
    ForwardFollowsFrozenOrder(n, w.log);
  }
}
