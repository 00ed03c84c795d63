/** The checkout-sync executor, step by step: fresh execution, the resume arms, finalization.
    Any effect may fail, before or after it took place, so a process that dies at some point is the run
    in which every later effect fails. */
module CheckoutSyncRun {
  import opened Options
  import opened CheckoutSync

  class Run {
    const c: Config
    // Whether everything this process tries succeeds and every rebase applies cleanly, a branch that contains its
    // destination already being left as it is.
    const smooth: bool
    // Whether everything succeeds but, possibly, rebases, validations and pushes, and a rebase that completes contains
    // its destination.
    const calm: bool
    var tx: Tx
    var w: World

    constructor (c: Config, smooth: bool, calm: bool, w: World)
      requires Inv(c, w)
      ensures this.c == c && this.smooth == smooth && this.calm == calm && this.w == w
    {
      this.c := c;
      this.smooth, this.calm := smooth, calm;
      this.w := w;
      this.tx := Tx(Planned, 0, [], [], [], None, {}, false);
    }

    /** What holds while a process works on the transaction: the invariant of the durable state,
        and the same invariant of the copy in memory, which has forgotten no recorded push. */
    ghost predicate Live()
      reads this
    {
      && Inv(c, w) && w.saved.Some?
      && TxInv(c, tx, w)
      && w.saved.value.published <= tx.published
    }

    /** At an entry, with no rebase running. */
    ghost predicate Working()
      reads this
    {
      Live() && tx.current < |c.plan| && w.rebasing.None?
    }

    // ---------- effects ----------

    /** Whether the environment lets something happen. */
    method Chance() returns (lucky: bool)
      ensures smooth || calm ==> lucky
    {
      lucky := *;
      lucky := lucky || smooth || calm;
    }

    /** The same for something that may fail in a calm environment too. */
    method Luck() returns (lucky: bool)
      ensures smooth ==> lucky
    {
      lucky := *;
      lucky := lucky || smooth;
    }

    method Save() returns (ok: bool)
      requires Live()
      modifies this`w
      ensures Live()
      ensures w == old(w) || w == old(w).(saved := Some(tx))
      ensures ok ==> w == old(w).(saved := Some(tx))
      ensures smooth || calm ==> ok
    {
      var written := Chance();
      if written { w := w.(saved := Some(tx)); }
      var reported := Chance();
      ok := written && reported;
    }

    method ResolveRef(b: Branch) returns (tip: Option<Commit>)
      ensures tip.Some? ==> b in w.refs && w.refs[b] == tip.value
      ensures (smooth || calm) && b in w.refs ==> tip.Some?
    {
      var readable := Chance();
      if !readable || b !in w.refs { return None; }
      return Some(w.refs[b]);
    }

    method IsAncestorOf(a: Commit, b: Branch) returns (yes: bool)
      ensures yes ==> b in w.refs && IsAncestor(a, w.refs[b])
      ensures (smooth || calm) && b in w.refs && IsAncestor(a, w.refs[b]) ==> yes
    {
      var readable := Chance();
      return readable && b in w.refs && IsAncestor(a, w.refs[b]);
    }

    method Switch(b: Branch) returns (ok: bool)
      requires Live()
      modifies this`w
      ensures Live() && w == old(w).(head := w.head)
      ensures ok ==> w.head == Some(b)
      ensures smooth || calm ==> ok
    {
      var moved := Chance();
      if moved { w := w.(head := Some(b)); }
      var reported := Chance();
      ok := moved && reported;
    }

    /** HEAD is attached to a branch that contains the commit. */
    predicate Contains(commit: Commit)
      reads this
    {
      w.head.Some? && w.head.value in w.refs && IsAncestor(commit, w.refs[w.head.value])
    }

    /** `git rebase --onto`: rewrites the branch HEAD is on to whatever Git makes of it, stops on a
        conflict with HEAD detached, or fails. */
    method GitRebase(onto: Commit) returns (ok: bool, conflict: bool)
      requires Working() && w.saved == Some(tx) && tx.stage.Rebasing?
      requires w.head.Some? ==> Harmless(c, tx.current, w.head.value)
      modifies this`w
      ensures Live() && w.saved == Some(tx)
      ensures ok ==> w.rebasing.None? && w.head == old(w.head)
      ensures w == old(w).(refs := w.refs, rebasing := w.rebasing, head := w.head)
      ensures SameExcept(old(w.refs), w.refs, old(w.head)) && old(w.refs).Keys <= w.refs.Keys
      ensures smooth && old(w.head).Some? ==>
                ok && old(w.head).value in w.refs && IsAncestor(onto, w.refs[old(w.head).value])
      ensures smooth && old(Contains(onto)) ==> w.refs == old(w.refs)
      ensures calm && ok && w.head.Some? ==> Contains(onto)
      ensures calm && !ok ==> w.refs == old(w.refs)
      ensures calm && !ok && conflict ==> w.rebasing == old(w.head) && (old(w.head).Some? ==> w.head == None)
      ensures calm && !ok && !conflict ==> w == old(w)
    {
      hide Inv, TxInv, Harmless, IsAncestor, BaseFixed;
      var outcome, tip := RebaseOutcome(onto);
      if outcome == 0 && w.head.Some? {
        w := w.(refs := w.refs[w.head.value := tip]);
      } else if outcome == 1 && w.head.Some? {
        w := w.(rebasing := w.head, head := None);
      }
      assert Live() by { Rewritten(old(w)); }
      var reported := Chance();
      ok := outcome == 0 && reported;
      conflict := outcome == 1 && reported;
    }

    /** How Git's rebase ends, 0 for done and 1 for a conflict, and what it makes of the branch. */
    method RebaseOutcome(onto: Commit) returns (outcome: int, tip: Commit)
      ensures smooth ==> outcome == 0
      ensures smooth || calm ==> IsAncestor(onto, tip)
      ensures smooth && Contains(onto) ==> tip == w.refs[w.head.value]
    {
      outcome, tip := *, *;
      Above(onto);
      if (smooth || calm) && !IsAncestor(onto, tip) { tip := Commit(0, [onto]); }
      if smooth {
        outcome := 0;
        if Contains(onto) { tip := w.refs[w.head.value]; }
      }
    }

    lemma Above(onto: Commit)
      ensures IsAncestor(onto, Commit(0, [onto]))
    {
      assert IsAncestor(onto, Commit(0, [onto]).parents[0]);
    }

    lemma Rewritten(v: World)
      requires Inv(c, v) && v.saved == Some(tx) && tx.stage.Rebasing?
      requires v.head.Some? ==> Harmless(c, tx.current, v.head.value)
      requires w == v.(refs := w.refs, rebasing := w.rebasing, head := w.head)
      requires w.rebasing == v.rebasing || w.rebasing == v.head
      requires SameExcept(v.refs, w.refs, v.head)
      ensures Live()
    {
      forall i: nat | i < |c.plan| && (i < tx.current || (i == tx.current && Active(tx.stage)))
        ensures BaseFixed(c, tx.newBase, w.refs, i)
      {
        assert BaseFixed(c, tx.newBase, v.refs, i);
      }
    }

    /** `BeginSyncRebaseAction`: refuses while an action is pending, otherwise records the intent. */
    method BeginAction() returns (ok: bool)
      requires Working() && (tx.stage.Planned? || tx.stage.Rebasing?)
      modifies this
      ensures Working() && tx == old(tx).(pending := tx.pending)
      ensures ok ==> tx.pending == Some(Action(c.plan[tx.current].branch, w.refs)) && w == old(w).(saved := Some(tx))
      ensures w == old(w).(saved := w.saved)
      ensures old(tx.pending).Some? ==> !ok && tx == old(tx) && w == old(w)
      ensures (smooth || calm) && old(tx.pending).None? ==> ok
    {
      var verified := Chance();
      if tx.pending.Some? || !verified { return false; }
      tx := tx.(pending := Some(Action(c.plan[tx.current].branch, w.refs)));
      ok := Save();
    }

    /** `CompleteSyncGitAction`: a rebase still in progress leaves the action pending; a result that moved
        another branch is refused; otherwise the result is recorded. */
    method CompleteAction() returns (ok: bool)
      requires Live()
      modifies this
      ensures Live() && w == old(w).(saved := w.saved)
      ensures tx == old(tx).(pending := tx.pending)
      ensures ok ==> w.rebasing.Some? || tx.pending.None?
      ensures old(tx.pending).None? || w.rebasing.Some? ==> ok && tx == old(tx) && w == old(w)
      ensures ok && old(tx.pending).Some? && w.rebasing.None? ==>
                OthersKept(old(tx.pending).value, w.refs) && w.saved == Some(tx)
      ensures (smooth || calm) && (old(tx.pending).Some? ==> OthersKept(old(tx.pending).value, w.refs)) ==> ok
    {
      if tx.pending.None? || w.rebasing.Some? { return true; }
      var attributed := Chance();
      if !attributed || !OthersKept(tx.pending.value, w.refs) { return false; }
      tx := tx.(pending := None);
      ok := Save();
    }

    // ---------- one entry ----------

    /** `doRebase`.  A rebase only ever starts after the file says so. */
    method DoRebase() returns (ok: bool)
      requires Working() && Active(tx.stage) && !tx.cleaning
      requires w.head.Some? ==> Harmless(c, tx.current, w.head.value)
      modifies this
      ensures Live() && tx.current == old(tx.current) && tx.pending == old(tx.pending)
      ensures Active(tx.stage) && !tx.stage.Switched? && tx.newBase == old(tx.newBase)
      ensures ok ==> tx.stage.Rebased? && w.rebasing.None?
      ensures SameExcept(old(w.refs), w.refs, old(w.head)) && old(w.refs).Keys <= w.refs.Keys
      ensures smooth && old(OnTrack(c, tx, w)) && old(w.head) == Some(c.plan[tx.current].branch) ==>
                ok && OnTrack(c, tx, w) && EntryDescends(c, tx, w)
      ensures ok ==> w.head == old(w.head)
      ensures smooth && old(Contains(tx.newBase[tx.current])) ==> w.refs == old(w.refs)
      ensures calm && old(OnTrack(c, tx, w)) && old(w.head) == Some(c.plan[tx.current].branch) ==>
                OnTrack(c, tx, w) && (if ok then EntryDescends(c, tx, w) else RebaseHalted())
      ensures w == old(w).(saved := w.saved, refs := w.refs, rebasing := w.rebasing, head := w.head)
      ensures tx == old(tx).(stage := tx.stage, post := tx.post)
    {
      ok := MarkRebasing();
      if !ok { return; }
      hide Inv, TxInv, Harmless;
      ok := ReplayAndRecord();
      if old(OnTrack(c, tx, w)) && old(w.head) == Some(c.plan[tx.current].branch) {
        StillOnTrack(c, old(tx), old(w), tx, w);
      }
    }

    /** The file says that the rebase begins. */
    method MarkRebasing() returns (ok: bool)
      requires Working() && Active(tx.stage) && !tx.cleaning
      modifies this
      ensures Working() && tx == old(tx).(stage := Rebasing) && w == old(w).(saved := w.saved)
      ensures ok ==> w.saved == Some(tx)
      ensures smooth || calm ==> ok
    {
      tx := tx.(stage := Rebasing);
      ok := Save();
      if !ok { return; }
      ok := Chance();
    }

    /** The rebase stopped and the file says how: at a conflict, with the rebase in progress, or just failed. */
    ghost predicate RebaseHalted()
      reads this
    {
      && w.saved == Some(tx) && tx.current < |c.plan|
      && if tx.stage.Conflict? then w.rebasing == Some(c.plan[tx.current].branch)
         else tx.stage.Rebasing? && w.rebasing.None?
    }

    /** How a rebase of HEAD's branch that was not finished leaves the file. */
    ghost predicate Halts(head: Option<Branch>)
      reads this
    {
      && w.saved == Some(tx)
      && if tx.stage.Conflict? then w.rebasing == head else tx.stage.Rebasing? && w.rebasing.None?
    }

    method ReplayAndRecord() returns (ok: bool)
      requires Working() && w.saved == Some(tx) && tx.stage.Rebasing?
      requires w.head.Some? ==> Harmless(c, tx.current, w.head.value)
      modifies this
      ensures Live() && tx.current == old(tx.current) && tx.pending == old(tx.pending) && tx.newBase == old(tx.newBase)
      ensures tx.stage.Rebasing? || tx.stage.Conflict? || tx.stage.Rebased?
      ensures ok ==> tx.stage.Rebased? && w.rebasing.None?
      ensures SameExcept(old(w.refs), w.refs, old(w.head)) && old(w.refs).Keys <= w.refs.Keys
      ensures smooth && old(w.head).Some? ==>
                ok && old(w.head).value in w.refs && IsAncestor(tx.newBase[tx.current], w.refs[old(w.head).value])
      ensures ok ==> w.head == old(w.head)
      ensures smooth && old(Contains(tx.newBase[tx.current])) ==> w.refs == old(w.refs)
      ensures calm && old(w.head).Some? && ok ==> Contains(tx.newBase[tx.current])
      ensures calm && old(w.head).Some? && !ok ==> w.refs == old(w.refs) && Halts(old(w.head))
      ensures w == old(w).(saved := w.saved, refs := w.refs, rebasing := w.rebasing, head := w.head)
      ensures tx == old(tx).(stage := tx.stage, post := tx.post)
    {
      ok := Replay();
      if !ok { return; }
      ok := RecordRebased();
    }

    /** Runs the rebase and records a conflict or a failure. */
    method Replay() returns (ok: bool)
      requires Working() && w.saved == Some(tx) && tx.stage.Rebasing?
      requires w.head.Some? ==> Harmless(c, tx.current, w.head.value)
      modifies this
      ensures Live() && tx == old(tx).(stage := tx.stage) && (tx.stage.Rebasing? || tx.stage.Conflict?)
      ensures ok ==> w.rebasing.None? && w.head == old(w.head) && tx == old(tx)
      ensures SameExcept(old(w.refs), w.refs, old(w.head)) && old(w.refs).Keys <= w.refs.Keys
      ensures smooth && old(w.head).Some? ==>
                ok && old(w.head).value in w.refs && IsAncestor(tx.newBase[tx.current], w.refs[old(w.head).value])
      ensures smooth && old(Contains(tx.newBase[tx.current])) ==> w.refs == old(w.refs)
      ensures calm && old(w.head).Some? && ok ==> Contains(tx.newBase[tx.current])
      ensures calm && old(w.head).Some? && !ok ==> w.refs == old(w.refs) && Halts(old(w.head))
      ensures w == old(w).(saved := w.saved, refs := w.refs, rebasing := w.rebasing, head := w.head)
    {
      var conflict;
      ok, conflict := GitRebase(tx.newBase[tx.current]);
      if !ok {
        if conflict { tx := tx.(stage := Conflict); }
        var _ := Save();
      }
    }

    /** The tip HEAD is at goes into the transaction; a save that fails here is ignored. */
    method RecordRebased() returns (ok: bool)
      requires Working() && Active(tx.stage)
      modifies this
      ensures Working() && tx.current == old(tx.current) && tx.pending == old(tx.pending) && Active(tx.stage)
      ensures w == old(w).(saved := w.saved)
      ensures ok ==> tx == old(tx).(post := tx.post, stage := Rebased)
      ensures ok && w.head.Some? ==>
                w.head.value in w.refs && tx.post == old(tx.post)[tx.current := Some(w.refs[w.head.value])]
      ensures !ok ==> tx == old(tx)
      ensures (smooth || calm) && (w.head.Some? ==> w.head.value in w.refs) ==> ok
    {
      var post := *;
      if w.head.Some? {
        var tip := ResolveRef(w.head.value);
        if tip.None? { return false; }
        post := tip.value;
      }
      var resolved := Chance();
      if !resolved { return false; }
      tx := tx.(post := tx.post[tx.current := Some(post)], stage := Rebased);
      var _ := Save();
      return true;
    }

    /** Runs the validation command of the current entry. */
    method RunValidation() returns (ok: bool)
      requires Working() && (tx.stage.Rebased? || tx.stage.Validating?)
      modifies this`w
      ensures Working()
      ensures ok ==> w == old(w).(validated := old(w.validated) + {c.plan[tx.current].name})
      ensures !ok ==> w == old(w).(saved := w.saved)
      ensures smooth ==> ok
      ensures calm && !ok ==> w.saved == Some(tx)
    {
      ok := Luck();
      if ok {
        w := w.(validated := w.validated + {c.plan[tx.current].name});
      } else {
        var _ := Save();
      }
    }

    /** The validating stage, when there is a command.  A failure leaves the entry at it. */
    method Validate() returns (ok: bool)
      requires Working() && (tx.stage.Rebased? || tx.stage.Validating?)
      modifies this
      ensures Working() && tx == old(tx).(stage := tx.stage) && (tx.stage.Rebased? || tx.stage.Validating?)
      ensures w == old(w).(saved := w.saved, validated := w.validated)
      ensures ok && c.test ==> c.plan[tx.current].name in w.validated
      ensures smooth ==> ok
      ensures calm && !ok ==> c.test && tx.stage.Validating? && w.saved == Some(tx)
    {
      if !c.test { return true; }
      tx := tx.(stage := Validating);
      var _ := Save();
      ok := RunValidation();
    }

    /** `processBranch`: the base is resolved again first, since an earlier entry may have moved it. */
    method ProcessBranch() returns (ok: bool)
      requires Working() && (tx.stage.Planned? || tx.stage.Rebasing?)
      modifies this
      ensures Live() && tx.current == old(tx.current)
      ensures ok ==> Working() && (tx.stage.Rebased? || tx.stage.Validating?) && tx.pending.None?
      ensures ok ==> EntryDescends(c, tx, w) && (c.test ==> c.plan[tx.current].name in w.validated)
      ensures smooth && old(OnTrack(c, tx, w) && tx.pending.None?) ==> ok && OnTrack(c, tx, w)
      ensures ok ==> w.head == Some(c.plan[tx.current].branch)
      ensures tx.newBase == old(tx.newBase) || (c.plan[tx.current].base in old(w.refs) &&
                tx.newBase == old(tx.newBase)[tx.current := old(w.refs)[c.plan[tx.current].base]])
      ensures smooth && old(OnTrack(c, tx, w) && UpToDate()) ==> w.refs == old(w.refs)
      ensures calm && old(OnTrack(c, tx, w) && tx.pending.None?) ==> if ok then OnTrack(c, tx, w) else EntryHalted()
      ensures SameExcept(old(w.refs), w.refs, Some(c.plan[tx.current].branch))
      ensures OnlyEntry(old(w), w)
    {
      hide Inv, TxInv, BaseFixed, OnTrack, EntryDescends, Harmless, WellOrdered, IsAncestor;
      ok := PrepareBranch();
      if !ok { return; }
      ok := FinishBranch();
    }

    /** What processing an entry may change beside the references. */
    ghost predicate OnlyEntry(v: World, v': World) {
      v' == v.(saved := v'.saved, refs := v'.refs, rebasing := v'.rebasing, head := v'.head, validated := v'.validated)
    }

    /** Everything before the rebase. */
    method PrepareBranch() returns (ok: bool)
      requires Working() && (tx.stage.Planned? || tx.stage.Rebasing?)
      modifies this
      ensures Working() && tx.current == old(tx.current) && w == old(w).(saved := w.saved, head := w.head)
      ensures tx.newBase == old(tx.newBase) || (c.plan[tx.current].base in w.refs &&
                tx.newBase == old(tx.newBase)[tx.current := w.refs[c.plan[tx.current].base]])
      ensures ok ==> tx.stage.Switched? && Prepared()
      ensures (smooth || calm) && old(OnTrack(c, tx, w) && tx.pending.None?) ==> ok
      ensures old(OnTrack(c, tx, w)) ==> OnTrack(c, tx, w)
    {
      var i := tx.current;
      ok := ResolveBase();
      if !ok { return; }
      assert old(OnTrack(c, tx, w)) ==> OnTrack(c, tx, w) by {
        assert forall k: nat :: k < i && Descends(c, old(tx.newBase), w.refs, k) ==> Descends(c, tx.newBase, w.refs, k);
      }
      hide Inv, TxInv, OnTrack, IsAncestor;
      var admitted := Chance();
      if !admitted { return false; }
      ok := BeginAction();
      if !ok { return; }
      ok := SwitchTo(i);
    }

    /** The action is pending, HEAD is on the entry's branch, and the destination is its base's tip. */
    ghost predicate Prepared()
      reads this
    {
      && tx.current < |c.plan| && tx.current < |tx.newBase|
      && tx.pending == Some(Action(c.plan[tx.current].branch, w.refs))
      && w.head == Some(c.plan[tx.current].branch)
      && c.plan[tx.current].base in w.refs && tx.newBase[tx.current] == w.refs[c.plan[tx.current].base]
    }

    /** The rebase, its check and the validation. */
    method FinishBranch() returns (ok: bool)
      requires Working() && tx.stage.Switched? && Prepared()
      modifies this
      ensures Live() && tx.current == old(tx.current) && tx.newBase == old(tx.newBase)
      ensures ok ==> Working() && (tx.stage.Rebased? || tx.stage.Validating?) && tx.pending.None?
      ensures ok ==> EntryDescends(c, tx, w) && (c.test ==> c.plan[tx.current].name in w.validated)
      ensures ok ==> w.head == Some(c.plan[tx.current].branch)
      ensures smooth && old(OnTrack(c, tx, w)) ==> ok && OnTrack(c, tx, w)
      ensures smooth && old(UpToDate()) ==> w.refs == old(w.refs)
      ensures calm && old(OnTrack(c, tx, w)) ==> if ok then OnTrack(c, tx, w) else EntryHalted()
      ensures SameExcept(old(w.refs), w.refs, Some(c.plan[tx.current].branch))
      ensures OnlyEntry(old(w), w)
    {
      var i := tx.current;
      assert Harmless(c, i, c.plan[i].branch);
      hide Inv, TxInv, BaseFixed, OnTrack, WellOrdered, IsAncestor, Harmless;
      ok := DoRebase();
      var recorded := CompleteAction();
      if !ok || !recorded { return false; }
      ok := IsAncestorOf(tx.newBase[i], c.plan[i].branch);
      if !ok {
        var _ := Save();
        return;
      }
      ok := Validate();
    }

    /** The entry stopped and the file says how: its rebase, with the action pending while the rebase is in progress, or
        its validation. */
    ghost predicate EntryHalted()
      reads this
    {
      && w.saved == Some(tx) && tx.current < |c.plan|
      && (tx.stage.Conflict? ==> w.rebasing == Some(c.plan[tx.current].branch) && tx.pending.Some?
                                 && tx.pending.value.branch == c.plan[tx.current].branch)
      && (!tx.stage.Conflict? ==> (tx.stage.Rebasing? || (c.test && tx.stage.Validating?))
                                  && w.rebasing.None? && tx.pending.None?)
    }

    /** The current entry's branch contains its base's tip already. */
    ghost predicate UpToDate()
      reads this
    {
      && tx.current < |c.plan| && c.plan[tx.current].base in w.refs && c.plan[tx.current].branch in w.refs
      && IsAncestor(w.refs[c.plan[tx.current].base], w.refs[c.plan[tx.current].branch])
    }

    /** The current entry's base is resolved to its tip now. */
    method ResolveBase() returns (ok: bool)
      requires Working() && (tx.stage.Planned? || tx.stage.Rebasing?)
      modifies this`tx
      ensures Working() && tx == old(tx).(newBase := tx.newBase)
      ensures !ok ==> tx == old(tx)
      ensures ok ==> BaseFixed(c, tx.newBase, w.refs, tx.current)
      ensures ok ==> tx.newBase == old(tx.newBase)[tx.current := w.refs[c.plan[tx.current].base]]
      ensures (smooth || calm) && c.plan[tx.current].base in w.refs ==> ok
    {
      var i := tx.current;
      var base := ResolveRef(c.plan[i].base);
      if base.None? { return false; }
      tx := tx.(newBase := tx.newBase[i := base.value]);
      assert BaseFixed(c, tx.newBase, w.refs, i);
      assert BasesFixed(c, tx, w.refs) by {
        forall k: nat | k < i ensures BaseFixed(c, tx.newBase, w.refs, k) {
          assert BaseFixed(c, old(tx).newBase, w.refs, k);
        }
      }
      return true;
    }

    method SwitchTo(i: nat) returns (ok: bool)
      requires Working() && i == tx.current && (tx.stage.Planned? || tx.stage.Rebasing?)
      requires BaseFixed(c, tx.newBase, w.refs, i)
      modifies this
      ensures Working() && tx == old(tx).(stage := Switched)
      ensures ok ==> w.head == Some(c.plan[i].branch) && w.saved == Some(tx)
      ensures w == old(w).(saved := w.saved, head := w.head)
      ensures smooth || calm ==> ok
    {
      ok := RecordSwitch();
      if !ok { return; }
      ok := Switch(c.plan[i].branch);
      if !ok { var _ := Save(); }
    }

    /** The file says that the switch begins. */
    method RecordSwitch() returns (ok: bool)
      requires Working() && (tx.stage.Planned? || tx.stage.Rebasing?) && BaseFixed(c, tx.newBase, w.refs, tx.current)
      modifies this
      ensures Working() && tx == old(tx).(stage := Switched)
      ensures w == old(w) || w == old(w).(saved := Some(tx))
      ensures ok ==> w.saved == Some(tx)
      ensures smooth || calm ==> ok
    {
      tx := tx.(stage := Switched);
      ok := Save();
    }

    /** Marks the current entry complete and records it. */
    method Advance() returns (ok: bool)
      requires Working() && (tx.stage.Rebased? || tx.stage.Validating?) && tx.pending.None?
      requires c.test ==> c.plan[tx.current].name in w.validated
      modifies this
      ensures Live() && w.rebasing.None? && tx.pending.None? && tx.stage.Planned?
      ensures tx == old(tx).(completed := tx.completed, current := old(tx.current) + 1, stage := Planned)
      ensures w == old(w).(saved := w.saved) && (ok ==> w.saved == Some(tx))
      ensures old(OnTrack(c, tx, w) && EntryDescends(c, tx, w)) ==> OnTrack(c, tx, w)
      ensures smooth || calm ==> ok
    {
      tx := tx.(completed := tx.completed + [tx.current], current := tx.current + 1, stage := Planned);
      assert BasesFixed(c, tx, w.refs) by {
        forall k: nat | k < tx.current ensures BaseFixed(c, tx.newBase, w.refs, k) {
          assert BaseFixed(c, old(tx).newBase, w.refs, k);
        }
      }
      ok := Save();
    }

    /** `executeTransaction`. */
    method Execute() returns (ok: bool)
      requires Live() && w.rebasing.None? && (tx.stage.Planned? || tx.stage.Rebasing?) && tx.pending.None?
      modifies this
      ensures Inv(c, w)
      ensures ok ==> w.finished
      ensures smooth && old(OnTrack(c, tx, w)) ==> ok
      ensures calm && old(OnTrack(c, tx, w)) ==> ok || EntryHalted() || PublishHalted()
      ensures ok ==> w.head == Some(c.original)
      ensures OnlyPlan(old(w), w)
    {
      Unmoved(w);
      hide Inv, TxInv, OnlyPlan, EntryDescends, EntryHalted, PublishHalted, AllResolve, IsAncestor, SameExcept;
      while tx.current < |c.plan|
        invariant (smooth || calm) && old(OnTrack(c, tx, w)) ==> OnTrack(c, tx, w)
        invariant OnlyPlan(old(w), w)
        invariant Live() && w.rebasing.None? && (tx.stage.Planned? || tx.stage.Rebasing?) && tx.pending.None?
        decreases |c.plan| - tx.current
      {
        ghost var before := w;
        ok := ProcessBranch();
        OnlyBranch(old(w), before, w, tx.current);
        if !ok { return; }
        before := w;
        ok := Advance();
        OnlySaved(old(w), before, w);
        if !ok { return; }
      }
      ghost var before := w;
      AllOnTrack();
      ok := Finalize();
      OnlyMore(old(w), before, w);
    }

    lemma Unmoved(v: World)
      ensures OnlyPlan(v, v)
    {
    }

    lemma OnlyMore(u: World, v: World, v': World)
      requires OnlyPlan(u, v) && OnlyPlan(v, v')
      ensures OnlyPlan(u, v')
    {
    }

    lemma OnlyBranch(u: World, v: World, v': World, i: nat)
      requires OnlyPlan(u, v) && i < |c.plan| && OnlyEntry(v, v') && SameExcept(v.refs, v'.refs, Some(c.plan[i].branch))
      ensures OnlyPlan(u, v')
    {
      assert OnlyPlan(v, v');
    }

    lemma OnlyBase(bases: map<Name, Commit>, i: nat, base: Commit)
      requires i < |c.plan| && OnlyPlan(w, w.(lastBase := bases))
      ensures OnlyPlan(w, w.(lastBase := bases[c.plan[i].name := base]))
    {
    }

    lemma OnlySaved(u: World, v: World, v': World)
      requires OnlyPlan(u, v) && v' == v.(saved := v'.saved)
      ensures OnlyPlan(u, v')
    {
    }

    lemma AllOnTrack()
      requires TxInv(c, tx, w) && tx.current >= |c.plan| && (tx.stage.Planned? || tx.stage.Rebasing?)
      ensures tx.current == |c.plan| && tx.stage.Planned?
      ensures OnTrack(c, tx, w) ==> |tx.newBase| == |c.plan| && AllDescend(c, tx.newBase, w.refs)
    {
    }

    /** Only the plan's branches moved, only its last bases were recorded, and nothing was pushed unasked. */
    ghost predicate OnlyPlan(v: World, v': World) {
      && (forall b :: b in v.refs.Keys + v'.refs.Keys && (forall i :: 0 <= i < |c.plan| ==> c.plan[i].branch != b) ==>
            b in v.refs && b in v'.refs && v'.refs[b] == v.refs[b])
      && (forall n :: n in v.lastBase.Keys + v'.lastBase.Keys && (forall i :: 0 <= i < |c.plan| ==> c.plan[i].name != n)
            ==> n in v.lastBase && n in v'.lastBase && v'.lastBase[n] == v.lastBase[n])
      && (!c.push ==> v'.sent == v.sent && v'.pushes == v.pushes)
    }

    /** Publication stopped and the file says so, with every push that succeeded recorded. */
    ghost predicate PublishHalted()
      reads this
    {
      w.saved == Some(tx) && c.push && (tx.stage.Publishing? || tx.stage.Completed?)
    }

    // ---------- finalization ----------

    /** Every entry's branch contains the destination it was rebased onto, read from the repository. */
    method VerifyAll() returns (ok: bool)
      requires Live()
      ensures ok ==> AllDescend(c, tx.newBase, w.refs)
      ensures (smooth || calm) && AllDescend(c, tx.newBase, w.refs) ==> ok
    {
      for i := 0 to |c.plan|
        invariant forall k: nat :: k < i ==> Descends(c, tx.newBase, w.refs, k)
      {
        assert AllDescend(c, tx.newBase, w.refs) ==> Descends(c, tx.newBase, w.refs, i);
        ok := IsAncestorOf(tx.newBase[i], c.plan[i].branch);
        if !ok { return; }
      }
      return true;
    }

    /** The last-base commits to record: every entry's destination, which its branch contains. */
    method Destinations() returns (ok: bool, bases: map<Name, Commit>)
      requires Live()
      ensures ok ==> Recorded(c, tx.newBase, bases)
      ensures ok ==> OnlyPlan(w, w.(lastBase := bases))
      ensures (smooth || calm) && AllDescend(c, tx.newBase, w.refs) ==> ok
    {
      bases := w.lastBase;
      Unmoved(w);
      hide OnlyPlan, IsAncestor;
      for i := 0 to |c.plan|
        invariant OnlyPlan(w, w.(lastBase := bases))
        invariant forall k: nat :: k < i ==> c.plan[k].name in bases && bases[c.plan[k].name] == tx.newBase[k]
      {
        assert AllDescend(c, tx.newBase, w.refs) ==> Descends(c, tx.newBase, w.refs, i);
        ok := IsAncestorOf(tx.newBase[i], c.plan[i].branch);
        if !ok { return; }
        OnlyBase(bases, i, tx.newBase[i]);
        bases := bases[c.plan[i].name := tx.newBase[i]];
      }
      return true, bases;
    }

    method RecordDestinations() returns (ok: bool)
      requires Live() && tx.stage.Planned? && tx.current == |c.plan| && w.rebasing.None?
      modifies this
      ensures Live() && tx == old(tx) && w.rebasing.None?
      ensures ok ==> Recorded(c, tx.newBase, w.lastBase)
      ensures w == old(w).(saved := w.saved, lastBase := w.lastBase) && OnlyPlan(old(w), w)
      ensures (smooth || calm) && AllDescend(c, tx.newBase, w.refs) ==> ok
    {
      var bases;
      ok, bases := Destinations();
      if !ok { return; }
      var written := Chance();
      if written { w := w.(lastBase := bases); }
      assert Live() by { DestinationsOnly(old(w)); }
      var reported := Chance();
      ok := written && reported;
      if !ok { var _ := Save(); }
    }

    lemma DestinationsOnly(v: World)
      requires Inv(c, v) && v.saved.Some? && TxInv(c, tx, v) && v.saved.value.published <= tx.published
      requires tx.stage.Planned? && tx.current == |c.plan|
      requires w == v.(lastBase := w.lastBase)
      requires w.lastBase == v.lastBase || Recorded(c, tx.newBase, w.lastBase)
      ensures Live()
    {
      var s := v.saved.value;
      if Finalizing(s.stage) {
        forall i: nat | i < |c.plan| ensures s.newBase[i] == tx.newBase[i] {
          assert BaseFixed(c, s.newBase, v.refs, i) && BaseFixed(c, tx.newBase, v.refs, i);
        }
      }
    }

    /** `restoreSyncOriginal`. */
    method Restore() returns (ok: bool)
      requires Live()
      modifies this`w
      ensures Live() && w == old(w).(head := w.head, saved := w.saved, restored := w.restored)
      ensures ok ==> w.head == Some(c.original) && w.restored && w.saved == Some(tx)
      ensures smooth || calm ==> ok
    {
      var recorded := Save();
      if !recorded { return false; }
      ok := Switch(c.original);
      if !ok { return; }
      w := w.(restored := true);
      ok := Save();
    }

    /** `finalizeTransaction`. */
    method Finalize() returns (ok: bool)
      requires Live() && tx.stage.Planned? && tx.current == |c.plan| && tx.pending.None? && w.rebasing.None?
      modifies this
      ensures Inv(c, w)
      ensures ok ==> w.finished
      ensures smooth && old(AllDescend(c, tx.newBase, w.refs)) ==> ok
      ensures calm && old(AllDescend(c, tx.newBase, w.refs)) ==> ok || PublishHalted()
      ensures ok ==> w.head == Some(c.original)
      ensures OnlyPlan(old(w), w)
    {
      hide Inv, TxInv, AllDescend, Recorded, OnlyPlan;
      ok := Settle();
      if !ok { return; }
      ghost var before := w;
      ok := Deliver();
      OnlyDelivered(old(w), before, w);
    }

    lemma OnlyDelivered(u: World, v: World, v': World)
      requires OnlyPlan(u, v) && (!c.push ==> v'.sent == v.sent && v'.pushes == v.pushes)
      requires v' == v.(saved := v'.saved, sent := v'.sent, pushes := v'.pushes, finished := v'.finished)
      ensures OnlyPlan(u, v')
    {
    }

    /** Destinations recorded, everything verified, HEAD put back. */
    method Settle() returns (ok: bool)
      requires Live() && tx.stage.Planned? && tx.current == |c.plan| && tx.pending.None? && w.rebasing.None?
      modifies this
      ensures Live()
      ensures ok ==> tx.stage.Restoring? && w.restored && w.head == Some(c.original)
      ensures (smooth || calm) && old(AllDescend(c, tx.newBase, w.refs)) ==> ok
      ensures OnlyPlan(old(w), w)
    {
      ok := RecordDestinations();
      if !ok { return; }
      ok := VerifyAll();
      if !ok { return; }
      tx := tx.(stage := Restoring);
      ghost var before := w;
      var _ := Save();
      ok := Restore();
      if !ok { var _ := Save(); }
      OnlyRestored(old(w), before, w);
    }

    lemma OnlyRestored(u: World, v: World, v': World)
      requires OnlyPlan(u, v) && v' == v.(saved := v'.saved, head := v'.head, restored := v'.restored)
      ensures OnlyPlan(u, v')
    {
    }

    /** Publication, if asked for, and the end of the transaction. */
    method Deliver() returns (ok: bool)
      requires Live() && tx.stage.Restoring? && w.restored
      modifies this
      ensures Inv(c, w)
      ensures ok ==> w.finished
      ensures smooth ==> ok
      ensures calm ==> ok || PublishHalted()
      ensures w == old(w).(saved := w.saved, sent := w.sent, pushes := w.pushes, finished := w.finished)
      ensures !c.push ==> w.sent == old(w.sent) && w.pushes == old(w.pushes)
    {
      if c.push {
        tx := tx.(stage := Publishing);
        ok := Save();
        if !ok { return; }
        ok := PublishAll();
        if !ok { return; }
        ok := PersistClears();
        if !ok { return; }
      }
      ok := FinalizeCleanup();
    }

    method PersistClears() returns (ok: bool)
      requires Live() && (tx.stage.Publishing? || tx.stage.Completed?)
      modifies this
      ensures Live() && tx == old(tx).(stage := tx.stage) && (tx.stage.Publishing? || tx.stage.Completed?)
      ensures ok ==> tx == old(tx)
      ensures smooth || calm ==> ok
      ensures w == old(w).(saved := w.saved)
    {
      ok := Chance();
      if !ok {
        tx := tx.(stage := Completed);
        var _ := Save();
      }
    }

    /** Pushes every entry not recorded as published, recording each result before the next. */
    method PublishAll() returns (ok: bool)
      requires Live() && (tx.stage.Publishing? || tx.stage.Completed?)
      modifies this
      ensures Live() && tx == old(tx).(published := tx.published)
      ensures ok ==> forall i: nat :: i < |c.plan| ==> c.plan[i].name in tx.published
      ensures smooth ==> ok
      ensures calm && !ok ==> w.saved == Some(tx)
      ensures calm && old(forall i: nat :: i < |c.plan| ==> c.plan[i].name in tx.published) ==> ok
      ensures w == old(w).(saved := w.saved, sent := w.sent, pushes := w.pushes)
    {
      ok := Chance();
      if !ok {
        var _ := Save();
        return;
      }
      for i := 0 to |c.plan|
        invariant Live() && tx == old(tx).(published := tx.published) && old(tx.published) <= tx.published
        invariant w == old(w).(saved := w.saved, sent := w.sent, pushes := w.pushes)
        invariant forall k: nat :: k < i ==> c.plan[k].name in tx.published
      {
        if c.plan[i].name in tx.published { continue; }
        ok := PublishOne(i);
        if !ok { return; }
      }
      return true;
    }

    method PublishOne(i: nat) returns (ok: bool)
      requires Live() && (tx.stage.Publishing? || tx.stage.Completed?)
      requires i < |c.plan| && c.plan[i].name !in tx.published
      modifies this
      ensures Live() && tx == old(tx).(published := tx.published) && old(tx.published) <= tx.published
      ensures ok ==> c.plan[i].name in tx.published && w.saved == Some(tx) && IsSent(c, w.refs, w.sent, i)
      ensures smooth ==> ok
      ensures calm && !ok ==> w.saved == Some(tx)
      ensures w == old(w).(saved := w.saved, sent := w.sent, pushes := w.pushes)
    {
      var prepared := Chance();
      if !prepared { return false; }
      ok := Save();
      if !ok { return; }
      var pushed := GitPush(i);
      if pushed {
        tx := tx.(published := tx.published + {c.plan[i].name});
        assert Live() by {
          forall k: nat | k < |c.plan| && c.plan[k].name in tx.published ensures IsSent(c, w.refs, w.sent, k) {}
        }
      }
      ok := Save();
      ok := ok && pushed;
    }

    method GitPush(i: nat) returns (ok: bool)
      requires Live() && (tx.stage.Publishing? || tx.stage.Completed?)
      requires i < |c.plan| && c.plan[i].name !in tx.published
      modifies this`w
      ensures Live() && w == old(w).(sent := w.sent, pushes := w.pushes)
      ensures w.pushes == old(w.pushes) + [(c.plan[i].name, w.saved.value.published)]
      ensures ok ==> IsSent(c, w.refs, w.sent, i)
      ensures smooth ==> ok
    {
      assert Descends(c, tx.newBase, w.refs, i);
      var b := c.plan[i].branch;
      w := w.(pushes := w.pushes + [(c.plan[i].name, w.saved.value.published)]);
      var accepted := Luck();
      if accepted { w := w.(sent := w.sent[b := w.refs[b]]); }
      assert Live() by {
        assert forall k: nat :: k < |c.plan| && IsSent(c, old(w.refs), old(w.sent), k) ==> IsSent(c, w.refs, w.sent, k);
      }
      var reported := Chance();
      ok := accepted && reported;
    }

    /** `finalizeCleanup`: retries pending pushes, then deletes the transaction. */
    method FinalizeCleanup() returns (ok: bool)
      requires Live() && Finalizing(tx.stage) && w.restored
      requires c.push ==> tx.stage.Publishing? || tx.stage.Completed?
      modifies this
      ensures Inv(c, w)
      ensures ok ==> w.finished
      ensures smooth ==> ok
      ensures calm && !ok ==> c.push && w.saved == Some(tx) && tx.stage == old(tx.stage)
      ensures calm && old(forall i: nat :: i < |c.plan| ==> c.plan[i].name in tx.published) ==> ok
      ensures w == old(w).(saved := w.saved, sent := w.sent, pushes := w.pushes, finished := w.finished)
      ensures !c.push ==> w.sent == old(w.sent) && w.pushes == old(w.pushes)
    {
      if (tx.stage.Completed? || tx.stage.Publishing?) && c.push {
        ok := PublishAll();
        if !ok { return; }
        var cleared := Chance();
        if !cleared {
          var _ := Save();
          return false;
        }
      }
      tx := tx.(stage := Completed, cleaning := true);
      assert c.push ==> AllSent(c, w);
      ok := Complete();
    }

    /** `CompleteSyncTransaction` and the removal of the transaction file. */
    method Complete() returns (ok: bool)
      requires Live() && tx.cleaning
      modifies this
      ensures Inv(c, w)
      ensures ok ==> w.finished
      ensures smooth || calm ==> ok
      ensures w == old(w).(saved := w.saved, finished := w.finished)
    {
      ok := Save();
      if !ok { return; }
      var removed := Chance();
      if !removed { return false; }
      w := w.(saved := None, finished := true);
      assert Outcome(c, w) by { CleanIsDone(old(w), w); }
      ok := Chance();
    }

    lemma CleanIsDone(v: World, v': World)
      requires TxInv(c, tx, v) && tx.cleaning
      requires v' == v.(saved := None, finished := true)
      ensures Outcome(c, v') && v.rebasing.None?
    {
      forall i: nat | i < |c.plan| ensures EntryDone(c, v'.refs, v'.lastBase, i) {
        assert BaseFixed(c, tx.newBase, v.refs, i) && Descends(c, tx.newBase, v.refs, i);
      }
    }

    // ---------- resuming ----------

    /** The process stopped where the file says it did. */
    ghost predicate Halted()
      reads this
    {
      EntryHalted() || RebaseHalted() || PublishHalted()
    }

    /** `resumeFromSwitched`. */
    method ResumeFromSwitched() returns (ok: bool)
      requires Live() && tx.stage.Switched? && tx.pending.None?
      requires w.head.Some? ==> Harmless(c, tx.current, w.head.value)
      modifies this
      ensures Inv(c, w)
      ensures ok ==> w.finished
      ensures smooth && old(OnTrack(c, tx, w) && w.head == Some(c.plan[tx.current].branch)) ==> ok
      ensures calm && old(OnTrack(c, tx, w) && w.head == Some(c.plan[tx.current].branch)) ==> ok || Halted()
      ensures ok ==> w.head == Some(c.original)
    {
      assert Working() && !tx.cleaning;
      hide Inv, TxInv, OnTrack, EntryDescends, Harmless, IsAncestor, SameExcept;
      var admitted := Chance();
      if !admitted { return false; }
      ok := DoRebase();
      var recorded := CompleteAction();
      if !ok || !recorded { return false; }
      ok := ResumeFromRebased();
    }

    /** `resumeFromRebased`. */
    method ResumeFromRebased() returns (ok: bool)
      requires Working() && tx.stage.Rebased? && tx.pending.None?
      modifies this
      ensures Inv(c, w)
      ensures ok ==> w.finished
      ensures smooth && old(OnTrack(c, tx, w) && EntryDescends(c, tx, w)) ==> ok
      ensures calm && old(OnTrack(c, tx, w) && EntryDescends(c, tx, w)) ==> ok || Halted()
      ensures ok ==> w.head == Some(c.original)
    {
      ok := IsAncestorOf(tx.newBase[tx.current], c.plan[tx.current].branch);
      if !ok {
        var _ := Save();
        return;
      }
      ok := Validate();
      if !ok { return; }
      ok := Advance();
      if !ok { return; }
      ok := Execute();
    }

    /** `resumeFromValidating`: the ancestry of the entry is not looked at again here. */
    method ResumeFromValidating() returns (ok: bool)
      requires Working() && tx.stage.Validating? && tx.pending.None?
      modifies this
      ensures Inv(c, w)
      ensures ok ==> w.finished
      ensures smooth && old(OnTrack(c, tx, w) && EntryDescends(c, tx, w)) ==> ok
      ensures calm && old(OnTrack(c, tx, w) && EntryDescends(c, tx, w)) ==> ok || Halted()
      ensures ok ==> w.head == Some(c.original)
    {
      if c.test {
        ok := RunValidation();
        if !ok { return; }
      }
      ok := Advance();
      if !ok { return; }
      ok := Execute();
    }

    method ResumeFromConflict() returns (ok: bool)
      requires Live() && tx.stage.Conflict? && (w.rebasing.None? ==> tx.pending.None?)
      modifies this
      ensures Inv(c, w)
      ensures ok ==> w.finished
      ensures smooth && old(OnTrack(c, tx, w) && EntryDescends(c, tx, w) && w.rebasing.None?) ==> ok
      ensures calm && old(OnTrack(c, tx, w) && EntryDescends(c, tx, w) && w.rebasing.None?) ==> ok || Halted()
      ensures ok ==> w.head == Some(c.original)
      ensures old(w.rebasing.Some?) ==> !ok && w == old(w) && tx == old(tx)
    {
      if w.rebasing.Some? { return false; }
      ok := IsAncestorOf(tx.newBase[tx.current], c.plan[tx.current].branch);
      if !ok { return; }
      var post := ResolveRef(c.plan[tx.current].branch);
      if post.None? { return false; }
      tx := tx.(post := tx.post[tx.current := post], stage := Rebased);
      ok := Save();
      if !ok { return; }
      ok := ResumeFromRebased();
    }

    /** `resumeFromRestoring`. */
    method ResumeFromRestoring() returns (ok: bool)
      requires Live() && tx.stage.Restoring?
      modifies this
      ensures Inv(c, w)
      ensures ok ==> w.finished
      ensures smooth ==> ok
      ensures calm ==> ok || Halted()
      ensures ok ==> w.head == Some(c.original)
    {
      ok := Restore();
      if !ok {
        var _ := Save();
        return;
      }
      if c.push {
        tx := tx.(stage := Publishing);
        ok := Save();
        if !ok { return; }
      }
      ok := FinalizeCleanup();
    }

    /** `resumeTransaction`. */
    method Resume() returns (ok: bool)
      requires Live() && (w.rebasing.None? ==> tx.pending.None?)
      requires tx.stage.Switched? && w.head.Some? ==> Harmless(c, tx.current, w.head.value)
      modifies this
      ensures Inv(c, w)
      ensures ok ==> w.finished
      ensures smooth && old(ReadyToResume(c, tx, w)) ==> ok
      ensures calm && old(ReadyToResume(c, tx, w)) ==> ok || Halted()
      ensures ok && !old(tx.stage.Publishing? || tx.stage.Completed?) ==> w.head == Some(c.original)
      ensures old(w.rebasing.Some?) ==>
                !ok && tx == old(tx).(stage := Conflict) && (w == old(w) || w == old(w).(saved := Some(tx)))
      ensures calm && old(w.rebasing.Some? && w.saved == Some(tx)) ==> w.saved == Some(tx)
    {
      if tx.stage.Conflict? {
        ok := ResumeFromConflict();
      } else if tx.stage.Switched? {
        ok := ResumeFromSwitched();
      } else if tx.stage.Rebased? {
        ok := ResumeFromRebased();
      } else if tx.stage.Validating? {
        ok := ResumeFromValidating();
      } else if tx.stage.Restoring? {
        ok := ResumeFromRestoring();
      } else if tx.stage.Planned? || tx.stage.Rebasing? {
        if w.rebasing.Some? {
          tx := tx.(stage := Conflict);
          var _ := Save();
          return false;
        }
        ok := Execute();
      } else {
        ok := FinalizeCleanup();
      }
    }

    /** Settles the action left pending by an earlier process: unchanged branches mean the entry is tried
        again, a finished rebase is adopted. */
    method Reconcile() returns (ok: bool)
      requires Live() && (tx.pending.Some? ==> w.rebasing.None?)
      modifies this
      ensures Live() && w == old(w).(saved := w.saved)
      ensures ok ==> tx.pending.None?
      ensures ok && tx.stage.Switched? ==> old(tx.stage.Switched? && tx.pending.None?) && tx.current == old(tx.current)
      ensures (smooth || calm) && old(ReadyToContinue(c, tx, w)) ==> ok && ReadyToResume(c, tx, w)
      ensures ok && old(tx.pending.Some? && w.rebasing.None?) ==>
                if w.refs == old(tx).pending.value.before
                then tx == old(tx).(pending := None, stage := Planned) && w.saved == Some(tx)
                else if tx.current < |c.plan| && old(tx.stage.Rebasing? || tx.stage.Switched?)
                then && c.plan[tx.current].branch in w.refs && w.saved == Some(tx)
                     && tx == old(tx).(pending := None, stage := Rebased,
                                       post := tx.post[tx.current := Some(w.refs[c.plan[tx.current].branch])])
                else tx == old(tx).(pending := None) && w.saved == Some(tx)
      ensures old(tx.pending.None? || w.rebasing.Some?) ==> tx == old(tx) && w == old(w)
      ensures old(tx.pending.None?) ==> ok
    {
      var pending := tx.pending;
      ok := CompleteAction();
      if !ok || pending.None? { return; }
      if w.refs == pending.value.before {
        tx := tx.(stage := Planned);
        ok := Save();
      } else if tx.current < |c.plan| && (tx.stage.Rebasing? || tx.stage.Switched?) {
        var post := ResolveRef(c.plan[tx.current].branch);
        if post.None? { return false; }
        tx := tx.(post := tx.post[tx.current := post], stage := Rebased);
        ok := Save();
      }
    }

    method Load()
      requires Inv(c, w) && w.saved.Some?
      modifies this`tx
      ensures Live() && tx == w.saved.value
    {
      tx := w.saved.value;
    }

    /** `ContinueCheckoutSync`: a new process takes the transaction over from the file. */
    method Continue() returns (ok: bool)
      requires Inv(c, w) && SwitchSafe(c, w)
      modifies this
      ensures Inv(c, w)
      ensures ok ==> w.finished
      ensures smooth && old(w.saved.Some? && (w.saved.value.cleaning || ReadyToContinue(c, w.saved.value, w))) ==> ok
      ensures calm && old(w.saved.Some? && (w.saved.value.cleaning || ReadyToContinue(c, w.saved.value, w))) ==>
                ok || Halted()
      ensures ok && old(w.saved.Some? && !w.saved.value.stage.Publishing? && !w.saved.value.stage.Completed?) ==>
                w.head == Some(c.original)
      ensures old(w.rebasing.Some?) ==>
                !ok && (w == old(w) || w == old(w).(saved := Some(old(w).saved.value.(stage := Conflict))))
      ensures calm && old(w.rebasing.Some?) ==> w.saved.Some? && w.saved.value.stage.Conflict?
      ensures old(w.saved.None?) ==> !ok && w == old(w)
    {
      if w.saved.None? { return false; }
      Load();
      var admitted := Chance();
      if !admitted { return false; }
      if tx.cleaning {
        assert w.rebasing.None?;
        ok := Complete();
        return;
      }
      if tx.pending.None? || w.rebasing.None? {
        ok := Reconcile();
        if !ok { return; }
      }
      admitted := Chance();
      if !admitted { return false; }
      ok := Resume();
    }

    /** The transactional part of `RunCheckoutSync`, for a plan whose bases were resolved to `newBase`. */
    method Begin(newBase: seq<Commit>) returns (ok: bool)
      requires Inv(c, w) && |newBase| == |c.plan|
      modifies this
      ensures Inv(c, w)
      ensures ok ==> w.finished || |c.plan| == 0
      ensures smooth && old(w.saved.None? && AllResolve(c, w.refs)) ==> ok
      ensures calm && old(w.saved.None? && AllResolve(c, w.refs)) ==> ok || EntryHalted() || PublishHalted()
      ensures ok && |c.plan| > 0 ==> w.head == Some(c.original)
      ensures OnlyPlan(old(w), w)
    {
      if w.saved.Some? || w.rebasing.Some? { return false; }
      if |c.plan| == 0 { return true; }
      ok := Start(newBase);
      if !ok { return; }
      ok := Execute();
    }

    /** The first save of a new transaction. */
    method Start(newBase: seq<Commit>) returns (ok: bool)
      requires Inv(c, w) && |newBase| == |c.plan| && w.saved.None?
      modifies this
      ensures Inv(c, w)
      ensures ok ==> Live() && tx == Tx(Planned, 0, [], newBase, seq(|c.plan|, _ => None), None, {}, false)
      ensures ok ==> w == old(w).(saved := Some(tx), restored := false, finished := false)
      ensures w == old(w).(saved := w.saved, restored := w.restored, finished := w.finished)
      ensures smooth || calm ==> ok
    {
      tx := Tx(Planned, 0, [], newBase, seq(|c.plan|, _ => None), None, {}, false);
      var written := Chance();
      if !written { return false; }
      w := w.(saved := Some(tx), restored := false, finished := false);
      ok := Chance();
    }

    /** Any history: new runs from whatever their bases resolve to, continuations, processes dying anywhere inside
        them, and operators acting in between.  Whatever happens, the invariant holds, so a finished run has its
        outcome. */
    method Drive(rounds: nat)
      requires Inv(c, w)
      modifies this
      ensures Inv(c, w)
    {
      for k := 0 to rounds
        invariant Inv(c, w)
      {
        var next: World := *;
        var choice: int := *;
        if OperatorStep(c, w, next) {
          OperatorKeepsInv(c, w, next);
          w := next;
        } else if choice == 0 {
          var newBase: seq<Commit> := *;
          if |newBase| == |c.plan| {
            var _ := Begin(newBase);
          }
        } else if SwitchSafe(c, w) {
          var _ := Continue();
        }
      }
    }
  }

  /** The switched window is reached: a run completes its first entry and stops after it saved `switched` for the
      second, before the switch; the process that takes over closes the pending action and stops too. */
  method ReachWindow() returns (w: World)
    ensures InWindow(w)
  {
    var first := StopBeforeSwitch();
    var second := new Run(WINDOW_CONFIG, true, true, first.w);
    second.Load();
    hide Inv, TxInv;
    var _ := second.CompleteAction();
    w := second.w;
  }

  /** A process that stops before its second switch. */
  method StopBeforeSwitch() returns (run: Run)
    ensures Inv(WINDOW_CONFIG, run.w) && run.w.saved.Some? && run.w.refs == WINDOW_REFS
    ensures run.w.head == Some("a") && run.w.rebasing.None?
    ensures var s := run.w.saved.value;
            && s.stage.Switched? && s.current == 1 && s.newBase == [WINDOW_MAIN, WINDOW_A]
            && s.pending == Some(Action("b", WINDOW_REFS))
  {
    run := CompleteFirst();
    hide Inv, TxInv;
    var ok := run.ResolveBase();
    ok := run.BeginAction();
    ok := run.RecordSwitch();
  }

  /** The first entry of a smooth run over a stack that is up to date. */
  method CompleteFirst() returns (run: Run)
    ensures fresh(run) && run.c == WINDOW_CONFIG && run.smooth && run.Working()
    ensures run.w.refs == WINDOW_REFS && run.w.head == Some("a") && run.tx.stage.Planned?
    ensures run.tx.current == 1 && run.tx.newBase == [WINDOW_MAIN, WINDOW_A] && run.tx.pending.None?
  {
    var before := World(None, WINDOW_REFS, Some("main"), None, map[], {}, false, map[], [], false);
    run := new Run(WINDOW_CONFIG, true, true, before);
    var ok := run.Start([WINDOW_MAIN, WINDOW_A]);
    WindowOnTrack(run.tx, run.w);
    hide Inv, TxInv, OnTrack, IsAncestor;
    ok := run.ProcessBranch();
    ok := run.Advance();
  }

  lemma WindowOnTrack(s: Tx, w: World)
    requires s.current == 0 && |s.newBase| == 2 && w.refs == WINDOW_REFS
    ensures OnTrack(WINDOW_CONFIG, s, w)
    ensures IsAncestor(WINDOW_MAIN, WINDOW_A)
  {
    assert IsAncestor(WINDOW_MAIN, WINDOW_A.parents[0]);
  }
}
