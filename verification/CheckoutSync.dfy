/** The checkout-sync transaction: the states it may persist, the invariant over them and Git,
    and the theorems about finished runs. */
module CheckoutSync {
  import opened Options

  type Name = string
  type Branch = string

  datatype Commit = Commit(id: nat, parents: seq<Commit>)

  /** `git merge-base --is-ancestor`. */
  predicate IsAncestor(a: Commit, d: Commit)
    decreases d
  {
    a == d || exists k :: 0 <= k < |d.parents| && IsAncestor(a, d.parents[k])
  }

  datatype Entry = Entry(name: Name, branch: Branch, base: Branch)

  datatype Stage =
    Planned | Switched | Rebasing | Conflict | Rebased | Validating | Restoring | Publishing | Completed

  datatype Config = Config(plan: seq<Entry>, original: Branch, push: bool, test: bool)

  /** A Git action recorded before it runs: the one branch it may move and the branch image before it. */
  datatype Action = Action(branch: Branch, before: map<Branch, Commit>)

  /** The transaction file.  `pending` is the last Git action while its result is not recorded.
      `cleaning` is the journal's cleanup phase. */
  datatype Tx = Tx(
    stage: Stage, current: nat, completed: seq<nat>, newBase: seq<Commit>, post: seq<Option<Commit>>,
    pending: Option<Action>, published: set<Name>, cleaning: bool)

  /** Everything that survives the process: the transaction file, the repository, the recorded
      last-base commits, and as history the entries whose validation passed, whether HEAD was put back,
      the pushes that succeeded (`sent`), each push attempt with the entries the file recorded as
      published at that moment, and whether a run has finished. */
  datatype World = World(
    saved: Option<Tx>, refs: map<Branch, Commit>, head: Option<Branch>, rebasing: Option<Branch>,
    lastBase: map<Name, Commit>, validated: set<Name>, restored: bool,
    sent: map<Branch, Commit>, pushes: seq<(Name, set<Name>)>, finished: bool)

  /** Distinct names and branches, and no entry is based on itself or on a later entry. */
  ghost predicate WellOrdered(plan: seq<Entry>) {
    && (forall i, j :: 0 <= i < j < |plan| ==> plan[i].name != plan[j].name && plan[i].branch != plan[j].branch)
    && (forall i, j :: 0 <= i <= j < |plan| ==> plan[i].base != plan[j].branch)
  }

  // ---------- the invariant ----------

  function UpTo(n: nat): (s: seq<nat>)
    ensures |s| == n
    ensures forall i :: 0 <= i < n ==> s[i] == i
  {
    if n == 0 then [] else UpTo(n - 1) + [n - 1]
  }

  predicate Active(s: Stage) {
    s.Switched? || s.Rebasing? || s.Conflict? || s.Rebased? || s.Validating?
  }

  predicate Finalizing(s: Stage) {
    s.Restoring? || s.Publishing? || s.Completed?
  }

  /** The bookkeeping of one transaction state. */
  ghost predicate Book(c: Config, s: Tx) {
    && |s.newBase| == |c.plan| && |s.post| == |c.plan|
    && s.current <= |c.plan|
    && s.completed == UpTo(s.current)
    && (Active(s.stage) ==> s.current < |c.plan|)
    && (Finalizing(s.stage) ==> s.current == |c.plan| && s.pending.None?)
    && (s.cleaning ==> s.stage.Completed?)
    && (s.published != {} ==> s.stage.Publishing? || s.stage.Completed?)
  }

  /** Entry `i`'s base still has the tip that was resolved for it. */
  ghost predicate BaseFixed(c: Config, newBase: seq<Commit>, refs: map<Branch, Commit>, i: nat)
    requires i < |c.plan| == |newBase|
  {
    c.plan[i].base in refs && refs[c.plan[i].base] == newBase[i]
  }

  ghost predicate BasesFixed(c: Config, s: Tx, refs: map<Branch, Commit>)
    requires |c.plan| == |s.newBase|
  {
    forall i: nat :: i < |c.plan| && (i < s.current || (i == s.current && Active(s.stage))) ==>
      BaseFixed(c, s.newBase, refs, i)
  }

  ghost predicate Descends(c: Config, newBase: seq<Commit>, refs: map<Branch, Commit>, i: nat)
    requires i < |c.plan| == |newBase|
  {
    c.plan[i].branch in refs && IsAncestor(newBase[i], refs[c.plan[i].branch])
  }

  ghost predicate AllDescend(c: Config, newBase: seq<Commit>, refs: map<Branch, Commit>)
    requires |c.plan| == |newBase|
  {
    forall i: nat :: i < |c.plan| ==> Descends(c, newBase, refs, i)
  }

  ghost predicate Recorded(c: Config, newBase: seq<Commit>, lastBase: map<Name, Commit>)
    requires |c.plan| == |newBase|
  {
    forall i: nat :: i < |c.plan| ==> c.plan[i].name in lastBase && lastBase[c.plan[i].name] == newBase[i]
  }

  /** Rewriting branch `b` moves no base that an entry up to the current one was resolved against. */
  predicate Harmless(c: Config, current: nat, b: Branch) {
    forall i: nat | i < |c.plan| && i <= current :: c.plan[i].base != b
  }

  /** A rebase in progress was started by this run, for the current entry. */
  ghost predicate RebaseOwned(c: Config, s: Tx, rebasing: Option<Branch>) {
    rebasing.Some? ==>
      s.current < |c.plan| && (s.stage.Rebasing? || s.stage.Conflict?) && Harmless(c, s.current, rebasing.value)
  }

  ghost predicate IsSent(c: Config, refs: map<Branch, Commit>, sent: map<Branch, Commit>, i: nat)
    requires i < |c.plan|
  {
    var b := c.plan[i].branch;
    b in refs && b in sent && sent[b] == refs[b]
  }

  ghost predicate PublishedSent(c: Config, s: Tx, w: World) {
    forall i: nat :: i < |c.plan| && c.plan[i].name in s.published ==> IsSent(c, w.refs, w.sent, i)
  }

  ghost predicate AllSent(c: Config, w: World) {
    forall i: nat :: i < |c.plan| ==> IsSent(c, w.refs, w.sent, i)
  }

  ghost predicate Validated(c: Config, current: nat, validated: set<Name>) {
    forall i: nat :: i < |c.plan| && i < current ==> c.plan[i].name in validated
  }

  ghost predicate TxInv(c: Config, s: Tx, w: World) {
    && Book(c, s)
    && BasesFixed(c, s, w.refs)
    && RebaseOwned(c, s, w.rebasing)
    && (Finalizing(s.stage) ==> AllDescend(c, s.newBase, w.refs) && Recorded(c, s.newBase, w.lastBase))
    && (c.test ==> Validated(c, s.current, w.validated))
    && (s.stage.Publishing? || s.stage.Completed? ==> w.restored)
    && PublishedSent(c, s, w)
    && (s.cleaning && c.push ==> AllSent(c, w))
  }

  /** Entry `i` stands on the final tip of its base, and the stack file says so. */
  ghost predicate EntryDone(c: Config, refs: map<Branch, Commit>, lastBase: map<Name, Commit>, i: nat)
    requires i < |c.plan|
  {
    var e := c.plan[i];
    && e.base in refs && e.branch in refs && IsAncestor(refs[e.base], refs[e.branch])
    && e.name in lastBase && lastBase[e.name] == refs[e.base]
  }

  /** What a finished run leaves behind: every entry done, and validated and its final tip pushed
      when that was requested, and HEAD put back before the last of it. */
  ghost predicate Outcome(c: Config, w: World) {
    && (forall i: nat :: i < |c.plan| ==> EntryDone(c, w.refs, w.lastBase, i))
    && (c.test ==> Validated(c, |c.plan|, w.validated))
    && w.restored
    && (c.push ==> AllSent(c, w))
  }

  /** No entry is pushed once the file records it as published. */
  ghost predicate NeverAgain(w: World) {
    forall k :: 0 <= k < |w.pushes| ==> w.pushes[k].0 !in w.pushes[k].1
  }

  ghost predicate Inv(c: Config, w: World) {
    && WellOrdered(c.plan)
    && NeverAgain(w)
    && (w.saved.Some? ==> !w.finished && TxInv(c, w.saved.value, w))
    && (w.saved.None? ==> w.rebasing.None?)
    && (w.finished ==> Outcome(c, w))
  }

  // ---------- between invocations ----------

  predicate SameExcept(r: map<Branch, Commit>, r': map<Branch, Commit>, b: Option<Branch>) {
    forall x | x in r.Keys + r'.Keys && b != Some(x) :: x in r && x in r' && r[x] == r'[x]
  }

  function CurrentBranch(c: Config, w: World): Option<Branch> {
    if w.saved.Some? && w.saved.value.current < |c.plan| then Some(c.plan[w.saved.value.current].branch) else None
  }

  /** What the operator may do while no invocation runs: switch branches, finish or abort the rebase
      that stopped, and move or delete the branch of the entry being processed. */
  predicate OperatorStep(c: Config, w: World, w': World) {
    && w' == w.(refs := w'.refs, head := w'.head, rebasing := w'.rebasing)
    && (|| (w'.rebasing == w.rebasing && SameExcept(w.refs, w'.refs, CurrentBranch(c, w)))
        || (w'.rebasing.None? && w.rebasing.Some? && SameExcept(w.refs, w'.refs, w.rebasing)))
  }

  lemma OperatorKeepsInv(c: Config, w: World, w': World)
    requires Inv(c, w) && OperatorStep(c, w, w')
    ensures Inv(c, w')
  {
    if CurrentBranch(c, w).None? && w.rebasing.None? {
      assert w'.refs == w.refs;
    }
    if w.saved.Some? {
      var s := w.saved.value;
      forall i: nat | i < |c.plan| && (i < s.current || (i == s.current && Active(s.stage)))
        ensures BaseFixed(c, s.newBase, w'.refs, i)
      {
        assert BaseFixed(c, s.newBase, w.refs, i);
      }
    }
  }

  // ---------- what a finished stack looks like ----------

  lemma {:induction false} AncestorTransitive(a: Commit, b: Commit, d: Commit)
    requires IsAncestor(a, b) && IsAncestor(b, d)
    ensures IsAncestor(a, d)
    decreases d
  {
    if b != d {
      var k :| 0 <= k < |d.parents| && IsAncestor(b, d.parents[k]);
      AncestorTransitive(a, b, d.parents[k]);
    }
  }

  /** A way down from `d` to `a`, each commit a parent of the one before. */
  ghost predicate IsPath(p: seq<Commit>, d: Commit, a: Commit) {
    && |p| > 0 && p[0] == d && p[|p| - 1] == a
    && forall i :: 0 <= i < |p| - 1 ==> p[i + 1] in p[i].parents
  }

  /** A commit is an ancestor exactly when some way leads down to it. */
  lemma {:induction false} AncestorIsPath(a: Commit, d: Commit)
    ensures IsAncestor(a, d) <==> exists p :: IsPath(p, d, a)
    decreases d
  {
    if IsAncestor(a, d) {
      if a == d {
        assert IsPath([d], d, a);
      } else {
        var k :| 0 <= k < |d.parents| && IsAncestor(a, d.parents[k]);
        AncestorIsPath(a, d.parents[k]);
        var p :| IsPath(p, d.parents[k], a);
        assert IsPath([d] + p, d, a);
      }
    }
    if exists p :: IsPath(p, d, a) {
      var p: seq<Commit> :| IsPath(p, d, a);
      if |p| > 1 {
        assert p[0 + 1] in p[0].parents;
        var k :| 0 <= k < |d.parents| && d.parents[k] == p[1];
        assert IsPath(p[1..], d.parents[k], a);
        AncestorIsPath(a, d.parents[k]);
      }
    }
  }

  /** Entry `j` is reached from entry `i` by following bases. */
  ghost predicate StackedOn(plan: seq<Entry>, i: nat, j: nat)
    requires i < |plan| && j < |plan|
    decreases i
  {
    i == j || exists k: nat :: k < i && plan[k].branch == plan[i].base && StackedOn(plan, k, j)
  }

  /** In a finished stack every branch contains the final tips of all branches under it,
      and of the base the lowest of them stands on. */
  lemma {:induction false} WholeStackDescends(c: Config, w: World, i: nat, j: nat)
    requires WellOrdered(c.plan) && Outcome(c, w)
    requires i < |c.plan| && j < |c.plan| && StackedOn(c.plan, i, j)
    ensures EntryDone(c, w.refs, w.lastBase, i) && EntryDone(c, w.refs, w.lastBase, j)
    ensures IsAncestor(w.refs[c.plan[j].branch], w.refs[c.plan[i].branch])
    ensures IsAncestor(w.refs[c.plan[j].base], w.refs[c.plan[i].branch])
    decreases i
  {
    assert EntryDone(c, w.refs, w.lastBase, i) && EntryDone(c, w.refs, w.lastBase, j);
    if i != j {
      var k: nat :| k < i && c.plan[k].branch == c.plan[i].base && StackedOn(c.plan, k, j);
      assert EntryDone(c, w.refs, w.lastBase, k);
      WholeStackDescends(c, w, k, j);
      AncestorTransitive(w.refs[c.plan[j].branch], w.refs[c.plan[i].base], w.refs[c.plan[i].branch]);
      AncestorTransitive(w.refs[c.plan[j].base], w.refs[c.plan[i].base], w.refs[c.plan[i].branch]);
    }
  }

  // ---------- consequences for every persisted state ----------

  /** `CompletedIndices` is exactly 0..CurrentIndex-1, an entry in work is a plan entry, and the
      final stages come only after every entry. */
  lemma PersistedBookkeeping(c: Config, w: World)
    requires Inv(c, w) && w.saved.Some?
    ensures var s := w.saved.value;
            && (forall i: nat :: i in s.completed <==> i < s.current)
            && (Active(s.stage) ==> s.current < |c.plan|)
            && (Finalizing(s.stage) ==> s.current == |c.plan|)
  {
    var s := w.saved.value;
    forall i: nat | i < s.current
      ensures i in s.completed
    {
      assert s.completed[i] == i;
    }
  }

  // ---------- when a continuation can succeed ----------

  predicate OthersKept(a: Action, refs: map<Branch, Commit>) {
    SameExcept(a.before, refs, Some(a.branch))
  }

  ghost predicate AllResolve(c: Config, refs: map<Branch, Commit>) {
    forall i: nat :: i < |c.plan| ==> c.plan[i].base in refs && c.plan[i].branch in refs
  }

  /** Every branch resolves, and the completed entries' branches contain their destinations. */
  ghost predicate OnTrack(c: Config, s: Tx, w: World) {
    && s.current <= |c.plan| == |s.newBase|
    && AllResolve(c, w.refs)
    && (forall i: nat :: i < s.current ==> Descends(c, s.newBase, w.refs, i))
  }

  /** The current entry's branch contains its destination. */
  ghost predicate EntryDescends(c: Config, s: Tx, w: World) {
    s.current < |c.plan| == |s.newBase| && Descends(c, s.newBase, w.refs, s.current)
  }

  lemma StillOnTrack(c: Config, s: Tx, w: World, s': Tx, w': World)
    requires WellOrdered(c.plan) && OnTrack(c, s, w) && s.current < |c.plan|
    requires s'.current == s.current && s'.newBase == s.newBase
    requires SameExcept(w.refs, w'.refs, Some(c.plan[s.current].branch)) && w.refs.Keys <= w'.refs.Keys
    ensures OnTrack(c, s', w')
  {
    forall i: nat | i < s.current
      ensures Descends(c, s.newBase, w'.refs, i)
    {
      assert Descends(c, s.newBase, w.refs, i) && c.plan[i].branch in w.refs.Keys + w'.refs.Keys;
    }
  }

  /** What has to be in order for the resume arm of the recorded stage to succeed. */
  ghost predicate ReadyToResume(c: Config, s: Tx, w: World) {
    && OnTrack(c, s, w) && w.rebasing.None?
    && (s.stage.Conflict? || s.stage.Rebased? || s.stage.Validating? ==> EntryDescends(c, s, w))
    && (s.stage.Switched? ==> s.current < |c.plan| && w.head == Some(c.plan[s.current].branch))
  }

  /** The same while an action is pending: one without a trace is tried again, one that moved its branch,
      and no other, has to have brought it onto its destination. */
  ghost predicate ReadyToContinue(c: Config, s: Tx, w: World) {
    if s.pending.None? then ReadyToResume(c, s, w)
    else
      && OnTrack(c, s, w) && w.rebasing.None? && OthersKept(s.pending.value, w.refs)
      && (w.refs == s.pending.value.before || s.stage.Planned? || EntryDescends(c, s, w))
  }

  // ---------- two windows ----------

  /** The switched arm rebases whatever branch HEAD is on.  With no action pending nothing has
      checked that HEAD left the previous branch, so the arm is safe when HEAD is on no base
      in use.  With an action pending the arm is not taken. */
  predicate SwitchSafe(c: Config, w: World) {
    w.saved.Some? && w.saved.value.stage.Switched? && w.saved.value.pending.None? && w.head.Some?
    ==> Harmless(c, w.saved.value.current, w.head.value)
  }

  /** What the switched arm's rebase leaves when Git rewrites HEAD's branch to `tip`. */
  ghost function SwitchedRebase(w: World, tip: Commit): World
    requires w.saved.Some? && w.head.Some?
  {
    w.(refs := w.refs[w.head.value := tip], saved := Some(w.saved.value.(stage := Rebasing)))
  }

  /** A finished rebase onto the destination of the current entry contains it. */
  ghost predicate RebaseResult(w: World, tip: Commit) {
    && w.saved.Some? && w.saved.value.current < |w.saved.value.newBase|
    && IsAncestor(w.saved.value.newBase[w.saved.value.current], tip)
  }

  /** The invariant survives every result the switched arm's rebase can have exactly when the state is
      `SwitchSafe`. */
  lemma SwitchedArmExact(c: Config, w: World)
    requires Inv(c, w) && w.saved.Some? && w.saved.value.stage.Switched? && w.saved.value.pending.None? && w.head.Some?
    ensures (forall tip: Commit :: RebaseResult(w, tip) ==> Inv(c, SwitchedRebase(w, tip))) <==> SwitchSafe(c, w)
  {
    var s, h := w.saved.value, w.head.value;
    if Harmless(c, s.current, h) {
      forall tip: Commit | RebaseResult(w, tip)
        ensures Inv(c, SwitchedRebase(w, tip))
      {
        var w' := SwitchedRebase(w, tip);
        forall i: nat | i < |c.plan| && i <= s.current
          ensures BaseFixed(c, s.newBase, w'.refs, i)
        {
          assert BaseFixed(c, s.newBase, w.refs, i);
        }
      }
    } else {
      var i: nat :| i < |c.plan| && i <= s.current && c.plan[i].base == h;
      var tip := OtherResult(s.newBase[s.current], s.newBase[i]);
      assert RebaseResult(w, tip);
      assert !BaseFixed(c, s.newBase, SwitchedRebase(w, tip).refs, i);
      assert !Inv(c, SwitchedRebase(w, tip));
    }
  }

  /** Some commit that contains `onto` and is not `other`. */
  lemma OtherResult(onto: Commit, other: Commit) returns (tip: Commit)
    ensures IsAncestor(onto, tip) && tip != other
  {
    tip := onto;
    if onto == other {
      tip := Commit(0, [onto]);
      assert IsAncestor(onto, tip.parents[0]);
      assert onto < tip;
    }
  }

  // A stack of two: `a` on `main`, `b` on `a`.
  const WINDOW_PLAN := [Entry("a", "a", "main"), Entry("b", "b", "a")]
  const WINDOW_CONFIG := Config(WINDOW_PLAN, "main", false, false)
  const WINDOW_MAIN := Commit(0, [])
  const WINDOW_A := Commit(1, [WINDOW_MAIN])
  const WINDOW_REFS := map["main" := WINDOW_MAIN, "a" := WINDOW_A, "b" := Commit(2, [WINDOW_A])]

  /** The first entry is complete, the second about to be switched to, HEAD still on the first. */
  ghost predicate InWindow(w: World) {
    && Inv(WINDOW_CONFIG, w) && w.saved.Some? && w.refs == WINDOW_REFS && w.head == Some("a")
    && var s := w.saved.value;
    && s.stage.Switched? && s.pending.None? && s.current == 1 && s.newBase == [WINDOW_MAIN, WINDOW_A]
  }

  /** The window matters: it is not safe, and a rebase of HEAD's branch that adds a commit on top of the
      destination leaves every later ancestry check against the recorded destinations passing, while the
      second branch does not stand on the tip of its base. */
  lemma SwitchedWindowBreaksDescent(w: World) returns (broken: World, tip: Commit)
    requires InWindow(w)
    ensures !SwitchSafe(WINDOW_CONFIG, w)
    ensures RebaseResult(w, tip) && broken == SwitchedRebase(w, tip)
    ensures AllDescend(WINDOW_CONFIG, broken.saved.value.newBase, broken.refs)
    ensures !EntryDone(WINDOW_CONFIG, broken.refs, broken.lastBase, 1)
  {
    var m, a, b := WINDOW_MAIN, WINDOW_A, Commit(2, [WINDOW_A]);
    tip := Commit(3, [a]);
    assert WINDOW_PLAN[1].base == "a";
    broken := SwitchedRebase(w, tip);
    assert IsAncestor(a, tip.parents[0]) && IsAncestor(m, a.parents[0]) && IsAncestor(a, b.parents[0]);
    assert IsAncestor(m, tip.parents[0]);
    assert Descends(WINDOW_CONFIG, w.saved.value.newBase, broken.refs, 0);
    assert Descends(WINDOW_CONFIG, w.saved.value.newBase, broken.refs, 1);
    assert !IsAncestor(tip, m) && !IsAncestor(tip, a) && !IsAncestor(tip, b);
  }

  /** A rebase somebody else has started on `b`, found at a planned or rebasing stage, is recorded as a conflict
      of the current entry.  That keeps the invariant exactly when there is a current entry, its base was
      resolved and stayed where it was, and `b` is no base in use. */
  lemma ForeignRebaseConflictExact(c: Config, w: World, b: Branch)
    requires Inv(c, w) && w.saved.Some? && (w.saved.value.stage.Planned? || w.saved.value.stage.Rebasing?)
    requires w.rebasing.None?
    ensures var s := w.saved.value;
            Inv(c, w.(rebasing := Some(b), saved := Some(s.(stage := Conflict)))) <==>
              && s.current < |c.plan| && BaseFixed(c, s.newBase, w.refs, s.current)
              && Harmless(c, s.current, b)
  {
    var s := w.saved.value;
    var t := s.(stage := Conflict);
    var v := w.(rebasing := Some(b), saved := Some(t));
    if s.current < |c.plan| && BaseFixed(c, s.newBase, w.refs, s.current) && Harmless(c, s.current, b) {
      forall i: nat | i < |c.plan| && i <= s.current
        ensures BaseFixed(c, t.newBase, v.refs, i)
      {
        if i < s.current { assert BaseFixed(c, s.newBase, w.refs, i); }
      }
      assert TxInv(c, t, v);
    }
  }
}
