/** Admission to the names of a workspace: ordinary commands, registry edits and renames as processes over
    advisory locks and the journals of unfinished renames. */
module RenameAdmission {
  import opened Options

  type Name = string
  type Pid = nat
  type Inode = nat

  const REGISTRY: Name := ".registry"

  datatype Mode = Shared | Exclusive

  /** An advisory lock held by a process on a lock file. */
  datatype Held = Held(pid: Pid, inode: Inode, mode: Mode)

  /** An unfinished rename.  `registry` says that it rewrites the shared registry. */
  datatype Journal = Journal(id: nat, oldName: Name, newName: Name, registry: bool)

  datatype Command =
    | Ordinary(names: seq<Name>)
    | Spaces
    | Rename(oldName: Name, newName: Name, recovery: bool)

  /** `seen` is the set of journals read by the recheck, `running` the journal being executed. */
  datatype Phase = Taking | Admitted(seen: set<Journal>, running: Option<Journal>)

  /** `taken` counts the locks of the command acquired so far. */
  datatype Proc = Proc(command: Command, taken: nat, phase: Phase)

  /** `ino` tells which lock file a name opens: names the filesystem considers equal share one. */
  datatype State = State(ino: map<Name, Inode>, held: set<Held>, procs: map<Pid, Proc>, journals: set<Journal>)

  datatype Event =
    | Start(pid: Pid, command: Command)
    | Take(pid: Pid)
    | Recheck(pid: Pid)
    | Publish(pid: Pid, id: nat, registry: bool)
    | Clean(pid: Pid)
    | Exit(pid: Pid)
    | Crash(pid: Pid)

  // ---------- commands ----------

  function LockNames(c: Command): seq<Name> {
    match c
    case Ordinary(names) => names
    case Spaces => [REGISTRY]
    case Rename(o, n, _) => [REGISTRY, o, n]
  }

  function ModeOf(c: Command): Mode {
    if c.Rename? then Exclusive else Shared
  }

  /** The lock file of a name.  Lock files are never unlinked, so this never changes. */
  function Ino(ino: map<Name, Inode>, n: Name): Inode {
    if n in ino then ino[n] else 0
  }

  predicate Touches(ino: map<Name, Inode>, j: Journal, n: Name) {
    Ino(ino, n) == Ino(ino, j.oldName) || Ino(ino, n) == Ino(ino, j.newName)
  }

  predicate Overlap(ino: map<Name, Inode>, a: Journal, b: Journal) {
    Touches(ino, a, b.oldName) || Touches(ino, a, b.newName)
  }

  /** The journal leaves both names of the other rename and the registry alone. */
  predicate Clear(ino: map<Name, Inode>, j: Journal, oldName: Name, newName: Name) {
    !Touches(ino, j, oldName) && !Touches(ino, j, newName) && !j.registry
  }

  predicate Matches(c: Command, j: Journal) {
    c.Rename? && c.recovery && j.oldName == c.oldName && j.newName == c.newName
  }

  // ---------- steps ----------

  /** A process that fails, finishes or dies holds nothing any more.  Its journal stays. */
  function Gone(s: State, p: Pid): State {
    s.(held := (set h | h in s.held && h.pid != p), procs := s.procs - {p})
  }

  predicate Compatible(held: set<Held>, p: Pid, i: Inode, m: Mode) {
    forall h | h in held && h.inode == i && h.pid != p :: h.mode.Shared? && m.Shared?
  }

  /** Tries the next lock without waiting.  A lock file met before is skipped by a shared holder and refused
      by an exclusive one. */
  function TakeNext(s: State, p: Pid): State
    requires p in s.procs && s.procs[p].taken < |LockNames(s.procs[p].command)|
  {
    var proc := s.procs[p];
    var m := ModeOf(proc.command);
    var i := Ino(s.ino, LockNames(proc.command)[proc.taken]);
    var next := s.(procs := s.procs[p := proc.(taken := proc.taken + 1)]);
    if Held(p, i, m) in s.held then (if m.Exclusive? then Gone(s, p) else next)
    else if Compatible(s.held, p, i, m) then next.(held := s.held + {Held(p, i, m)})
    else Gone(s, p)
  }

  /** Whether the journals read under the locks allow the command, and which of them it recovers. */
  predicate Allowed(s: State, c: Command) {
    match c
    case Ordinary(names) => forall j, n | j in s.journals && n in names :: !Touches(s.ino, j, n)
    case Spaces => s.journals == {}
    case Rename(o, n, recovery) =>
      && (forall j | j in s.journals && !Matches(c, j) :: Clear(s.ino, j, o, n))
      && (recovery ==> exists j | j in s.journals :: Matches(c, j))
      && (forall a, b | a in s.journals && b in s.journals && Matches(c, a) && Matches(c, b) :: a == b)
  }

  ghost function Recovered(s: State, c: Command): Option<Journal> {
    if j :| j in s.journals && Matches(c, j) then Some(j) else None
  }

  ghost function Step(s: State, e: Event): State {
    match e
    case Start(p, c) =>
      if p in s.procs || (c.Rename? && c.oldName == c.newName) then s
      else s.(procs := s.procs[p := Proc(c, 0, Taking)])
    case Take(p) =>
      if p in s.procs && s.procs[p].phase.Taking? && s.procs[p].taken < |LockNames(s.procs[p].command)|
      then TakeNext(s, p) else s
    case Recheck(p) =>
      if p in s.procs && s.procs[p].phase.Taking? && s.procs[p].taken == |LockNames(s.procs[p].command)| then
        var c := s.procs[p].command;
        if Allowed(s, c) then s.(procs := s.procs[p := s.procs[p].(phase := Admitted(s.journals, Recovered(s, c)))])
        else Gone(s, p)
      else s
    case Publish(p, id, registry) =>
      if MayPublish(s, p, id) then
        var proc := s.procs[p];
        if registry && proc.phase.seen != {} then Gone(s, p)
        else
          var j := Journal(id, proc.command.oldName, proc.command.newName, registry);
          s.(journals := s.journals + {j},
             procs := s.procs[p := proc.(phase := proc.phase.(running := Some(j)))])
      else s
    case Clean(p) =>
      if p in s.procs && s.procs[p].phase.Admitted? && s.procs[p].phase.running.Some?
      then Gone(s.(journals := s.journals - {s.procs[p].phase.running.value}), p) else s
    case Exit(p) => Gone(s, p)
    case Crash(p) => Gone(s, p)
  }

  /** A fresh rename past its recheck publishes its journal under an unused identifier. */
  predicate MayPublish(s: State, p: Pid, id: nat) {
    && p in s.procs && s.procs[p].command.Rename? && !s.procs[p].command.recovery
    && s.procs[p].phase.Admitted? && s.procs[p].phase.running.None?
    && forall j | j in s.journals :: j.id != id
  }

  ghost function Run(s: State, es: seq<Event>): State {
    if |es| == 0 then s else Step(Run(s, es[..|es| - 1]), es[|es| - 1])
  }

  // ---------- the invariant ----------

  ghost predicate LocksAgree(s: State) {
    && (forall h :: h in s.held ==> h.pid in s.procs && h.mode == ModeOf(s.procs[h.pid].command))
    && (forall a, b :: a in s.held && b in s.held && a.inode == b.inode && a.pid != b.pid ==>
          a.mode.Shared? && b.mode.Shared?)
  }

  /** A process holds the lock files of the names it has gone through. */
  ghost predicate Holds(ino: map<Name, Inode>, held: set<Held>, p: Pid, proc: Proc) {
    && proc.taken <= |LockNames(proc.command)|
    && (proc.phase.Admitted? ==> proc.taken == |LockNames(proc.command)|)
    && (forall k :: 0 <= k < proc.taken ==>
          Held(p, Ino(ino, LockNames(proc.command)[k]), ModeOf(proc.command)) in held)
    && (proc.command.Rename? && proc.taken == 3 ==> Ino(ino, proc.command.oldName) != Ino(ino, proc.command.newName))
  }

  /** What admission guarantees a command for as long as it runs. */
  ghost predicate Guaranteed(ino: map<Name, Inode>, journals: set<Journal>, proc: Proc) {
    proc.phase.Admitted? ==>
      match proc.command
      case Ordinary(names) =>
        proc.phase.running.None? && forall j, n :: j in journals && n in names ==> !Touches(ino, j, n)
      case Spaces => proc.phase.running.None? && journals == {}
      case Rename(o, n, recovery) =>
        if proc.phase.running.None? then
          && !recovery && proc.phase.seen == journals
          && forall j :: j in journals ==> Clear(ino, j, o, n)
        else
          var mine := proc.phase.running.value;
          && mine in journals && mine.oldName == o && mine.newName == n
          && forall j :: j in journals && j != mine ==> Clear(ino, j, o, n)
  }

  /** Unfinished renames never share a name, and one that rewrites the registry is alone. */
  ghost predicate JournalsApart(ino: map<Name, Inode>, journals: set<Journal>) {
    && (forall a, b :: a in journals && b in journals && a != b ==> a.id != b.id && !Overlap(ino, a, b))
    && (forall a, b :: a in journals && a.registry && b in journals ==> a == b)
    && (forall j :: j in journals ==> Ino(ino, j.oldName) != Ino(ino, j.newName))
  }

  ghost predicate Inv(s: State) {
    && LocksAgree(s)
    && (forall p :: p in s.procs ==> Holds(s.ino, s.held, p, s.procs[p]))
    && (forall p :: p in s.procs ==> Guaranteed(s.ino, s.journals, s.procs[p]))
    && JournalsApart(s.ino, s.journals)
  }

  lemma GoneKeepsInv(s: State, p: Pid)
    requires Inv(s)
    ensures Inv(Gone(s, p))
  {
    var t := Gone(s, p);
    forall q | q in t.procs
      ensures Holds(t.ino, t.held, q, t.procs[q]) && Guaranteed(t.ino, t.journals, t.procs[q])
    {
      assert Holds(s.ino, s.held, q, s.procs[q]) && Guaranteed(s.ino, s.journals, s.procs[q]);
    }
  }

  /** The lock just taken extends what its process holds. */
  lemma TakeHolds(s: State, p: Pid)
    requires p in s.procs && s.procs[p].phase.Taking?
    requires s.procs[p].taken < |LockNames(s.procs[p].command)|
    requires Holds(s.ino, s.held, p, s.procs[p])
    ensures var t := TakeNext(s, p); p in t.procs ==> Holds(t.ino, t.held, p, t.procs[p])
  {
    var proc := s.procs[p];
    if proc.command.Rename? && proc.taken == 2 {
      assert LockNames(proc.command)[1] == proc.command.oldName;
      assert Held(p, Ino(s.ino, proc.command.oldName), Exclusive) in s.held;
    }
  }

  lemma TakeLocksAgree(s: State, p: Pid)
    requires LocksAgree(s) && p in s.procs
    requires s.procs[p].taken < |LockNames(s.procs[p].command)|
    ensures LocksAgree(TakeNext(s, p))
  {
  }

  lemma TakeKeepsInv(s: State, p: Pid)
    requires Inv(s) && p in s.procs && s.procs[p].phase.Taking?
    requires s.procs[p].taken < |LockNames(s.procs[p].command)|
    ensures Inv(TakeNext(s, p))
  {
    GoneKeepsInv(s, p);
    TakeLocksAgree(s, p);
    TakeHolds(s, p);
    var t := TakeNext(s, p);
    if p in t.procs {
      forall q | q in t.procs
        ensures Holds(t.ino, t.held, q, t.procs[q]) && Guaranteed(t.ino, t.journals, t.procs[q])
      {
        assert Holds(s.ino, s.held, q, s.procs[q]) && Guaranteed(s.ino, s.journals, s.procs[q]);
      }
    }
  }

  lemma RecheckKeepsInv(s: State, p: Pid)
    requires Inv(s) && p in s.procs && s.procs[p].phase.Taking?
    requires s.procs[p].taken == |LockNames(s.procs[p].command)|
    ensures Inv(Step(s, Recheck(p)))
  {
    GoneKeepsInv(s, p);
    var t := Step(s, Recheck(p));
    if p in t.procs {
      forall q | q in t.procs
        ensures Holds(t.ino, t.held, q, t.procs[q]) && Guaranteed(t.ino, t.journals, t.procs[q])
      {
        assert Holds(s.ino, s.held, q, s.procs[q]) && Guaranteed(s.ino, s.journals, s.procs[q]);
      }
    }
  }

  /** While one rename holds a lock, no other command holds the same lock file. */
  lemma RenameExcludes(s: State, p: Pid, q: Pid, k: nat, l: nat)
    requires Inv(s) && p in s.procs && q in s.procs && s.procs[p].command.Rename?
    requires k < s.procs[p].taken && l < s.procs[q].taken
    requires Ino(s.ino, LockNames(s.procs[p].command)[k]) == Ino(s.ino, LockNames(s.procs[q].command)[l])
    ensures p == q
  {
    assert Holds(s.ino, s.held, p, s.procs[p]) && Holds(s.ino, s.held, q, s.procs[q]);
  }

  /** Beside a rename past its locks only ordinary commands are admitted. */
  lemma OthersOrdinary(s: State, p: Pid, q: Pid)
    requires Inv(s) && p in s.procs && q in s.procs
    requires s.procs[p].phase.Admitted? && s.procs[p].command.Rename?
    requires s.procs[q].phase.Admitted? && !s.procs[q].command.Ordinary?
    ensures p == q
  {
    assert Holds(s.ino, s.held, p, s.procs[p]) && Holds(s.ino, s.held, q, s.procs[q]);
    assert LockNames(s.procs[p].command)[0] == LockNames(s.procs[q].command)[0];
    RenameExcludes(s, p, q, 0, 0);
  }

  lemma NamesExcluded(s: State, p: Pid, q: Pid, n: Name)
    requires Inv(s) && p in s.procs && q in s.procs && p != q
    requires s.procs[p].phase.Admitted? && s.procs[p].command.Rename?
    requires s.procs[q].phase.Admitted? && n in LockNames(s.procs[q].command)
    ensures Ino(s.ino, n) != Ino(s.ino, s.procs[p].command.oldName)
    ensures Ino(s.ino, n) != Ino(s.ino, s.procs[p].command.newName)
  {
    assert Holds(s.ino, s.held, p, s.procs[p]) && Holds(s.ino, s.held, q, s.procs[q]);
    var c := s.procs[p].command;
    assert LockNames(c)[1] == c.oldName && LockNames(c)[2] == c.newName;
    var l: nat :| l < |LockNames(s.procs[q].command)| && LockNames(s.procs[q].command)[l] == n;
    if Ino(s.ino, n) == Ino(s.ino, c.oldName) { RenameExcludes(s, p, q, 1, l); }
    if Ino(s.ino, n) == Ino(s.ino, c.newName) { RenameExcludes(s, p, q, 2, l); }
  }

  /** What a rename may publish leaves every other admitted command its guarantee. */
  lemma PublishKeepsGuarantee(s: State, p: Pid, q: Pid, j: Journal)
    requires Inv(s) && p in s.procs && q in s.procs && p != q
    requires s.procs[p].command.Rename? && s.procs[p].phase.Admitted?
    requires j.oldName == s.procs[p].command.oldName && j.newName == s.procs[p].command.newName
    ensures Guaranteed(s.ino, s.journals + {j}, s.procs[q])
  {
    assert Guaranteed(s.ino, s.journals, s.procs[q]);
    if s.procs[q].phase.Admitted? {
      if !s.procs[q].command.Ordinary? { OthersOrdinary(s, p, q); }
      forall n | n in s.procs[q].command.names
        ensures !Touches(s.ino, j, n)
      {
        NamesExcluded(s, p, q, n);
      }
    }
  }

  lemma PublishKeepsInv(s: State, p: Pid, id: nat, registry: bool)
    requires Inv(s) && MayPublish(s, p, id)
    ensures Inv(Step(s, Publish(p, id, registry)))
  {
    GoneKeepsInv(s, p);
    var t := Step(s, Publish(p, id, registry));
    assert Guaranteed(s.ino, s.journals, s.procs[p]) && Holds(s.ino, s.held, p, s.procs[p]);
    if p in t.procs {
      var c := s.procs[p].command;
      var j := Journal(id, c.oldName, c.newName, registry);
      assert t.journals == s.journals + {j};
      assert forall a :: a in s.journals ==> Clear(s.ino, a, c.oldName, c.newName);
      forall q | q in t.procs
        ensures Holds(t.ino, t.held, q, t.procs[q]) && Guaranteed(t.ino, t.journals, t.procs[q])
      {
        assert Holds(s.ino, s.held, q, s.procs[q]);
        if q != p { PublishKeepsGuarantee(s, p, q, j); }
      }
    }
  }

  lemma CleanKeepsInv(s: State, p: Pid)
    requires Inv(s) && p in s.procs && s.procs[p].phase.Admitted? && s.procs[p].phase.running.Some?
    ensures Inv(Step(s, Clean(p)))
  {
    GoneKeepsInv(s, p);
    var t := Step(s, Clean(p));
    assert Holds(s.ino, s.held, p, s.procs[p]) && Guaranteed(s.ino, s.journals, s.procs[p]);
    forall q | q in t.procs
      ensures Guaranteed(t.ino, t.journals, t.procs[q])
    {
      assert Guaranteed(s.ino, s.journals, s.procs[q]);
      if s.procs[q].phase.Admitted? && !s.procs[q].command.Ordinary? { OthersOrdinary(s, p, q); }
    }
  }

  lemma StepKeepsInv(s: State, e: Event)
    requires Inv(s)
    ensures Inv(Step(s, e))
  {
    match e
    case Start(p, c) => StartKeepsInv(s, p, c);
    case Take(p) =>
      if p in s.procs && s.procs[p].phase.Taking? && s.procs[p].taken < |LockNames(s.procs[p].command)| {
        TakeKeepsInv(s, p);
      }
    case Recheck(p) =>
      if p in s.procs && s.procs[p].phase.Taking? && s.procs[p].taken == |LockNames(s.procs[p].command)| {
        RecheckKeepsInv(s, p);
      }
    case Publish(p, id, registry) => if MayPublish(s, p, id) { PublishKeepsInv(s, p, id, registry); }
    case Clean(p) =>
      if p in s.procs && s.procs[p].phase.Admitted? && s.procs[p].phase.running.Some? { CleanKeepsInv(s, p); }
    case Exit(p) => GoneKeepsInv(s, p);
    case Crash(p) => GoneKeepsInv(s, p);
  }

  lemma StartKeepsInv(s: State, p: Pid, c: Command)
    requires Inv(s)
    ensures Inv(Step(s, Start(p, c)))
  {
    var t := Step(s, Start(p, c));
    forall q | q in t.procs
      ensures Holds(t.ino, t.held, q, t.procs[q]) && Guaranteed(t.ino, t.journals, t.procs[q])
    {
      if q in s.procs {
        assert Holds(s.ino, s.held, q, s.procs[q]) && Guaranteed(s.ino, s.journals, s.procs[q]);
      }
    }
  }

  // ---------- one attempt, while nobody else acts ----------

  /** The two names open different lock files of the journal's two. */
  ghost predicate Apart(ino: map<Name, Inode>, j: Journal, n: Name) {
    Ino(ino, n) != Ino(ino, j.oldName) && Ino(ino, n) != Ino(ino, j.newName)
  }

  /** Every name's lock file is free for this mode: nobody holds it, or only shared holders do and the request is
      shared.  An exclusive request also needs a different lock file for each name. */
  ghost predicate Free(s: State, names: seq<Name>, m: Mode) {
    && (forall k, h :: 0 <= k < |names| && h in s.held && h.inode == Ino(s.ino, names[k]) ==>
          h.mode == Shared && m == Shared)
    && (m == Exclusive ==> forall k, l :: 0 <= k < l < |names| ==> Ino(s.ino, names[k]) != Ino(s.ino, names[l]))
  }

  /** The unfinished renames allow the command: none touches a name of an ordinary command, none exists beside a
      registry edit, and a rename meets none that shares a name with it or rewrites the registry, except, when it
      recovers, the one it recovers. */
  ghost predicate JournalsAllow(s: State, c: Command) {
    match c
    case Ordinary(names) => forall j, n :: j in s.journals && n in names ==> Apart(s.ino, j, n)
    case Spaces => s.journals == {}
    case Rename(o, n, recovery) =>
      if recovery then exists j :: RecoversAlone(s, o, n, j)
      else forall j :: j in s.journals ==> Apart(s.ino, j, o) && Apart(s.ino, j, n) && !j.registry
  }

  ghost predicate RecoversAlone(s: State, o: Name, n: Name, j: Journal) {
    && j in s.journals && j.oldName == o && j.newName == n
    && forall k :: k in s.journals && k != j ==> Apart(s.ino, k, o) && Apart(s.ino, k, n) && !k.registry
  }

  ghost function Takes(p: Pid, k: nat): (es: seq<Event>)
    ensures |es| == k
  {
    if k == 0 then [] else Takes(p, k - 1) + [Take(p)]
  }

  /** A process asks for a command, takes its locks one after the other and reads the journals. */
  ghost function Attempt(p: Pid, c: Command, locks: nat): seq<Event> {
    [Start(p, c)] + Takes(p, locks) + [Recheck(p)]
  }

  ghost function Locks(ino: map<Name, Inode>, p: Pid, names: seq<Name>, m: Mode): set<Held> {
    set n | n in names :: Held(p, Ino(ino, n), m)
  }

  /** How an attempt with these lock names ends: admitted with exactly their locks beside everybody else's, having seen
      every journal, or gone without a trace. */
  ghost predicate AttemptEnds(s: State, t: State, p: Pid, c: Command, names: seq<Name>, m: Mode) {
    && t.ino == s.ino && t.journals == s.journals
    && if Free(s, names, m) && JournalsAllow(s, c) then
         && t.held == s.held + Locks(s.ino, p, names, m)
         && p in t.procs && t.procs == s.procs[p := t.procs[p]] && t.procs[p].command == c
         && t.procs[p].phase.Admitted? && t.procs[p].phase.seen == s.journals
         && (!c.Rename? || !c.recovery ==> t.procs[p].phase.running == None)
         && (c.Rename? && c.recovery ==>
               t.procs[p].phase.running.Some? && RecoversAlone(s, c.oldName, c.newName, t.procs[p].phase.running.value))
       else t.held == s.held && t.procs == s.procs
  }

  lemma RunMore(s: State, es: seq<Event>, e: Event)
    ensures Run(s, es + [e]) == Step(Run(s, es), e)
  {
    assert (es + [e])[..|es|] == es;
  }

  lemma RunStart(s: State, p: Pid, c: Command)
    ensures Run(s, [Start(p, c)] + Takes(p, 0)) == Step(s, Start(p, c))
  {
    assert [Start(p, c)] + [] == [] + [Start(p, c)];
    RunMore(s, [], Start(p, c));
  }

  lemma RunTake(s: State, p: Pid, c: Command, k: nat)
    requires k > 0
    ensures Run(s, [Start(p, c)] + Takes(p, k)) == Step(Run(s, [Start(p, c)] + Takes(p, k - 1)), Take(p))
  {
    assert [Start(p, c)] + Takes(p, k) == ([Start(p, c)] + Takes(p, k - 1)) + [Take(p)];
    RunMore(s, [Start(p, c)] + Takes(p, k - 1), Take(p));
  }

  lemma {:induction false} TakesOutcome(s: State, p: Pid, c: Command, k: nat)
    requires LocksAgree(s) && p !in s.procs && k <= |LockNames(c)|
    requires c.Rename? ==> c.oldName != c.newName
    ensures var t, names := Run(s, [Start(p, c)] + Takes(p, k)), LockNames(c)[..k];
            t == if Free(s, names, ModeOf(c))
                 then State(s.ino, s.held + Locks(s.ino, p, names, ModeOf(c)), s.procs[p := Proc(c, k, Taking)],
                            s.journals)
                 else s
  {
    hide Run, Takes, TakeNext, LocksAgree, LockNames;
    if k == 0 {
      RunStart(s, p, c);
      assert Locks(s.ino, p, [], ModeOf(c)) == {};
    } else {
      hide Free, Locks;
      var names, m := LockNames(c), ModeOf(c);
      TakesOutcome(s, p, c, k - 1);
      RunTake(s, p, c, k);
      assert names[..k] == names[..k - 1] + [names[k - 1]];
      var t := Run(s, [Start(p, c)] + Takes(p, k - 1));
      FreeMore(s, names[..k - 1], names[k - 1], m);
      if Free(s, names[..k - 1], m) {
        assert t.procs[p] == Proc(c, k - 1, Taking);
        TakesOne(s, t, p, c, k - 1);
      }
    }
  }

  lemma FreeMore(s: State, names: seq<Name>, n: Name, m: Mode)
    ensures Free(s, names + [n], m) <==>
              && Free(s, names, m)
              && (forall h :: h in s.held && h.inode == Ino(s.ino, n) ==> h.mode == Shared && m == Shared)
              && (m == Exclusive ==> forall k :: 0 <= k < |names| ==> Ino(s.ino, names[k]) != Ino(s.ino, n))
  {
    var more := names + [n];
    assert forall k :: 0 <= k < |names| ==> more[k] == names[k];
    assert more[|names|] == n;
  }

  lemma FreeSame(s: State, names: seq<Name>, n: Name, m: Mode)
    requires Free(s, names, m)
    ensures (exists i :: 0 <= i < |names| && Ino(s.ino, names[i]) == Ino(s.ino, n)) ==>
              forall h :: h in s.held && h.inode == Ino(s.ino, n) ==> h.mode == Shared && m == Shared
  {
  }

  lemma LocksMore(ino: map<Name, Inode>, p: Pid, names: seq<Name>, n: Name, m: Mode)
    ensures Locks(ino, p, names + [n], m) == Locks(ino, p, names, m) + {Held(p, Ino(ino, n), m)}
    ensures forall h :: h in Locks(ino, p, names, m) ==> h.pid == p
    ensures Held(p, Ino(ino, n), m) in Locks(ino, p, names, m) <==>
              exists i :: 0 <= i < |names| && Ino(ino, names[i]) == Ino(ino, n)
  {
    assert forall i :: 0 <= i < |names| ==> names[i] in names;
  }

  /** One more lock, taken or the end of the attempt. */
  lemma TakesOne(s: State, t: State, p: Pid, c: Command, k: nat)
    requires LocksAgree(s) && p !in s.procs && k < |LockNames(c)|
    requires var names, m := LockNames(c)[..k], ModeOf(c);
             && Free(s, names, m)
             && t == State(s.ino, s.held + Locks(s.ino, p, names, m), s.procs[p := Proc(c, k, Taking)], s.journals)
    ensures var names, m := LockNames(c)[..k + 1], ModeOf(c);
            TakeNext(t, p)
            == if Free(s, names, m)
               then State(s.ino, s.held + Locks(s.ino, p, names, m), s.procs[p := Proc(c, k + 1, Taking)], s.journals)
               else s
  {
    hide Free, Locks, LockNames, ModeOf;
    var names, n, m := LockNames(c)[..k], LockNames(c)[k], ModeOf(c);
    var own := Held(p, Ino(s.ino, n), m);
    assert LockNames(c)[..k + 1] == names + [n];
    FreeMore(s, names, n, m);
    FreeSame(s, names, n, m);
    LocksMore(s.ino, p, names, n, m);
    assert forall h :: h in s.held ==> h.pid != p;
    assert Compatible(t.held, p, Ino(s.ino, n), m) <==>
        forall h :: h in s.held && h.inode == Ino(s.ino, n) ==> h.mode == Shared && m == Shared;
    assert (set h | h in t.held && h.pid != p) == s.held;
    assert t.procs - {p} == s.procs;
    assert own in t.held ==> t.held + {own} == t.held;
  }

  lemma AllowedIs(s: State, c: Command)
    requires JournalsApart(s.ino, s.journals)
    ensures Allowed(s, c) <==> JournalsAllow(s, c)
    ensures Allowed(s, c) && c.Rename? && c.recovery ==>
              Recovered(s, c).Some? && RecoversAlone(s, c.oldName, c.newName, Recovered(s, c).value)
    ensures !c.Rename? || !c.recovery ==> Recovered(s, c) == None
  {
    if c.Rename? {
      var o, n := c.oldName, c.newName;
      if Allowed(s, c) && c.recovery {
        var j := Recovered(s, c).value;
        assert forall k :: k in s.journals && k != j ==> Clear(s.ino, k, o, n);
        assert RecoversAlone(s, o, n, j);
      }
      if c.recovery && JournalsAllow(s, c) {
        var j :| RecoversAlone(s, o, n, j);
        assert Matches(c, j);
        assert forall k :: k in s.journals && k != j ==> Clear(s.ino, k, o, n) && !Overlap(s.ino, k, j);
      }
    }
  }

  /** An attempt undisturbed by others succeeds exactly when every lock is free and the journals allow the command. */
  lemma AttemptOutcome(s: State, p: Pid, c: Command)
    requires Inv(s) && p !in s.procs
    ensures c.Ordinary? ==>
              AttemptEnds(s, Run(s, Attempt(p, c, |c.names|)), p, c, c.names, Shared)
    ensures c.Spaces? ==> AttemptEnds(s, Run(s, Attempt(p, c, 1)), p, c, [REGISTRY], Shared)
    ensures c.Rename? ==>
              if c.oldName == c.newName then Run(s, Attempt(p, c, 3)) == s
              else AttemptEnds(s, Run(s, Attempt(p, c, 3)), p, c, [REGISTRY, c.oldName, c.newName], Exclusive)
  {
    var names, m := LockNames(c), ModeOf(c);
    var es := [Start(p, c)] + Takes(p, |names|);
    assert Attempt(p, c, |names|)[..|es|] == es;
    if c.Rename? && c.oldName == c.newName {
      NothingTaken(s, p, c, 3);
    } else {
      TakesOutcome(s, p, c, |names|);
      assert names[..|names|] == names;
      var t := Run(s, es);
      if Free(s, names, m) { RecheckEnds(s, t, p, c); }
    }
  }

  lemma RecheckEnds(s: State, t: State, p: Pid, c: Command)
    requires Inv(s) && p !in s.procs && Free(s, LockNames(c), ModeOf(c))
    requires t == State(s.ino, s.held + Locks(s.ino, p, LockNames(c), ModeOf(c)),
                        s.procs[p := Proc(c, |LockNames(c)|, Taking)], s.journals)
    ensures AttemptEnds(s, Step(t, Recheck(p)), p, c, LockNames(c), ModeOf(c))
  {
    hide Allowed, JournalsAllow, RecoversAlone, Free, Locks, LockNames, Recovered, Holds, Guaranteed;
    AllowedIs(t, c);
    SameJournals(s, t, c);
    LocksOwn(s.ino, p, LockNames(c), ModeOf(c));
    assert (set h | h in t.held && h.pid != p) == s.held;
    assert t.procs - {p} == s.procs;
  }

  lemma SameJournals(s: State, t: State, c: Command)
    requires t.ino == s.ino && t.journals == s.journals
    ensures JournalsAllow(t, c) <==> JournalsAllow(s, c)
    ensures forall o, n, j :: RecoversAlone(t, o, n, j) <==> RecoversAlone(s, o, n, j)
  {
    assert forall o, n, j :: RecoversAlone(t, o, n, j) <==> RecoversAlone(s, o, n, j);
  }

  lemma LocksOwn(ino: map<Name, Inode>, p: Pid, names: seq<Name>, m: Mode)
    ensures forall h :: h in Locks(ino, p, names, m) ==> h.pid == p
  {
  }

  lemma {:induction false} NothingTaken(s: State, p: Pid, c: Command, k: nat)
    requires p !in s.procs && c.Rename? && c.oldName == c.newName
    ensures Run(s, [Start(p, c)] + Takes(p, k)) == s
  {
    hide Run, Takes;
    if k == 0 {
      RunStart(s, p, c);
    } else {
      NothingTaken(s, p, c, k - 1);
      RunTake(s, p, c, k);
    }
  }

  /** Whoever leaves or dies takes its own locks with it and nothing else; a finished rename takes its journal too. */
  lemma Leaves(s: State, p: Pid, e: Event)
    requires e == Exit(p) || e == Crash(p) || e == Clean(p)
    requires e.Clean? ==> p in s.procs && s.procs[p].phase.Admitted? && s.procs[p].phase.running.Some?
    ensures var t := Step(s, e);
            && t.ino == s.ino && t.procs == s.procs - {p}
            && (forall h :: h in t.held <==> h in s.held && h.pid != p)
            && t.journals == s.journals - (if e.Clean? then {s.procs[p].phase.running.value} else {})
  {
  }

  /** A whole rename, from an attempt that is admitted to the end: the journal appears with exactly the names of the
      command while it runs and is gone afterwards, and so is everything else it brought.  One that would rewrite the
      registry beside an unfinished rename gives up without a journal. */
  lemma WholeRename(s: State, p: Pid, o: Name, n: Name, id: nat, registry: bool)
    requires Inv(s) && p !in s.procs && o != n && forall j :: j in s.journals ==> j.id != id
    requires Free(s, [REGISTRY, o, n], Exclusive) && JournalsAllow(s, Rename(o, n, false))
    ensures var t := Run(s, Attempt(p, Rename(o, n, false), 3));
            var u := Step(t, Publish(p, id, registry));
            if registry && s.journals != {} then u == s
            else
              && u.journals == s.journals + {Journal(id, o, n, registry)} && p in u.procs && u.held == t.held
              && Step(u, Clean(p)) == s
  {
    var c := Rename(o, n, false);
    AttemptOutcome(s, p, c);
    var t := Run(s, Attempt(p, c, 3));
    var u := Step(t, Publish(p, id, registry));
    hide Free, JournalsAllow, Attempt, Run;
    assert (set h | h in t.held && h.pid != p) == s.held;
    assert t.procs - {p} == s.procs;
    if !(registry && s.journals != {}) {
      assert s.journals + {Journal(id, o, n, registry)} - {Journal(id, o, n, registry)} == s.journals;
      assert u.procs - {p} == s.procs;
    }
  }

  lemma OnlyOneRecovered(s: State, j: Journal)
    requires Inv(s) && j in s.journals
    ensures forall k :: RecoversAlone(s, j.oldName, j.newName, k) <==> k == j
    ensures j.oldName != j.newName
  {
    assert forall k :: k in s.journals && k != j ==> !Overlap(s.ino, k, j) && !k.registry;
    assert RecoversAlone(s, j.oldName, j.newName, j);
  }

  /** A rename that died is finished by a recovery of its names once their locks are free: the recovery is admitted with
      that very journal and ends with it gone. */
  lemma WholeRecovery(s: State, p: Pid, j: Journal)
    requires Inv(s) && p !in s.procs && j in s.journals
    requires Free(s, [REGISTRY, j.oldName, j.newName], Exclusive)
    ensures var t := Run(s, Attempt(p, Rename(j.oldName, j.newName, true), 3));
            && p in t.procs && t.procs[p].phase.Admitted? && t.procs[p].phase.running == Some(j)
            && Step(t, Clean(p)) == s.(journals := s.journals - {j})
  {
    var c := Rename(j.oldName, j.newName, true);
    AttemptOutcome(s, p, c);
    OnlyOneRecovered(s, j);
    var t := Run(s, Attempt(p, c, 3));
    hide Free, Attempt, Run, RecoversAlone;
    assert RecoversAlone(s, j.oldName, j.newName, j);
    assert (set h | h in t.held && h.pid != p) == s.held;
    assert t.procs - {p} == s.procs;
  }

  // ---------- what follows, after any history ----------

  /** No process, no lock, no unfinished rename. */
  function Fresh(ino: map<Name, Inode>): State {
    State(ino, {}, map[], {})
  }

  /** Every history of commands, from an empty workspace on, keeps the invariant. */
  lemma {:induction false} ReachableInv(ino: map<Name, Inode>, es: seq<Event>)
    ensures Inv(Run(Fresh(ino), es))
  {
    if |es| > 0 {
      ReachableInv(ino, es[..|es| - 1]);
      StepKeepsInv(Run(Fresh(ino), es[..|es| - 1]), es[|es| - 1]);
    }
  }

  /** While an ordinary command is admitted on a name, no unfinished rename touches that name. */
  lemma AdmittedNameIsUntouched(ino: map<Name, Inode>, es: seq<Event>, p: Pid, n: Name, j: Journal)
    requires var s := Run(Fresh(ino), es);
             && p in s.procs && s.procs[p].phase.Admitted? && j in s.journals
             && s.procs[p].command.Ordinary? && n in s.procs[p].command.names
    ensures Apart(ino, j, n)
  {
    ReachableInv(ino, es);
    InoStays(ino, es);
    var s := Run(Fresh(ino), es);
    GuaranteeOf(s, p);
    hide Run, Inv;
    assert !Touches(s.ino, j, n);
  }

  lemma GuaranteeOf(s: State, p: Pid)
    requires Inv(s) && p in s.procs
    ensures Guaranteed(s.ino, s.journals, s.procs[p])
  {
  }

  /** At most one process executes a rename, and while it does nobody edits the registry. */
  lemma OneExecutor(ino: map<Name, Inode>, es: seq<Event>, p: Pid, q: Pid)
    requires var s := Run(Fresh(ino), es);
             && p in s.procs && s.procs[p].phase.Admitted? && s.procs[p].command.Rename?
             && q in s.procs && s.procs[q].phase.Admitted? && !s.procs[q].command.Ordinary?
    ensures p == q
  {
    ReachableInv(ino, es);
    var s := Run(Fresh(ino), es);
    OthersOrdinary(s, p, q);
  }

  /** Unfinished renames have pairwise disjoint names, whatever crashed and whatever was recovered, and one
      that rewrites the registry is the only one. */
  lemma PendingRenamesApart(ino: map<Name, Inode>, es: seq<Event>, a: Journal, b: Journal)
    requires var s := Run(Fresh(ino), es); a in s.journals && b in s.journals && a != b
    ensures Apart(ino, a, b.oldName) && Apart(ino, a, b.newName) && !a.registry && !b.registry
  {
    ReachableInv(ino, es);
    InoStays(ino, es);
    var s := Run(Fresh(ino), es);
    assert !Overlap(s.ino, a, b);
  }

  /** Which file a name opens never changes. */
  lemma {:induction false} InoStays(ino: map<Name, Inode>, es: seq<Event>)
    ensures Run(Fresh(ino), es).ino == ino
  {
    if |es| > 0 { InoStays(ino, es[..|es| - 1]); }
  }

  /** A command editing the registry runs only while no rename is unfinished. */
  lemma SpacesRunAlone(ino: map<Name, Inode>, es: seq<Event>, p: Pid)
    requires var s := Run(Fresh(ino), es);
             p in s.procs && s.procs[p].phase.Admitted? && s.procs[p].command.Spaces?
    ensures Run(Fresh(ino), es).journals == {}
  {
    ReachableInv(ino, es);
    var s := Run(Fresh(ino), es);
    assert Guaranteed(s.ino, s.journals, s.procs[p]);
  }

  /** A crash loses locks but no journal, and a dead rename can always be recovered once its names are
      free: the recheck of a recovery under its locks succeeds. */
  lemma RecoveryIsAllowed(ino: map<Name, Inode>, es: seq<Event>, j: Journal)
    requires j in Run(Fresh(ino), es).journals
    ensures forall p :: j in Step(Run(Fresh(ino), es), Crash(p)).journals
    ensures Allowed(Run(Fresh(ino), es), Rename(j.oldName, j.newName, true))
  {
    ReachableInv(ino, es);
    var s := Run(Fresh(ino), es);
    var c := Rename(j.oldName, j.newName, true);
    assert Matches(c, j);
    forall k | k in s.journals && k != j
      ensures !Matches(c, k) && !Touches(s.ino, k, j.oldName) && !Touches(s.ino, k, j.newName)
    {
      assert !Overlap(s.ino, k, j);
    }
  }

  // ---------- taking the locks ----------

  /** The lock files of the names, in order, each once. */
  function LockFiles(ino: map<Name, Inode>, names: seq<Name>): (r: seq<Inode>)
    ensures forall n :: n in names ==> Ino(ino, n) in r
    ensures forall i :: i in r ==> exists n :: n in names && Ino(ino, n) == i
    ensures forall a, b :: 0 <= a < b < |r| ==> r[a] != r[b]
  {
    if |names| == 0 then [] else
      var r, i := LockFiles(ino, names[..|names| - 1]), Ino(ino, names[|names| - 1]);
      if i in r then r else r + [i]
  }

  lemma InLockFiles(ino: map<Name, Inode>, names: seq<Name>, i: Inode)
    ensures i in LockFiles(ino, names) <==> exists a :: 0 <= a < |names| && Ino(ino, names[a]) == i
  {
    if i in LockFiles(ino, names) {
      var n :| n in names && Ino(ino, n) == i;
      var a :| 0 <= a < |names| && names[a] == n;
    } else {
      assert forall a :: 0 <= a < |names| ==> names[a] in names;
    }
  }

  ghost function LocksOn(p: Pid, files: seq<Inode>, m: Mode): set<Held> {
    set i | i in files :: Held(p, i, m)
  }

  /** The kernel's lock table with the admission of one process. */
  class Admission {
    const ino: map<Name, Inode>
    const pid: Pid
    var held: set<Held>
    var files: seq<Inode>

    constructor (ino: map<Name, Inode>, pid: Pid, held: set<Held>)
      ensures this.ino == ino && this.pid == pid && this.held == held && files == []
    {
      this.ino, this.pid, this.held, this.files := ino, pid, held, [];
    }

    ghost predicate AllFree(table: set<Held>, names: seq<Name>, m: Mode) {
      forall k :: 0 <= k < |names| ==> Compatible(table, pid, Ino(ino, names[k]), m)
    }

    ghost predicate NoneTwice(names: seq<Name>) {
      forall k, l :: 0 <= k < l < |names| ==> Ino(ino, names[k]) != Ino(ino, names[l])
    }

    /** Whether every lock is free for this process, and an exclusive request names no lock file twice. */
    ghost predicate Obtainable(table: set<Held>, names: seq<Name>, m: Mode) {
      AllFree(table, names, m) && (m.Exclusive? ==> NoneTwice(names))
    }

    lemma TwiceStep(names: seq<Name>, n: Name)
      ensures NoneTwice(names + [n]) <==> NoneTwice(names) && Ino(ino, n) !in LockFiles(ino, names)
    {
      InLockFiles(ino, names, Ino(ino, n));
      assert forall a :: 0 <= a < |names| ==> (names + [n])[a] == names[a];
      assert (names + [n])[|names|] == n;
    }

    lemma FreeStep(table: set<Held>, names: seq<Name>, n: Name, m: Mode)
      ensures AllFree(table, names + [n], m) <==> AllFree(table, names, m) && Compatible(table, pid, Ino(ino, n), m)
    {
      assert forall a :: 0 <= a < |names| ==> (names + [n])[a] == names[a];
      assert (names + [n])[|names|] == n;
    }

    lemma ObtainablePrefix(table: set<Held>, names: seq<Name>, k: nat, m: Mode)
      requires k <= |names| && Obtainable(table, names, m)
      ensures Obtainable(table, names[..k], m)
    {
    }

    lemma ObtainableStep(table: set<Held>, names: seq<Name>, k: nat, m: Mode)
      requires k < |names|
      ensures Obtainable(table, names, m) ==> Obtainable(table, names[..k + 1], m)
      ensures Obtainable(table, names[..k + 1], m) <==>
                && Obtainable(table, names[..k], m) && Compatible(table, pid, Ino(ino, names[k]), m)
                && (m.Exclusive? ==> Ino(ino, names[k]) !in LockFiles(ino, names[..k]))
    {
      hide AllFree, NoneTwice;
      assert names[..k + 1] == names[..k] + [names[k]];
      FreeStep(table, names[..k], names[k], m);
      TwiceStep(names[..k], names[k]);
      if Obtainable(table, names, m) { ObtainablePrefix(table, names, k + 1, m); }
    }

    /** The lock loop of `acquireFeatureRenameAdmissionAt`: all locks or none, without waiting. */
    method Acquire(names: seq<Name>, m: Mode) returns (ok: bool)
      requires files == [] && forall h :: h in held ==> h.pid != pid
      modifies this
      ensures ok <==> Obtainable(old(held), names, m)
      ensures ok ==> files == LockFiles(ino, names) && held == old(held) + LocksOn(pid, files, m)
      ensures !ok ==> files == [] && held == old(held)
    {
      for k := 0 to |names|
        invariant files == LockFiles(ino, names[..k]) && held == old(held) + LocksOn(pid, files, m)
        invariant Obtainable(old(held), names[..k], m)
      {
        ObtainableStep(old(held), names, k, m);
        assert names[..k + 1][..k] == names[..k];
        forall i | i in files ensures Compatible(old(held), pid, i, m) {
          assert exists n :: n in names[..k] && Ino(ino, n) == i;
        }
        ok := TakeOne(names[k], m, old(held));
        if !ok { return; }
      }
      assert names[..|names|] == names;
      ok := true;
    }

    /** One name: a lock file met before is skipped by a shared request and refused to an exclusive one. */
    method TakeOne(n: Name, m: Mode, ghost others: set<Held>) returns (ok: bool)
      requires held == others + LocksOn(pid, files, m) && forall h :: h in others ==> h.pid != pid
      requires forall a, b :: 0 <= a < b < |files| ==> files[a] != files[b]
      requires forall i :: i in files ==> Compatible(others, pid, i, m)
      modifies this
      ensures ok <==> Compatible(others, pid, Ino(ino, n), m) && (m.Exclusive? ==> Ino(ino, n) !in old(files))
      ensures ok ==> files == (if Ino(ino, n) in old(files) then old(files) else old(files) + [Ino(ino, n)])
      ensures ok ==> held == others + LocksOn(pid, files, m)
      ensures !ok ==> files == [] && held == others
    {
      var i := Ino(ino, n);
      var seen := i in files;
      if seen && m.Shared? { return true; }
      if seen || !Compatible(held, pid, i, m) {
        Release(m, others);
        return false;
      }
      held := held + {Held(pid, i, m)};
      files := files + [i];
      return true;
    }

    /** `Release`: unlocks in reverse order. */
    method Release(m: Mode, ghost others: set<Held>)
      requires held == others + LocksOn(pid, files, m) && forall h :: h in others ==> h.pid != pid
      requires forall a, b :: 0 <= a < b < |files| ==> files[a] != files[b]
      modifies this
      ensures held == others && files == []
    {
      var k := |files|;
      assert files[..k] == files;
      while k > 0
        invariant 0 <= k <= |files| && files == old(files)
        invariant held == others + LocksOn(pid, files[..k], m)
      {
        k := k - 1;
        assert files[..k + 1] == files[..k] + [files[k]];
        held := held - {Held(pid, files[k], m)};
      }
      files := [];
    }
  }
}
