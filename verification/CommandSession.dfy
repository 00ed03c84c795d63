/** A command run in the shared checkout: the session record and lock that cover its branch switch and context
    links, and the finish that undoes them before the record goes.  As any effect may fail, before or after it
    took place, a process that dies is the run in which every later effect fails. */
module CommandSession {
  import opened Options

  type Branch = string
  type Path = string
  type Commit = nat
  type Token = nat

  /** What a session records before its first effect. */
  datatype Session = Session(branch: Branch, original: Branch, originalHead: Commit, links: seq<Path>, token: Token)

  /** The record file: written exclusively, so a failed write leaves a torn one. */
  datatype Record = Absent | Torn | Saved(session: Session)

  /** History: the checkout at the moment a record was removed, and whether a record existed when a finishing
      session released its lock. */
  datatype Event =
    | RecordRemoved(session: Session, head: Option<Branch>, dirty: bool, tip: Option<Commit>)
    | LockReleased(recorded: bool)

  /** `links` are the session's context links in place; `odd` are link paths holding something else.  `last`
      remembers the session opened last, until others change the checkout with no whole record there. */
  datatype World = World(
    record: Record, lock: Option<Token>, head: Option<Branch>, refs: map<Branch, Commit>, dirty: bool,
    links: set<Path>, odd: set<Path>, last: Option<Session>, events: seq<Event>)

  // ---------- the invariant ----------

  /** The checkout carries something of the session: its branch instead of the original one, or a link. */
  ghost predicate Carries(w: World, s: Session) {
    (w.head == Some(s.branch) && s.branch != s.original) || w.links != {}
  }

  ghost predicate EventGood(e: Event) {
    match e
    case RecordRemoved(s, head, dirty, tip) =>
      head == Some(s.original) && !dirty && (s.branch != s.original ==> tip == Some(s.originalHead))
    case LockReleased(recorded) => !recorded
  }

  ghost predicate Inv(w: World) {
    && (forall i :: 0 <= i < |w.events| ==> EventGood(w.events[i]))
    && (w.record.Saved? ==> w.last == Some(w.record.session) && w.lock == Some(w.record.session.token))
    && (w.record.Saved? ==> w.links <= set p | p in w.record.session.links)
    && (w.record.Torn? ==> w.lock.Some?)
    && (!w.record.Saved? ==> w.links == {} && (w.last.Some? ==> w.head == Some(w.last.value.original)))
  }

  /** In every state a crash can leave, the session's branch or links in the checkout mean that both the record
      and the lock are there. */
  lemma RecordCoversEffects(w: World)
    requires Inv(w) && w.last.Some? && Carries(w, w.last.value)
    ensures w.record == Saved(w.last.value) && w.lock == Some(w.last.value.token)
  {
  }

  /** What anybody may do at any time: the command, the operator and Git itself change branches, commits, the tree
      and what is at the link paths, but neither the record nor the lock.  While a whole record is there the
      session answers for what it finds; once there is none, what others do to the checkout is no session's. */
  predicate OutsideStep(w: World, w': World) {
    && w' == w.(head := w'.head, refs := w'.refs, dirty := w'.dirty, links := w'.links, odd := w'.odd, last := w'.last)
    && if w.record.Saved? then w'.last == w.last && w'.links <= set p | p in w.record.session.links
       else w'.last == None && w'.links == {}
  }

  lemma OutsideKeepsInv(w: World, w': World)
    requires Inv(w) && OutsideStep(w, w')
    ensures Inv(w')
  {
  }

  function Tip(w: World): Option<Commit> {
    if w.head.Some? && w.head.value in w.refs then Some(w.refs[w.head.value]) else None
  }

  /** The checkout a finish accepts: attached to the session's branch (or still to the original one, when the
      command never started), clean, the original branch where it was, and every link in place. */
  ghost predicate Restorable(w: World, s: Session, unstarted: bool) {
    && w.head.Some?
    && (w.head.value == s.branch || (unstarted && w.head.value == s.original))
    && !w.dirty
    && (s.original != s.branch ==> s.original in w.refs && w.refs[s.original] == s.originalHead)
    && (forall i :: 0 <= i < |s.links| ==> s.links[i] !in w.odd && (unstarted || s.links[i] in w.links))
  }

  /** What the opening process may still undo, a later close may undo exactly when the session's branch and all of
      its links were in place. */
  lemma CloseNeedsStarted(w: World, s: Session)
    requires Inv(w) && w.record == Saved(s) && Restorable(w, s, true)
    ensures Restorable(w, s, false) <==> w.head == Some(s.branch) && forall p :: p in s.links ==> p in w.links
  {
    assert forall i :: 0 <= i < |s.links| ==> s.links[i] in s.links;
  }

  /** A process that dies between its record and its switch leaves such a record: its own undo would have
      succeeded, and every later close refuses until HEAD is put on the session's branch by hand. */
  lemma StrandedRecord(s: Session, refs: map<Branch, Commit>)
    requires s.branch != s.original && s.original in refs && refs[s.original] == s.originalHead
    ensures var w := World(Saved(s), Some(s.token), Some(s.original), refs, false, {}, {}, Some(s), []);
            Inv(w) && Restorable(w, s, true) && !Restorable(w, s, false)
  {
  }

  /** How opening ends: refused or given up before anything was recorded, with the lock or the record left unclear,
      undone before the command ran, kept as it was because the record or the lock could not be verified, with the
      undoing after the command incomplete, or done. */
  datatype Ending = NotStarted | LockFailed | RecordFailed | Undone | Retained | Unfinished | Done

  class Checkout {
    // How many more things may go wrong for this process.
    var mishaps: nat
    var w: World

    constructor (mishaps: nat, w: World)
      requires Inv(w)
      ensures this.mishaps == mishaps && this.w == w
    {
      this.mishaps := mishaps;
      this.w := w;
    }

    /** What fails uses up a mishap. */
    twostate predicate Sure(ok: bool) reads this {
      mishaps <= old(mishaps) && (!ok ==> mishaps < old(mishaps))
    }

    method Chance() returns (lucky: bool)
      modifies this`mishaps
      ensures Sure(lucky)
    {
      lucky := *;
      lucky := lucky || mishaps == 0;
      if !lucky { mishaps := mishaps - 1; }
    }

    // ---------- effects under the record ----------

    /** `sessionSwitch`. */
    method Switch(b: Branch) returns (ok: bool)
      requires Inv(w) && w.record.Saved?
      modifies this
      ensures Inv(w) && w == old(w).(head := w.head) && (w.head == Some(b) || w.head == old(w.head))
      ensures ok ==> w.head == Some(b)
      ensures Sure(ok)
    {
      var moved := Chance();
      if moved { w := w.(head := Some(b)); }
      var reported := Chance();
      ok := moved && reported;
    }

    /** `ApplyCheckoutSessionLinks`. */
    method ApplyLinks(s: Session) returns (ok: bool)
      requires Inv(w) && w.record == Saved(s)
      modifies this
      ensures Inv(w) && w == old(w).(links := w.links)
      ensures ok ==> forall i :: 0 <= i < |s.links| ==> s.links[i] in w.links
      ensures Sure(ok)
    {
      for i := 0 to |s.links|
        invariant mishaps <= old(mishaps)
        invariant Inv(w) && w == old(w).(links := w.links)
        invariant forall k :: 0 <= k < i ==> s.links[k] in w.links
      {
        var made := Chance();
        if made { w := w.(links := w.links + {s.links[i]}); }
        var reported := Chance();
        if !made || !reported { return false; }
      }
      return true;
    }

    /** Removes the links, in order.  A link that is not there stops a started session. */
    method RemoveLinks(s: Session, unstarted: bool) returns (ok: bool)
      requires Inv(w) && w.record == Saved(s)
      modifies this
      ensures Inv(w) && w == old(w).(links := w.links) && w.links <= old(w.links)
      ensures ok ==> w.links == {}
      ensures mishaps <= old(mishaps)
      ensures unstarted || (Distinct(s.links) && forall i :: 0 <= i < |s.links| ==> s.links[i] in old(w.links)) ==>
                Sure(ok)
    {
      for i := 0 to |s.links|
        invariant mishaps <= old(mishaps)
        invariant Inv(w) && w == old(w).(links := w.links) && w.links <= old(w.links)
        invariant forall k :: 0 <= k < i ==> s.links[k] !in w.links
        invariant Distinct(s.links) ==>
          forall k :: i <= k < |s.links| && s.links[k] in old(w.links) ==> s.links[k] in w.links
      {
        var present := s.links[i] in w.links;
        var removed := Chance();
        if removed { w := w.(links := w.links - {s.links[i]}); }
        var reported := Chance();
        if !(removed && reported) || (!present && !unstarted) { return false; }
      }
      return true;
    }

    static predicate Distinct(links: seq<Path>) {
      forall i, j :: 0 <= i < j < |links| ==> links[i] != links[j]
    }

    // ---------- finishing ----------

    /** The checks of `finishCheckoutCommandSession` before it touches anything. */
    method MayRestore(s: Session, unstarted: bool) returns (may: bool)
      modifies this`mishaps
      ensures may ==> Restorable(w, s, unstarted)
      ensures mishaps <= old(mishaps)
      ensures Restorable(w, s, unstarted) ==> Sure(may)
    {
      var verifiable := Chance();
      if !verifiable || w.head.None? || w.dirty { return false; }
      if w.head.value != s.branch && (!unstarted || w.head.value != s.original) { return false; }
      if s.original != s.branch && (s.original !in w.refs || w.refs[s.original] != s.originalHead) { return false; }
      for i := 0 to |s.links|
        invariant forall k :: 0 <= k < i ==> s.links[k] !in w.odd && (unstarted || s.links[k] in w.links)
      {
        if s.links[i] in w.odd || (!unstarted && s.links[i] !in w.links) { return false; }
      }
      return true;
    }

    /** Switches back, unless HEAD never left, and checks what it finds there. */
    method SwitchBack(s: Session) returns (ok: bool)
      requires Inv(w) && w.record == Saved(s) && w.head.Some? && !w.dirty
      requires w.head.value == s.branch || w.head.value == s.original
      requires s.original != s.branch ==> s.original in w.refs && w.refs[s.original] == s.originalHead
      modifies this
      ensures Inv(w) && w == old(w).(head := w.head)
      ensures ok ==> w.head == Some(s.original)
      ensures Sure(ok)
    {
      if w.head == Some(s.original) { return true; }
      ok := Switch(s.original);
      if !ok { return; }
      var verifiable := Chance();
      ok := verifiable && Tip(w) == Some(s.originalHead) && w.head == Some(s.original) && !w.dirty;
    }

    /** `finishCheckoutCommandSession`: the links go, then the branch, then the record, and last the lock. */
    method Finish(s: Session, unstarted: bool) returns (ok: bool)
      requires Inv(w) && w.record == Saved(s)
      modifies this
      ensures Inv(w) && w.last == old(w.last)
      ensures ok ==> w.record.Absent? && w.lock.None? && w.links == {} && w.head == Some(s.original)
      ensures w.record.Absent? ==> old(Restorable(w, s, unstarted))
      ensures !old(Restorable(w, s, unstarted)) ==> !ok && w == old(w)
      ensures mishaps <= old(mishaps)
      ensures (unstarted || Distinct(s.links)) && old(Restorable(w, s, unstarted)) ==> Sure(ok)
    {
      ok := MayRestore(s, unstarted);
      if !ok { return; }
      ok := RemoveLinks(s, unstarted);
      if !ok { return; }
      ok := SwitchBack(s);
      if !ok { return; }
      ok := RemoveRecord(s);
      if !ok { return; }
      ok := ReleaseLock();
    }

    method RemoveRecord(s: Session) returns (ok: bool)
      requires Inv(w) && w.record == Saved(s) && w.links == {} && w.head == Some(s.original) && !w.dirty
      requires s.original != s.branch ==> s.original in w.refs && w.refs[s.original] == s.originalHead
      modifies this
      ensures Inv(w) && w.last == old(w.last) && w.links == {} && w.head == old(w.head)
      ensures ok ==> w.record.Absent?
      ensures w.record.Saved? || w.record.Absent?
      ensures Sure(ok)
    {
      var owned := Chance();
      if !owned { return false; }
      var removed := Chance();
      if removed {
        w := w.(record := Absent, events := w.events + [RecordRemoved(s, w.head, w.dirty, Tip(w))]);
      }
      var durable := Chance();
      ok := removed && durable;
    }

    method ReleaseLock() returns (ok: bool)
      requires Inv(w) && w.record.Absent?
      modifies this
      ensures Inv(w) && w == old(w).(lock := w.lock, events := w.events)
      ensures ok ==> w.lock.None?
      ensures Sure(ok)
    {
      var released := Chance();
      if released { w := w.(lock := None, events := w.events + [LockReleased(!w.record.Absent?)]); }
      var reported := Chance();
      ok := released && reported;
    }

    // ---------- opening ----------

    /** `createCheckoutCommandState`: an exclusive write that may be torn. */
    method CreateRecord(s: Session) returns (ok: bool)
      requires Inv(w) && w.record.Absent? && w.lock == Some(s.token) && w.head == Some(s.original)
      modifies this
      ensures Inv(w) && w == old(w).(record := w.record, last := w.last)
      ensures ok ==> w.record == Saved(s)
      ensures w.record.Absent? || w.last == Some(s)
      ensures Sure(ok)
    {
      var written := Chance();
      var started: bool := *;
      if written {
        w := w.(record := Saved(s), last := Some(s));
      } else if started {
        w := w.(record := Torn, last := Some(s));
      }
      var durable := Chance();
      ok := w.record.Saved? && durable;
    }

    /** The command itself, with everybody else acting meanwhile.  Unless something goes wrong it changes nothing but
        its own branch. */
    method RunCommand(s: Session)
      requires Inv(w) && w.record == Saved(s)
      modifies this
      ensures Inv(w) && w.record == Saved(s) && w.last == old(w.last)
      ensures mishaps <= old(mishaps)
      ensures old(Restorable(w, s, false)) && mishaps == old(mishaps) ==> Restorable(w, s, false)
    {
      var next: World := *;
      var tip: Commit := *;
      var calm := Chance();
      if calm {
        w := w.(refs := w.refs[s.branch := tip]);
      } else if OutsideStep(w, next) {
        w := next;
      }
    }

    /** `OpenCheckoutCommand` for a direct command: lock, record, switch, links, command, finish. */
    method Open(branch: Branch, links: seq<Path>, token: Token) returns (ending: Ending)
      requires Inv(w)
      modifies this
      ensures Inv(w)
      ensures ending == Done ==> Restored(old(w))
      ensures old(mishaps) == 0 && old(Openable(branch, links)) ==> ending == Done
      ensures old(mishaps) <= 1 && ending == NotStarted ==> Restored(old(w)) || w == old(w)
      ensures old(mishaps) <= 1 && ending == Undone && old(Openable(branch, links)) ==> Restored(old(w))
      ensures ending == Retained ==> old(Openable(branch, [])) && Untouched(old(w), branch, links)
      ensures old(Openable(branch, links)) && ending != Done ==> mishaps < old(mishaps)
    {
      var admitted := Chance();
      if !admitted || !w.record.Absent? || w.lock.Some? || w.dirty || w.head.None? || w.head.value !in w.refs {
        return NotStarted;
      }
      var locked := Chance();
      if locked { w := w.(lock := Some(token)); }
      var reported := Chance();
      if !locked || !reported { return LockFailed; }
      admitted := Chance();
      var s := Session(branch, w.head.value, w.refs[w.head.value], links, token);
      var recorded := false;
      if admitted { recorded := CreateRecord(s); }
      if !recorded {
        // Nothing was recorded: the lock is dropped again.  Any record, even a torn one, keeps it.
        if !w.record.Absent? { return RecordFailed; }
        var dropped := Chance();
        if dropped { w := w.(lock := None); }
        return NotStarted;
      }
      ending := RunUnderRecord(s);
    }

    /** No record, no lock, no link, and HEAD where it was. */
    ghost predicate Restored(v: World)
      reads this
    {
      w.record.Absent? && w.lock.None? && w.links == {} && w.head == v.head
    }

    /** The session's record and lock are there, and its effects are either all in place or none of them is. */
    ghost predicate Untouched(v: World, branch: Branch, links: seq<Path>)
      reads this
    {
      && w.record.Saved? && w.record.session.branch == branch && w.record.session.links == links
      && w.lock == Some(w.record.session.token)
      && ((w.head == v.head && w.links == {})
          || (w.head == Some(branch) && forall i :: 0 <= i < |links| ==> links[i] in w.links))
    }

    ghost predicate Openable(branch: Branch, links: seq<Path>)
      reads this
    {
      && w.record.Absent? && w.lock.None? && !w.dirty && w.head.Some? && w.head.value in w.refs
      && Distinct(links) && forall i :: 0 <= i < |links| ==> links[i] !in w.odd
    }

    method RunUnderRecord(s: Session) returns (ending: Ending)
      requires Inv(w) && w.record == Saved(s) && w.links == {} && w.head == Some(s.original)
      modifies this
      ensures Inv(w) && mishaps <= old(mishaps) && !ending.NotStarted? && !ending.LockFailed? && !ending.RecordFailed?
      ensures ending == Done ==> Restored(old(w))
      ensures old(Restorable(w, s, true)) && Distinct(s.links) ==> ending == Done || mishaps < old(mishaps)
      ensures old(mishaps) <= 1 && ending == Undone && old(Restorable(w, s, true)) ==> Restored(old(w))
      ensures ending == Retained ==> Untouched(old(w), s.branch, s.links)
    {
      var verified := Chance();
      if !verified { return Retained; }
      var launched := Activate(s);
      if !launched {
        var undone := Finish(s, true);
        return Undone;
      }
      verified := Chance();
      if !verified { return Retained; }
      RunCommand(s);
      var ok := Finish(s, false);
      ending := if ok then Done else Unfinished;
    }

    /** The switch and the links. */
    method Activate(s: Session) returns (ok: bool)
      requires Inv(w) && w.record == Saved(s) && w.links == {} && w.head == Some(s.original)
      modifies this
      ensures Inv(w) && w == old(w).(head := w.head, links := w.links)
      ensures w.head == Some(s.branch) || w.head == Some(s.original)
      ensures ok ==> w.head == Some(s.branch) && forall i :: 0 <= i < |s.links| ==> s.links[i] in w.links
      ensures Sure(ok)
    {
      var admitted := Chance();
      if !admitted { return false; }
      ok := Switch(s.branch);
      if !ok { return; }
      ok := ApplyLinks(s);
      if !ok { return; }
      ok := Chance();
    }

    // ---------- closing ----------

    /** `closeCheckoutCommandSession`: any later process, once the command is known to have ended. */
    method Close() returns (ok: bool)
      requires Inv(w)
      modifies this
      ensures Inv(w)
      ensures ok ==> old(w.record.Saved?) && w.record.Absent? && w.lock.None? && w.links == {}
      ensures old(w.record.Saved? && !Restorable(w, w.record.session, false)) ==> !ok && w == old(w)
      ensures old(w.record.Saved? && Distinct(w.record.session.links) && Restorable(w, w.record.session, false)) ==>
                Sure(ok)
    {
      var ended := Chance();
      if !w.record.Saved? || !ended { return false; }
      ok := Finish(w.record.session, false);
    }

    /** Any history of commands, closes and outside changes, with processes dying anywhere. */
    method Drive(rounds: nat, branch: Branch, links: seq<Path>)
      requires Inv(w)
      modifies this
      ensures Inv(w)
    {
      for k := 0 to rounds
        invariant Inv(w)
      {
        var next: World := *;
        var choice: int := *;
        mishaps := *;
        if OutsideStep(w, next) {
          w := next;
        } else if choice == 0 {
          var _ := Open(branch, links, k);
        } else {
          var _ := Close();
        }
      }
    }
  }
}
