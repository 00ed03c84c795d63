/** The replay guard of a rebase plan: evaluation rows, refusals, the approval waiver and the assembled document. */
module PlanGuard {
  import opened Options
  import opened Tlv
  import opened PlanFingerprint
  import opened PlanSummary

  // ---------- refusal kinds ----------

  datatype RefusalKind =
    | PlanUnavailable | StackUnsortable | SelectionRefused | StateRefused | PreflightRefused | RestoreBlocked
    | FetchContextIndeterminate | FetchSubmoduleReach | FetchLocalBranchCheckedOut | InvalidGitConfig
    | IdentityNotUtf8 | RepoUnavailable | BaseExecutionStoreDivergent | HeadRefMissing | PrunableWorktree
    | BranchCheckedOutElsewhere | ExternalRebaseInProgress | ContextDirty | BaseUnset | BaseRefMissing
    | CutoffUnresolvable | ProbeFailed | SelectionHazard | GuardLimitMismatch | ApprovalWithoutLimits
    | ApprovalMismatch | RevalidationMismatch | IndeterminateEntry | LimitPerEntry | LimitTotal

  const REFUSAL_KINDS: seq<RefusalKind> := [
    PlanUnavailable, StackUnsortable, SelectionRefused, StateRefused, PreflightRefused, RestoreBlocked,
    FetchContextIndeterminate, FetchSubmoduleReach, FetchLocalBranchCheckedOut, InvalidGitConfig,
    IdentityNotUtf8, RepoUnavailable, BaseExecutionStoreDivergent, HeadRefMissing, PrunableWorktree,
    BranchCheckedOutElsewhere, ExternalRebaseInProgress, ContextDirty, BaseUnset, BaseRefMissing,
    CutoffUnresolvable, ProbeFailed, SelectionHazard, GuardLimitMismatch, ApprovalWithoutLimits,
    ApprovalMismatch, RevalidationMismatch, IndeterminateEntry, LimitPerEntry, LimitTotal]

  /** A kind's place in `REFUSAL_KINDS`. */
  function Rank(k: RefusalKind): (r: nat)
    ensures r < |REFUSAL_KINDS| && REFUSAL_KINDS[r] == k
  {
    match k
    case PlanUnavailable => 0 case StackUnsortable => 1 case SelectionRefused => 2 case StateRefused => 3
    case PreflightRefused => 4 case RestoreBlocked => 5 case FetchContextIndeterminate => 6
    case FetchSubmoduleReach => 7 case FetchLocalBranchCheckedOut => 8 case InvalidGitConfig => 9
    case IdentityNotUtf8 => 10 case RepoUnavailable => 11 case BaseExecutionStoreDivergent => 12
    case HeadRefMissing => 13 case PrunableWorktree => 14 case BranchCheckedOutElsewhere => 15
    case ExternalRebaseInProgress => 16 case ContextDirty => 17 case BaseUnset => 18 case BaseRefMissing => 19
    case CutoffUnresolvable => 20 case ProbeFailed => 21 case SelectionHazard => 22 case GuardLimitMismatch => 23
    case ApprovalWithoutLimits => 24 case ApprovalMismatch => 25 case RevalidationMismatch => 26
    case IndeterminateEntry => 27 case LimitPerEntry => 28 case LimitTotal => 29
  }

  /** `entry` is absent for facts about the whole document. */
  datatype Blocker = Blocker(kind: RefusalKind, entry: Option<Text>, detail: Text)

  // ---------- the published order ----------

  /** Rank, then document-level facts first, then the entry's name, then the sentence. */
  predicate Less(a: Blocker, b: Blocker) {
    if Rank(a.kind) != Rank(b.kind) then Rank(a.kind) < Rank(b.kind)
    else if a.entry.None? != b.entry.None? then a.entry.None?
    else if a.entry.Some? && a.entry.value != b.entry.value then TextLess(a.entry.value, b.entry.value)
    else TextLess(a.detail, b.detail)
  }

  lemma LessOrder(a: Blocker, b: Blocker, d: Blocker)
    ensures !Less(a, a)
    ensures Less(a, b) || a == b || Less(b, a)
    ensures Less(a, b) && Less(b, d) ==> Less(a, d)
  {
    TextOrder(a.detail, b.detail, d.detail);
    if a.entry.Some? { TextOrder(a.entry.value, a.entry.value, a.entry.value); }
    if a.entry.Some? && b.entry.Some? {
      TextOrder(a.entry.value, b.entry.value, b.entry.value);
      TextOrder(b.entry.value, a.entry.value, a.entry.value);
      if d.entry.Some? { TextOrder(a.entry.value, b.entry.value, d.entry.value); }
    }
  }

  /** In the published order, each blocker once. */
  ghost predicate Published(s: seq<Blocker>) {
    forall i, j :: 0 <= i < j < |s| ==> Less(s[i], s[j])
  }

  ghost predicate SameBlockers(s: seq<Blocker>, t: seq<Blocker>) {
    forall b :: b in s <==> b in t
  }

  /** There is only one published order of a set of blockers. */
  lemma {:induction false} PublishedUnique(s: seq<Blocker>, t: seq<Blocker>)
    requires Published(s) && Published(t) && SameBlockers(s, t)
    ensures s == t
  {
    if |s| > 0 && |t| > 0 {
      HeadIsLeast(s);
      HeadIsLeast(t);
      assert s[0] in t && t[0] in s;
      LessOrder(s[0], t[0], s[0]);
      assert s[0] == t[0];
      forall b
        ensures b in s[1..] <==> b in t[1..]
      {
        LessOrder(b, b, b);
        assert b in s <==> b == s[0] || b in s[1..];
        assert b in t <==> b == t[0] || b in t[1..];
      }
      PublishedUnique(s[1..], t[1..]);
    } else {
      EmptyTogether(s, t);
    }
  }

  /** In a published list the refusals of highest precedence come first, of one kind the document's own before its
      entries', then entry by entry and sentence by sentence. */
  lemma PublishedSorted(s: seq<Blocker>, i: nat, j: nat)
    requires Published(s) && i < j < |s|
    ensures Rank(s[i].kind) <= Rank(s[j].kind)
    ensures s[i].kind == s[j].kind && s[j].entry.None? ==> s[i].entry.None?
    ensures s[i].kind == s[j].kind && s[i].entry.Some? && s[j].entry.Some? ==>
              s[i].entry == s[j].entry || TextLess(s[i].entry.value, s[j].entry.value)
    ensures s[i].kind == s[j].kind && s[i].entry == s[j].entry ==> TextLess(s[i].detail, s[j].detail)
  {
    assert Less(s[i], s[j]);
    assert REFUSAL_KINDS[Rank(s[i].kind)] == s[i].kind && REFUSAL_KINDS[Rank(s[j].kind)] == s[j].kind;
  }

  lemma EmptyTogether(s: seq<Blocker>, t: seq<Blocker>)
    requires SameBlockers(s, t)
    ensures |s| == 0 <==> |t| == 0
  {
    if |s| > 0 { assert s[0] in t; }
    if |t| > 0 { assert t[0] in s; }
  }

  lemma HeadIsLeast(s: seq<Blocker>)
    requires Published(s) && |s| > 0
    ensures forall b :: b in s && b != s[0] ==> Less(s[0], b)
    ensures s[0] !in s[1..]
  {
    LessOrder(s[0], s[0], s[0]);
  }

  function Insert(b: Blocker, s: seq<Blocker>): seq<Blocker> {
    if |s| == 0 then [b]
    else if Less(s[0], b) then [s[0]] + Insert(b, s[1..])
    else if s[0] == b then s
    else [b] + s
  }

  /** `SelectPrimaryRefusal`'s second result: sorted, with exact duplicates collapsed. */
  function Ordered(bs: seq<Blocker>): seq<Blocker> {
    if |bs| == 0 then [] else Insert(bs[|bs| - 1], Ordered(bs[..|bs| - 1]))
  }

  lemma {:induction false} InsertPublished(b: Blocker, s: seq<Blocker>)
    requires Published(s)
    ensures Published(Insert(b, s))
    ensures forall x :: x in Insert(b, s) <==> x == b || x in s
  {
    if |s| > 0 {
      HeadIsLeast(s);
      LessOrder(s[0], b, b);
      if Less(s[0], b) {
        InsertPublished(b, s[1..]);
        var t := Insert(b, s[1..]);
        assert forall i :: 0 <= i < |t| ==> t[i] in t;
      } else if s[0] != b {
        forall i | 0 <= i < |s| ensures Less(b, s[i]) { LessOrder(b, s[0], s[i]); }
      }
    }
  }

  lemma {:induction false} OrderedPublished(bs: seq<Blocker>)
    ensures Published(Ordered(bs)) && SameBlockers(Ordered(bs), bs)
  {
    if |bs| > 0 {
      OrderedPublished(bs[..|bs| - 1]);
      InsertPublished(bs[|bs| - 1], Ordered(bs[..|bs| - 1]));
    }
  }

  // ---------- evaluation rows ----------

  datatype Verdict = Exceeded | WithinLimit | Unknown | Waived
  datatype Basis = PerEntry | Total | LowerBound
  datatype UnknownKind = DeferredResolvable | NotResolvable

  /** One evaluation row; its identity is its entry, or the total. */
  datatype Row = Row(
    entry: Option<Text>, limit: int, basis: Basis, value: Option<int>, unknownEntries: Option<nat>,
    verdict: Verdict, unknownKind: Option<UnknownKind>)

  function EntryRow(limit: int, e: Entry): Row {
    if IsUnknown(e) then
      Row(Some(e.name), limit, PerEntry, None, None, Unknown,
          Some(if IsDeferred(e) then DeferredResolvable else NotResolvable))
    else
      Row(Some(e.name), limit, PerEntry, Some(Count(e)), None,
          if Count(e) > limit then Exceeded else WithinLimit, None)
  }

  predicate AllUnknownDeferred(es: seq<Entry>) {
    forall i :: 0 <= i < |es| && IsUnknown(es[i]) ==> IsDeferred(es[i])
  }

  function TotalRow(limit: int, es: seq<Entry>, s: Tally): Row {
    if s.unknown == 0 then
      Row(None, limit, Total, Some(s.lowerBound), None, if s.lowerBound > limit then Exceeded else WithinLimit, None)
    else if s.lowerBound > limit then
      Row(None, limit, LowerBound, Some(s.lowerBound), Some(s.unknown), Exceeded, None)
    else
      Row(None, limit, LowerBound, Some(s.lowerBound), Some(s.unknown), Unknown,
          Some(if AllUnknownDeferred(es) then DeferredResolvable else NotResolvable))
  }

  function EntryRows(limit: int, es: seq<Entry>): (rs: seq<Row>)
    ensures |rs| == |es| && forall i :: 0 <= i < |es| ==> rs[i] == EntryRow(limit, es[i])
  {
    if |es| == 0 then [] else EntryRows(limit, es[..|es| - 1]) + [EntryRow(limit, es[|es| - 1])]
  }

  /** The rows of a document that has entries to evaluate. */
  function Rows(limits: Limits, es: seq<Entry>): seq<Row> {
    (if limits.perEntry.Some? then EntryRows(limits.perEntry.value, es) else [])
    + (if limits.total.Some? then [TotalRow(limits.total.value, es, TallyOf(es))] else [])
  }

  /** What the rows say: each entry's own count against the entry limit, and the sum of all counts against the
      total limit; a count is claimed only where it is known. */
  lemma RowsSay(limits: Limits, es: seq<Entry>)
    ensures var rows := Rows(limits, es);
            var n := if limits.perEntry.Some? then |es| else 0;
            && |rows| == n + (if limits.total.Some? then 1 else 0)
            && (forall i :: 0 <= i < n ==>
                  && rows[i].entry == Some(es[i].name) && limits.perEntry == Some(rows[i].limit)
                  && rows[i].basis == PerEntry && rows[i].unknownEntries == None
                  && rows[i].value == (if es[i].replay.determinacy == UNKNOWN then None else Some(Count(es[i])))
                  && (rows[i].unknownKind.Some? <==> es[i].replay.determinacy == UNKNOWN)
                  && (rows[i].unknownKind == Some(DeferredResolvable) <==>
                        es[i].replay.determinacy == UNKNOWN && es[i].replay.reason == Some(UPSTREAM_DEFERRED)))
            && (limits.total.Some? ==>
                  && rows[n].entry == None && limits.total == Some(rows[n].limit)
                  && rows[n].value == Some(PlanSummary.LowerBound(es))
                  && (rows[n].basis == Total <==> Number(es, UnknownCount) == 0)
                  && (rows[n].basis == LowerBound <==> Number(es, UnknownCount) > 0)
                  && (rows[n].basis == LowerBound ==> rows[n].unknownEntries == Some(Number(es, UnknownCount)))
                  && (rows[n].unknownKind == Some(DeferredResolvable) ==>
                        forall i :: 0 <= i < |es| && es[i].replay.determinacy == UNKNOWN ==>
                          es[i].replay.reason == Some(UPSTREAM_DEFERRED)))
  {
  }

  lemma SummaryOf(es: seq<Entry>, p: Plannability, s: Summary)
    requires IsSummary(es, p, s)
    ensures IsSummary(es, s.plannability, s) && s.plannability == p
  {
  }

  method GuardEvaluationRows(limits: Limits, es: seq<Entry>, s: Summary) returns (rows: seq<Row>)
    requires IsSummary(es, s.plannability, s) && !s.plannability.Unavailable?
    ensures rows == Rows(limits, es)
  {
    rows := [];
    if limits.perEntry.Some? {
      for i := 0 to |es|
        invariant rows == EntryRows(limits.perEntry.value, es[..i])
      {
        assert es[..i + 1][..i] == es[..i];
        rows := rows + [EntryRow(limits.perEntry.value, es[i])];
      }
      assert es[..|es|] == es;
    }
    if limits.total.Some? { rows := rows + [TotalRow(limits.total.value, es, Tallied(s))]; }
  }

  // ---------- the exact three-valued verdict ----------

  /** Known counts are counts, and an entry of unknown determinacy has none. */
  ghost predicate Measured(es: seq<Entry>) {
    forall i :: 0 <= i < |es| ==> Count(es[i]) >= 0 && (IsUnknown(es[i]) ==> es[i].replay.candidateCount.None?)
  }

  /** A possible outcome: the known counts as measured, the unknown ones anything. */
  ghost predicate Completes(es: seq<Entry>, c: seq<nat>) {
    |c| == |es| && forall i :: 0 <= i < |es| && !IsUnknown(es[i]) ==> c[i] == Count(es[i])
  }

  function Sum(c: seq<nat>): nat {
    if |c| == 0 then 0 else Sum(c[..|c| - 1]) + c[|c| - 1]
  }

  /** The verdict a quantity deserves when all that is known is the set of its possible values. */
  ghost predicate ExactEntry(limit: int, es: seq<Entry>, i: nat, v: Verdict)
    requires i < |es|
  {
    && (v == Exceeded <==> forall c :: Completes(es, c) ==> c[i] > limit)
    && (v == WithinLimit <==> forall c :: Completes(es, c) ==> c[i] <= limit)
    && v != Waived
  }

  ghost predicate ExactTotal(limit: int, es: seq<Entry>, v: Verdict) {
    && (v == Exceeded <==> forall c :: Completes(es, c) ==> Sum(c) > limit)
    && (v == WithinLimit <==> forall c :: Completes(es, c) ==> Sum(c) <= limit)
    && v != Waived
  }

  /** Every unknown count completed by `n`. */
  function Filled(es: seq<Entry>, n: nat): (c: seq<nat>)
    requires forall i :: 0 <= i < |es| ==> Count(es[i]) >= 0
    ensures |c| == |es|
    ensures forall i :: 0 <= i < |es| ==> c[i] == if IsUnknown(es[i]) then n else Count(es[i])
  {
    if |es| == 0 then []
    else Filled(es[..|es| - 1], n) + [if IsUnknown(es[|es| - 1]) then n else Count(es[|es| - 1])]
  }

  lemma {:induction false} FilledSum(es: seq<Entry>, n: nat)
    requires Measured(es)
    ensures Completes(es, Filled(es, n))
    ensures Sum(Filled(es, n)) >= TallyOf(es).lowerBound + (if TallyOf(es).unknown > 0 then n else 0)
    ensures n == 0 ==> Sum(Filled(es, n)) == TallyOf(es).lowerBound
    ensures TallyOf(es).unknown == 0 ==> Sum(Filled(es, n)) == TallyOf(es).lowerBound
  {
    if |es| > 0 {
      FilledSum(es[..|es| - 1], n);
      assert Filled(es, n)[..|es| - 1] == Filled(es[..|es| - 1], n);
    }
  }

  lemma {:induction false} CompletionSum(es: seq<Entry>, c: seq<nat>)
    requires Measured(es) && Completes(es, c)
    ensures Sum(c) >= TallyOf(es).lowerBound
    ensures TallyOf(es).unknown == 0 ==> Sum(c) == TallyOf(es).lowerBound
  {
    if |es| > 0 {
      CompletionSum(es[..|es| - 1], c[..|es| - 1]);
    }
  }

  lemma EntryVerdictExact(limit: nat, es: seq<Entry>, i: nat)
    requires Measured(es) && i < |es|
    ensures ExactEntry(limit, es, i, EntryRow(limit, es[i]).verdict)
  {
    FilledSum(es, 0);
    FilledSum(es, limit + 1);
    var low, high := Filled(es, 0), Filled(es, limit + 1);
    assert Completes(es, low) && Completes(es, high);
    assert IsUnknown(es[i]) ==> low[i] <= limit < high[i];
  }

  lemma TotalVerdictExact(limit: nat, es: seq<Entry>)
    requires Measured(es)
    ensures ExactTotal(limit, es, TotalRow(limit, es, TallyOf(es)).verdict)
  {
    forall c | Completes(es, c)
      ensures Sum(c) >= TallyOf(es).lowerBound
      ensures TallyOf(es).unknown == 0 ==> Sum(c) == TallyOf(es).lowerBound
    {
      CompletionSum(es, c);
    }
    FilledSum(es, 0);
    FilledSum(es, limit + 1);
    assert Completes(es, Filled(es, 0)) && Completes(es, Filled(es, limit + 1));
    LowerBoundNonNegative(es);
  }

  lemma {:induction false} LowerBoundNonNegative(es: seq<Entry>)
    requires Measured(es)
    ensures TallyOf(es).lowerBound >= 0
  {
    if |es| > 0 { LowerBoundNonNegative(es[..|es| - 1]); }
  }

  // ---------- refusal and waiver ----------

  predicate Unresolvable(r: Row) {
    r.verdict == Verdict.Unknown && r.unknownKind == Some(NotResolvable)
  }

  ghost predicate AnyUnresolvable(rows: seq<Row>) {
    exists i :: 0 <= i < |rows| && Unresolvable(rows[i])
  }

  predicate Refuses(r: Row) {
    r.verdict == Exceeded || Unresolvable(r)
  }

  ghost predicate AnyRefuses(rows: seq<Row>) {
    exists i :: 0 <= i < |rows| && Refuses(rows[i])
  }

  method GuardWouldRefuse(rows: seq<Row>) returns (refuses: bool)
    ensures refuses <==> AnyRefuses(rows)
  {
    for i := 0 to |rows|
      invariant forall k :: 0 <= k < i ==> !Refuses(rows[k])
    {
      if Refuses(rows[i]) { return true; }
    }
    return false;
  }

  function WaivedRow(r: Row): Row {
    if r.verdict == Exceeded then r.(verdict := Waived) else r
  }

  function WaivedRows(rows: seq<Row>): (out: seq<Row>)
    ensures |out| == |rows| && forall i :: 0 <= i < |rows| ==> out[i] == WaivedRow(rows[i])
  {
    if |rows| == 0 then [] else WaivedRows(rows[..|rows| - 1]) + [WaivedRow(rows[|rows| - 1])]
  }

  function LimitKind(r: Row): RefusalKind {
    if r.basis == PerEntry then LimitPerEntry else LimitTotal
  }

  /** `applyApprovalWaiver`: an accepted approval rewrites exactly the exceeded rows, and reports them. */
  method ApplyApprovalWaiver(rows: seq<Row>, accepted: bool)
    returns (out: seq<Row>, waived: seq<Row>, perEntry: bool, total: bool)
    ensures out == if accepted then WaivedRows(rows) else rows
    ensures forall r :: r in waived <==> accepted && r in rows && r.verdict == Exceeded
    ensures perEntry <==> exists r :: r in waived && LimitKind(r) == LimitPerEntry
    ensures total <==> exists r :: r in waived && LimitKind(r) == LimitTotal
  {
    out, waived, perEntry, total := rows, [], false, false;
    if !accepted { return; }
    for i := 0 to |rows|
      invariant |out| == |rows|
      invariant forall k :: 0 <= k < |rows| ==> out[k] == if k < i then WaivedRow(rows[k]) else rows[k]
      invariant forall r :: r in waived <==> r in rows[..i] && r.verdict == Exceeded
      invariant perEntry <==> exists r :: r in waived && LimitKind(r) == LimitPerEntry
      invariant total <==> exists r :: r in waived && LimitKind(r) == LimitTotal
    {
      if out[i].verdict == Exceeded {
        waived := waived + [out[i]];
        if LimitKind(out[i]) == LimitPerEntry { perEntry := true; } else { total := true; }
        out := out[i := out[i].(verdict := Waived)];
      }
    }
    assert out == WaivedRows(rows);
  }

  /** The bytes of a sentence in ASCII. */
  function Ascii(s: string): Text {
    seq(|s|, i requires 0 <= i < |s| => s[i] as int % 256)
  }

  /** A number in decimal. */
  function Digits(n: nat): Text {
    (if n < 10 then [] else Digits(n / 10)) + [48 + n % 10]
  }

  function Decimal(n: int): Text {
    if n < 0 then [45] + Digits(-n) else Digits(n)
  }

  function NumberOrNone(n: Option<int>): Text {
    if n.Some? then Decimal(n.value) else Ascii("none")
  }

  /** The sentence of a limit blocker. */
  function LimitDetail(r: Row): Text {
    if r.basis == PerEntry then
      (if r.entry.Some? then r.entry.value else []) + Ascii(": ") + NumberOrNone(r.value)
      + Ascii(" candidate(s) exceeds the effective per-entry replay limit of ") + Decimal(r.limit)
    else
      NumberOrNone(r.value) + Ascii(" candidate(s) exceeds the effective total replay limit of ") + Decimal(r.limit)
  }

  /** The sentence of an entry whose count cannot be resolved. */
  function UnresolvedDetail(name: Text): Text {
    name + Ascii(": replay candidate count cannot be resolved before execution while a replay limit is in force")
  }

  function MismatchDetail(): Text {
    Ascii("the supplied approval token does not match this plan's own fingerprint")
  }

  function WithoutLimitsDetail(): Text {
    Ascii("the continuation supplied --approve-plan with no effective replay limit in force")
  }

  function EncodingDetail(issues: nat): Text {
    Decimal(issues)
    + Ascii(" bound identity value(s) are not valid UTF-8; no approval token can be minted for this plan")
  }

  function LimitBlocker(r: Row): Blocker {
    Blocker(LimitKind(r), if r.basis == PerEntry then r.entry else None, LimitDetail(r))
  }

  function LimitBlockers(rows: seq<Row>): (bs: seq<Blocker>)
    ensures forall b :: b in bs ==> b.kind == LimitPerEntry || b.kind == LimitTotal
  {
    if |rows| == 0 then []
    else LimitBlockers(rows[..|rows| - 1])
         + if rows[|rows| - 1].verdict == Exceeded then [LimitBlocker(rows[|rows| - 1])] else []
  }

  method LimitExceededBlockers(rows: seq<Row>) returns (bs: seq<Blocker>)
    ensures bs == LimitBlockers(rows)
  {
    bs := [];
    for i := 0 to |rows|
      invariant bs == LimitBlockers(rows[..i])
    {
      assert rows[..i + 1][..i] == rows[..i];
      if rows[i].verdict == Exceeded { bs := bs + [LimitBlocker(rows[i])]; }
    }
    assert rows[..|rows|] == rows;
  }

  function IndeterminateBlockers(es: seq<Entry>, limits: Limits): seq<Blocker> {
    if |es| == 0 || (limits.perEntry.None? && limits.total.None?) then []
    else
      var e := es[|es| - 1];
      IndeterminateBlockers(es[..|es| - 1], limits)
      + if !IsUnknown(e) || IsDeferred(e) then []
        else [Blocker(IndeterminateEntry, Some(e.name), UnresolvedDetail(e.name))]
  }

  lemma {:induction false} IndeterminateKinds(es: seq<Entry>, limits: Limits, b: Blocker)
    requires b in IndeterminateBlockers(es, limits)
    ensures b.kind == IndeterminateEntry
  {
    hide UnresolvedDetail;
    var t := es[..|es| - 1];
    if b in IndeterminateBlockers(t, limits) { IndeterminateKinds(t, limits, b); }
  }

  method IndeterminateEntryBlockers(es: seq<Entry>, limits: Limits) returns (bs: seq<Blocker>)
    ensures bs == IndeterminateBlockers(es, limits)
  {
    hide UnresolvedDetail;
    bs := [];
    if limits.perEntry.None? && limits.total.None? { return; }
    for i := 0 to |es|
      invariant bs == IndeterminateBlockers(es[..i], limits)
    {
      assert es[..i + 1][..i] == es[..i];
      if es[i].replay.determinacy != UNKNOWN { continue; }
      if es[i].replay.reason == Some(UPSTREAM_DEFERRED) { continue; }
      bs := bs + [Blocker(IndeterminateEntry, Some(es[i].name), UnresolvedDetail(es[i].name))];
    }
    assert es[..|es|] == es;
  }

  lemma {:induction false} LimitBlockersExist(rows: seq<Row>)
    ensures LimitBlockers(rows) != [] <==> exists i :: 0 <= i < |rows| && rows[i].verdict == Exceeded
  {
    if |rows| > 0 {
      var t := rows[..|rows| - 1];
      LimitBlockersExist(t);
      assert forall i :: 0 <= i < |t| ==> t[i] == rows[i];
    }
  }

  lemma {:induction false} IndeterminateExist(es: seq<Entry>, limits: Limits)
    requires limits.perEntry.Some? || limits.total.Some?
    ensures IndeterminateBlockers(es, limits) != []
            <==> exists i :: 0 <= i < |es| && IsUnknown(es[i]) && !IsDeferred(es[i])
  {
    hide IsUnknown, IsDeferred, UnresolvedDetail;
    if |es| > 0 {
      var t := es[..|es| - 1];
      IndeterminateExist(t, limits);
      assert forall i :: 0 <= i < |t| ==> t[i] == es[i];
    }
  }

  lemma {:induction false} UnknownCounted(es: seq<Entry>)
    ensures TallyOf(es).unknown > 0 <==> exists i :: 0 <= i < |es| && IsUnknown(es[i])
  {
    if |es| > 0 {
      var t := es[..|es| - 1];
      UnknownCounted(t);
      assert forall i :: 0 <= i < |t| ==> t[i] == es[i];
    }
  }

  /** An entry the guard cannot resolve makes a row refuse. */
  lemma UnresolvedRefuses(limits: Limits, es: seq<Entry>, i: nat) returns (k: nat)
    requires limits.perEntry.Some? || limits.total.Some?
    requires i < |es| && IsUnknown(es[i]) && !IsDeferred(es[i])
    ensures k < |Rows(limits, es)| && Refuses(Rows(limits, es)[k])
  {
    UnknownCounted(es);
    k := if limits.perEntry.Some? then i else 0;
  }

  /** A refusing row that exceeds nothing comes from such an entry. */
  lemma RefusalIsUnresolved(limits: Limits, es: seq<Entry>, k: nat) returns (i: nat)
    requires k < |Rows(limits, es)| && Refuses(Rows(limits, es)[k]) && Rows(limits, es)[k].verdict != Exceeded
    ensures limits.perEntry.Some? || limits.total.Some?
    ensures i < |es| && IsUnknown(es[i]) && !IsDeferred(es[i])
  {
    if limits.perEntry.Some? && k < |es| {
      i := k;
    } else {
      assert !AllUnknownDeferred(es);
      i :| i < |es| && IsUnknown(es[i]) && !IsDeferred(es[i]);
    }
  }

  /** Before any waiver the document would refuse exactly when one of its own guard blockers says so. */
  lemma WouldRefuseMeansBlocked(limits: Limits, es: seq<Entry>)
    ensures AnyRefuses(Rows(limits, es))
            <==> IndeterminateBlockers(es, limits) != [] || LimitBlockers(Rows(limits, es)) != []
  {
    var rows := Rows(limits, es);
    LimitBlockersExist(rows);
    if limits.perEntry.Some? || limits.total.Some? { IndeterminateExist(es, limits); }
    hide Rows, IsUnknown, IsDeferred;
    if IndeterminateBlockers(es, limits) != [] {
      var i: nat :| i < |es| && IsUnknown(es[i]) && !IsDeferred(es[i]);
      var k := UnresolvedRefuses(limits, es, i);
    }
    if exists k: nat :: k < |rows| && Refuses(rows[k]) && rows[k].verdict != Exceeded {
      var k: nat :| k < |rows| && Refuses(rows[k]) && rows[k].verdict != Exceeded;
      var i := RefusalIsUnresolved(limits, es, k);
    }
  }

  // ---------- the document ----------

  /** What building a document starts from: the plan without its outcome, the approval token given (empty for
      none), the blockers found without looking at limits or approval, and the facts that decide the rest. */
  datatype Request = Request(
    draft: Plan<()>, rowsAvailable: bool, approve: Text, resumed: bool, encodingIssues: nat,
    others: seq<Blocker>, pushDropped: bool, restoreBlocked: bool, restoreKnown: bool)

  datatype Outcome = Outcome(
    summary: Summary, fingerprint: Option<Text>, accepted: bool, rows: seq<Row>,
    wouldRefuseWithoutApproval: bool, wouldRefuse: bool,
    blockers: seq<Blocker>, runnable: bool, refusal: Option<Blocker>)

  predicate HasLimits(l: Limits) { l.perEntry.Some? || l.total.Some? }

  predicate HasWork(p: Plan<()>) {
    |p.entries| > 0 || |p.pushTargets| > 0 || p.restore.applies
  }

  predicate Usable(r: Request) {
    HasWork(r.draft) && HasLimits(r.draft.limits) && r.encodingIssues == 0
  }

  /** The token minted for a plan.  The hash is taken to be injective, so the bytes hashed stand for it. */
  function Token<O>(p: Plan<O>): Text { Preimage(p) }

  function Fingerprint(r: Request): Option<Text> {
    if Usable(r) then Some(Token(r.draft)) else None
  }

  predicate Accepted(r: Request) {
    Usable(r) && r.approve != [] && Some(r.approve) == Fingerprint(r)
  }

  /** No rows are evaluated in a document that publishes no entries. */
  function PreWaiver(r: Request): seq<Row> {
    if r.rowsAvailable then Rows(r.draft.limits, r.draft.entries) else []
  }

  function PostWaiver(r: Request): seq<Row> {
    if Accepted(r) then WaivedRows(PreWaiver(r)) else PreWaiver(r)
  }

  function Mismatch(): Blocker {
    Blocker(ApprovalMismatch, None, MismatchDetail())
  }

  /** A resumed run was given a token although no limit is in force. */
  function ResumedBlockers(r: Request): seq<Blocker> {
    if r.resumed && r.approve != [] && !HasLimits(r.draft.limits)
    then [Blocker(ApprovalWithoutLimits, None, WithoutLimitsDetail())] else []
  }

  /** The token given is not the document's own. */
  function MismatchBlockers(r: Request): seq<Blocker> {
    if Usable(r) && r.approve != [] && Some(r.approve) != Fingerprint(r) then [Mismatch()] else []
  }

  /** Some text cannot be bound where a token would be minted or was given. */
  function EncodingBlockers(r: Request): seq<Blocker> {
    if r.encodingIssues > 0 && ((HasWork(r.draft) && HasLimits(r.draft.limits)) || r.approve != [])
    then [Blocker(IdentityNotUtf8, None, EncodingDetail(r.encodingIssues))] else []
  }

  function ApprovalBlockers(r: Request): seq<Blocker> {
    ResumedBlockers(r) + MismatchBlockers(r) + EncodingBlockers(r)
  }

  function Candidates(r: Request): seq<Blocker> {
    r.others + ApprovalBlockers(r) + IndeterminateBlockers(r.draft.entries, r.draft.limits)
    + LimitBlockers(PostWaiver(r))
  }

  predicate Stops(b: Blocker) {
    Rank(b.kind) <= Rank(SelectionHazard)
  }

  method ComputeRunnable(bs: seq<Blocker>) returns (runnable: bool)
    ensures runnable <==> forall b :: b in bs ==> !Stops(b)
  {
    for i := 0 to |bs|
      invariant forall k :: 0 <= k < i ==> !Stops(bs[k])
    {
      if Rank(bs[i].kind) <= Rank(SelectionHazard) {
        assert bs[i] in bs && Stops(bs[i]);
        return false;
      }
    }
    return true;
  }

  /** The final plan: the draft with the push and restore verdicts filled in from the blockers. */
  function Finished(r: Request, o: Outcome): Plan<Outcome> {
    var p := r.draft;
    Plan(p.workspace, p.feature, p.route, p.policy, p.limits, p.intent,
         p.restore.(executable := if !p.restore.applies || !r.rowsAvailable || !r.restoreKnown then None
                                  else Some(!r.restoreBlocked && o.blockers == [])),
         p.approvalScope, p.repositories, p.pushTargets,
         if !p.intent.push || !r.rowsAvailable then None else Some(!r.pushDropped && o.blockers == []),
         p.entries, o)
  }

  /** What the published outcome of a request has to be. */
  ghost predicate IsOutcome(r: Request, o: Outcome) {
    && IsSummary(r.draft.entries, PlannabilityFor(r.rowsAvailable, |r.draft.entries|), o.summary)
    && o.fingerprint == Fingerprint(r) && o.accepted == Accepted(r)
    && o.rows == PostWaiver(r)
    && (o.wouldRefuseWithoutApproval <==> AnyRefuses(PreWaiver(r)))
    && (o.wouldRefuse <==> AnyRefuses(PostWaiver(r)))
    && o.blockers == Ordered(Candidates(r))
    && (o.runnable <==> forall b :: b in o.blockers ==> !Stops(b))
    && o.refusal == (if o.blockers == [] then None else Some(o.blockers[0]))
  }

  /** The kinds after the selection hazard. */
  const REPORTED_ONLY: set<RefusalKind> := {
    GuardLimitMismatch, ApprovalWithoutLimits, ApprovalMismatch, RevalidationMismatch, IndeterminateEntry,
    LimitPerEntry, LimitTotal}

  /** What stops a run is every kind up to the selection hazard and none after it. */
  lemma StopsExactly(b: Blocker)
    ensures Stops(b) <==> b.kind !in REPORTED_ONLY
  {
  }

  /** `BuildRebasePlan`, from the assembled draft on.  A token is minted for work under a limit whose texts are all
      encodable; the run may start when no blocker up to the selection hazard is published; a push and a restoration
      are judged where they are wanted and known, and are executable only with no blocker at all. */
  method BuildRebasePlan(r: Request) returns (plan: Plan<Outcome>)
    ensures IsOutcome(r, plan.outcome) && plan == Finished(r, plan.outcome)
    ensures var d, o := r.draft, plan.outcome;
            && (o.fingerprint.Some? <==>
                  && (|d.entries| > 0 || |d.pushTargets| > 0 || d.restore.applies)
                  && (d.limits.perEntry.Some? || d.limits.total.Some?) && r.encodingIssues == 0)
            && (o.fingerprint.Some? ==> o.fingerprint == Some(Preimage(d)))
            && (o.accepted <==> o.fingerprint.Some? && r.approve == o.fingerprint.value)
            && (o.runnable <==> forall b :: b in o.blockers ==> b.kind in REPORTED_ONLY)
            && (o.summary.plannability == Unavailable <==> !r.rowsAvailable)
            && (o.summary.plannability == Plannability.Rows <==> r.rowsAvailable && |d.entries| > 0)
    ensures plan.pushExecutable.None? <==> !r.draft.intent.push || !r.rowsAvailable
    ensures plan.pushExecutable == Some(true) <==>
              r.draft.intent.push && r.rowsAvailable && !r.pushDropped && plan.outcome.blockers == []
    ensures plan.restore.executable.None? <==> !r.draft.restore.applies || !r.rowsAvailable || !r.restoreKnown
    ensures plan.restore.executable == Some(true) <==>
              && r.draft.restore.applies && r.rowsAvailable && r.restoreKnown
              && !r.restoreBlocked && plan.outcome.blockers == []
  {
    hide Preimage, Rows, WaivedRows, Refuses, ApprovalBlockers, IndeterminateBlockers, LimitBlockers, Ordered, Stops,
         TallyOf, IsSummary;
    var summary := BuildSummary(r.draft.entries, PlannabilityFor(r.rowsAvailable, |r.draft.entries|));
    SummaryOf(r.draft.entries, PlannabilityFor(r.rowsAvailable, |r.draft.entries|), summary);
    var fingerprint := None;
    if Usable(r) {
      var bytes := PlanFingerprintPreimage(r.draft);
      fingerprint := Some(bytes);
      TokenNotEmpty(r.draft);
    }
    var accepted := Usable(r) && r.approve != [] && Some(r.approve) == fingerprint;
    assert fingerprint == Fingerprint(r) && accepted == Accepted(r);
    var outcome := Assess(r, summary, fingerprint, accepted);
    forall b | b in outcome.blockers ensures Stops(b) <==> b.kind !in REPORTED_ONLY { StopsExactly(b); }
    plan := Finished(r, outcome);
  }

  lemma Plannable(r: Request)
    ensures PlannabilityFor(r.rowsAvailable, |r.draft.entries|).Unavailable? <==> !r.rowsAvailable
  {
  }

  /** The phases between the token and the published document. */
  method Assess(r: Request, summary: Summary, fingerprint: Option<Text>, accepted: bool) returns (o: Outcome)
    requires IsSummary(r.draft.entries, PlannabilityFor(r.rowsAvailable, |r.draft.entries|), summary)
    requires fingerprint == Fingerprint(r) && accepted == Accepted(r)
    ensures IsOutcome(r, o) && o.fingerprint == fingerprint && o.accepted == accepted && o.summary == summary
  {
    hide Preimage, Rows, WaivedRows, Refuses, ApprovalBlockers, IndeterminateBlockers, LimitBlockers, Ordered, Stops,
         TallyOf, IsSummary, HasWork, HasLimits, Fingerprint, Accepted, PlannabilityFor;
    var pre := [];
    if r.rowsAvailable {
      SummaryOf(r.draft.entries, PlannabilityFor(r.rowsAvailable, |r.draft.entries|), summary);
      Plannable(r);
      pre := GuardEvaluationRows(r.draft.limits, r.draft.entries, summary);
    }
    assert pre == PreWaiver(r);
    var refusesBefore := GuardWouldRefuse(pre);
    var post, waived, perEntry, total := ApplyApprovalWaiver(pre, accepted);
    var refuses := GuardWouldRefuse(post);
    var indeterminate := IndeterminateEntryBlockers(r.draft.entries, r.draft.limits);
    var limits := LimitExceededBlockers(post);
    var blockers := Ordered(r.others + ApprovalBlockers(r) + indeterminate + limits);
    assert post == PostWaiver(r);
    assert blockers == Ordered(Candidates(r));
    var runnable := ComputeRunnable(blockers);
    var refusal := if blockers == [] then None else Some(blockers[0]);
    o := Outcome(summary, fingerprint, accepted, post, refusesBefore, refuses, blockers, runnable, refusal);
  }

  // ---------- what the published blockers say ----------

  lemma {:induction false} LimitBlockersAre(rows: seq<Row>, b: Blocker)
    ensures b in LimitBlockers(rows) <==>
              exists i :: 0 <= i < |rows| && rows[i].verdict == Exceeded && b == LimitBlocker(rows[i])
  {
    hide LimitBlocker;
    if |rows| > 0 {
      var t := rows[..|rows| - 1];
      LimitBlockersAre(t, b);
      assert forall i :: 0 <= i < |t| ==> t[i] == rows[i];
    }
  }

  lemma {:induction false} IndeterminateBlockersAre(es: seq<Entry>, limits: Limits, b: Blocker)
    requires limits.perEntry.Some? || limits.total.Some?
    ensures b in IndeterminateBlockers(es, limits) <==>
              exists i :: 0 <= i < |es| && IsUnknown(es[i]) && !IsDeferred(es[i])
                          && b == Blocker(IndeterminateEntry, Some(es[i].name), UnresolvedDetail(es[i].name))
  {
    hide IsUnknown, IsDeferred, UnresolvedDetail;
    if |es| > 0 {
      var t := es[..|es| - 1];
      IndeterminateBlockersAre(t, limits, b);
      assert forall i :: 0 <= i < |t| ==> t[i] == es[i];
    }
  }

  /** The documents these laws are about: rows, no accepted token, and nobody else reporting as the guard does. */
  ghost predicate Plain(r: Request, o: Outcome) {
    IsOutcome(r, o) && r.rowsAvailable && !o.accepted && forall b :: b in r.others ==> !GuardKind(b.kind)
  }

  /** A blocker of this kind about this entry (or about none) is among them. */
  ghost predicate Says(bs: seq<Blocker>, k: RefusalKind, e: Option<Text>) {
    exists b :: b in bs && b.kind == k && b.entry == e
  }

  lemma SaysEither(x: seq<Blocker>, y: seq<Blocker>, k: RefusalKind, e: Option<Text>)
    ensures Says(x + y, k, e) <==> Says(x, k, e) || Says(y, k, e)
  {
  }

  lemma PublishedGuardBlocker(r: Request, o: Outcome, b: Blocker)
    requires Plain(r, o) && GuardKind(b.kind)
    ensures b in o.blockers <==>
              || b in IndeterminateBlockers(r.draft.entries, r.draft.limits)
              || b in LimitBlockers(Rows(r.draft.limits, r.draft.entries))
  {
    OrderedPublished(Candidates(r));
    ApprovalKinds(r);
    assert PostWaiver(r) == Rows(r.draft.limits, r.draft.entries);
    hide Ordered, Published, Rows, Fingerprint, Accepted, ApprovalBlockers, IndeterminateBlockers, LimitBlockers;
    assert b in o.blockers <==> b in Candidates(r);
  }

  lemma GuardSays(r: Request, o: Outcome, k: RefusalKind, e: Option<Text>)
    requires Plain(r, o) && GuardKind(k)
    ensures Says(o.blockers, k, e) <==>
              || Says(IndeterminateBlockers(r.draft.entries, r.draft.limits), k, e)
              || Says(LimitBlockers(Rows(r.draft.limits, r.draft.entries)), k, e)
  {
    hide Plain, IndeterminateBlockers, LimitBlockers, Rows;
    forall b: Blocker | GuardKind(b.kind)
      ensures b in o.blockers <==>
                || b in IndeterminateBlockers(r.draft.entries, r.draft.limits)
                || b in LimitBlockers(Rows(r.draft.limits, r.draft.entries))
    {
      PublishedGuardBlocker(r, o, b);
    }
  }

  lemma IndeterminateSays(es: seq<Entry>, limits: Limits, k: RefusalKind, e: Option<Text>)
    requires Says(IndeterminateBlockers(es, limits), k, e)
    ensures k == IndeterminateEntry
  {
    var b :| b in IndeterminateBlockers(es, limits) && b.kind == k && b.entry == e;
    IndeterminateKinds(es, limits, b);
  }

  /** What a limit blocker says is what an exceeded row says. */
  lemma LimitSays(rows: seq<Row>, k: RefusalKind, e: Option<Text>)
    ensures Says(LimitBlockers(rows), k, e) <==>
              exists i :: && 0 <= i < |rows| && rows[i].verdict == Exceeded
                          && (if rows[i].basis == PerEntry then k == LimitPerEntry && e == rows[i].entry
                              else k == LimitTotal && e == None)
  {
    hide LimitDetail, Ascii, LimitBlockers;
    if Says(LimitBlockers(rows), k, e) {
      var b :| b in LimitBlockers(rows) && b.kind == k && b.entry == e;
      LimitBlockersAre(rows, b);
    }
    forall i | && 0 <= i < |rows| && rows[i].verdict == Exceeded
               && (if rows[i].basis == PerEntry then k == LimitPerEntry && e == rows[i].entry
                   else k == LimitTotal && e == None)
      ensures Says(LimitBlockers(rows), k, e)
    {
      LimitBlockersAre(rows, LimitBlocker(rows[i]));
    }
  }

  /** An entry is reported as over its limit exactly when its known count is. */
  lemma EntryOverLimit(r: Request, o: Outcome, n: Text)
    requires Plain(r, o)
    ensures Says(o.blockers, LimitPerEntry, Some(n)) <==>
              exists i :: && 0 <= i < |r.draft.entries| && r.draft.entries[i].name == n
                          && r.draft.entries[i].replay.determinacy != UNKNOWN && r.draft.limits.perEntry.Some?
                          && Count(r.draft.entries[i]) > r.draft.limits.perEntry.value
  {
    hide IsOutcome, IndeterminateBlockers, LimitBlockers, Says, Tallied, TallyOf, LimitDetail, Ascii;
    var es, limits := r.draft.entries, r.draft.limits;
    var rows := Rows(limits, es);
    GuardSays(r, o, LimitPerEntry, Some(n));
    if Says(IndeterminateBlockers(es, limits), LimitPerEntry, Some(n)) {
      IndeterminateSays(es, limits, LimitPerEntry, Some(n));
    }
    LimitSays(rows, LimitPerEntry, Some(n));
    if limits.perEntry.Some? {
      assert forall i :: 0 <= i < |es| ==> rows[i] == EntryRow(limits.perEntry.value, es[i]);
    }
  }

  /** The run is reported as over the total limit exactly when the known counts alone are. */
  lemma TotalOverLimit(r: Request, o: Outcome)
    requires Plain(r, o)
    ensures Says(o.blockers, LimitTotal, None) <==>
              r.draft.limits.total.Some? && PlanSummary.LowerBound(r.draft.entries) > r.draft.limits.total.value
  {
    hide IsOutcome, IndeterminateBlockers, LimitBlockers, Says, LimitDetail, Ascii;
    var es, limits := r.draft.entries, r.draft.limits;
    var rows := Rows(limits, es);
    GuardSays(r, o, LimitTotal, None);
    if Says(IndeterminateBlockers(es, limits), LimitTotal, None) {
      IndeterminateSays(es, limits, LimitTotal, None);
    }
    LimitSays(rows, LimitTotal, None);
    if limits.total.Some? {
      assert rows[|rows| - 1] == TotalRow(limits.total.value, es, TallyOf(es));
    }
  }

  /** An entry is reported as unresolvable exactly when a limit is set and its count is unknown for good. */
  lemma EntryUnresolved(r: Request, o: Outcome, n: Text)
    requires Plain(r, o)
    ensures Says(o.blockers, IndeterminateEntry, Some(n)) <==>
              && (r.draft.limits.perEntry.Some? || r.draft.limits.total.Some?)
              && exists i :: && 0 <= i < |r.draft.entries| && r.draft.entries[i].name == n
                             && r.draft.entries[i].replay.determinacy == UNKNOWN
                             && r.draft.entries[i].replay.reason != Some(UPSTREAM_DEFERRED)
  {
    hide IsOutcome, LimitBlockers, Rows, UnresolvedDetail, Ascii;
    var es, limits := r.draft.entries, r.draft.limits;
    GuardSays(r, o, IndeterminateEntry, Some(n));
    LimitSays(Rows(limits, es), IndeterminateEntry, Some(n));
    if limits.perEntry.Some? || limits.total.Some? {
      if Says(IndeterminateBlockers(es, limits), IndeterminateEntry, Some(n)) {
        var b :| b in IndeterminateBlockers(es, limits) && b.kind == IndeterminateEntry && b.entry == Some(n);
        IndeterminateBlockersAre(es, limits, b);
        var i :| && 0 <= i < |es| && IsUnknown(es[i]) && !IsDeferred(es[i])
                 && b == Blocker(IndeterminateEntry, Some(es[i].name), UnresolvedDetail(es[i].name));
      }
      forall i | 0 <= i < |es| && IsUnknown(es[i]) && !IsDeferred(es[i]) && es[i].name == n
        ensures Says(IndeterminateBlockers(es, limits), IndeterminateEntry, Some(n))
      {
        IndeterminateBlockersAre(es, limits, Blocker(IndeterminateEntry, Some(n), UnresolvedDetail(n)));
      }
    }
  }

  /** The blockers about the approval itself: a token given to a resumed run without limits, a token that is not the
      document's own, and texts that bar the token where one would be minted or was given. */
  lemma ApprovalReported(r: Request, k: RefusalKind)
    ensures Says(ApprovalBlockers(r), k, None) <==>
              match k
              case ApprovalWithoutLimits =>
                r.resumed && r.approve != [] && r.draft.limits.perEntry.None? && r.draft.limits.total.None?
              case ApprovalMismatch => Usable(r) && r.approve != [] && r.approve != Token(r.draft)
              case IdentityNotUtf8 =>
                r.encodingIssues > 0
                && (r.approve != []
                    || (HasWork(r.draft) && (r.draft.limits.perEntry.Some? || r.draft.limits.total.Some?)))
              case _ => false
  {
    hide Says, ResumedBlockers, MismatchBlockers, EncodingBlockers, HasWork, Token;
    ResumedSays(r, k);
    MismatchSays(r, k);
    EncodingSays(r, k);
    SaysEither(ResumedBlockers(r), MismatchBlockers(r), k, None);
    SaysEither(ResumedBlockers(r) + MismatchBlockers(r), EncodingBlockers(r), k, None);
  }

  lemma ResumedSays(r: Request, k: RefusalKind)
    ensures Says(ResumedBlockers(r), k, None) <==>
              && k == ApprovalWithoutLimits && r.resumed && r.approve != []
              && r.draft.limits.perEntry.None? && r.draft.limits.total.None?
  {
    hide WithoutLimitsDetail;
    var b := Blocker(ApprovalWithoutLimits, None, WithoutLimitsDetail());
    assert b in [b];
  }

  lemma MismatchSays(r: Request, k: RefusalKind)
    ensures Says(MismatchBlockers(r), k, None) <==>
              k == ApprovalMismatch && Usable(r) && r.approve != [] && r.approve != Token(r.draft)
  {
    hide MismatchDetail, Token, HasWork, HasLimits;
    assert Mismatch() in [Mismatch()];
  }

  lemma EncodingSays(r: Request, k: RefusalKind)
    ensures Says(EncodingBlockers(r), k, None) <==>
              && k == IdentityNotUtf8 && r.encodingIssues > 0
              && (r.approve != []
                  || (HasWork(r.draft) && (r.draft.limits.perEntry.Some? || r.draft.limits.total.Some?)))
  {
    hide EncodingDetail, HasWork;
    var b := Blocker(IdentityNotUtf8, None, EncodingDetail(r.encodingIssues));
    assert b in [b];
  }

  // ---------- the token ----------

  /** Fingerprinting the finished plan gives the token minted from the draft, whatever the outcome. */
  lemma TokenIsSelfCertifying(r: Request, o: Outcome)
    ensures Token(Finished(r, o)) == Token(r.draft)
  {
    DocumentFieldsInjective(Finished(r, o), r.draft);
  }

  /** A token obtained for one document is accepted for another exactly when the two agree on every bound
      member. */
  lemma TokenAcceptedExactly(a: Request, b: Request)
    requires Usable(a) && Usable(b) && b.approve == Token(a.draft)
    requires MachineWords(a.draft) && MachineWords(b.draft) && |Fields(DocumentFields(a.draft))| < TWO_TO_THE_32
    ensures Accepted(b) <==> Bound(a.draft) == Bound(b.draft)
  {
    PreimageBindsExactly(a.draft, b.draft);
  }

  predicate IsLimit(b: Blocker) { b.kind == LimitPerEntry || b.kind == LimitTotal }

  function WithoutLimits(bs: seq<Blocker>): (r: seq<Blocker>)
    ensures forall b :: b in r <==> b in bs && !IsLimit(b)
  {
    if |bs| == 0 then []
    else WithoutLimits(bs[..|bs| - 1]) + if IsLimit(bs[|bs| - 1]) then [] else [bs[|bs| - 1]]
  }

  lemma {:induction false} WithoutLimitsPublished(bs: seq<Blocker>)
    requires Published(bs)
    ensures Published(WithoutLimits(bs))
  {
    if |bs| > 0 {
      var t := bs[..|bs| - 1];
      WithoutLimitsPublished(t);
      forall i | 0 <= i < |WithoutLimits(t)|
        ensures Less(WithoutLimits(t)[i], bs[|bs| - 1])
      {
        assert WithoutLimits(t)[i] in t;
        var k :| 0 <= k < |t| && t[k] == WithoutLimits(t)[i];
        assert bs[k] == t[k];
      }
    }
  }

  /** No producer outside the guard reports a limit. */
  ghost predicate NoForeignLimits(r: Request) {
    forall b :: b in r.others ==> !IsLimit(b)
  }

  lemma TokenNotEmpty(p: Plan<()>)
    ensures Token(p) != []
  {
    PreimageLength(p);
  }

  /** With a usable token no approval blocker arises from presenting none, or the right one; another one is
      reported as a mismatch. */
  lemma ApprovalBlockersOf(r: Request, token: Text)
    requires Usable(r)
    ensures ApprovalBlockers(r.(approve := [])) == []
    ensures ApprovalBlockers(r.(approve := token))
            == if token == [] || token == Token(r.draft) then [] else [Mismatch()]
  {
    hide Token, MismatchDetail;
  }

  /** The same request with the document's own token presented. */
  function Approved(r: Request): Request {
    r.(approve := Token(r.draft))
  }

  lemma ApprovedIsAccepted(r: Request)
    requires Usable(r)
    ensures Accepted(Approved(r)) && Fingerprint(Approved(r)) == Fingerprint(r)
    ensures PreWaiver(Approved(r)) == PreWaiver(r) && PostWaiver(Approved(r)) == WaivedRows(PreWaiver(r))
  {
    TokenNotEmpty(r.draft);
    hide Token, Rows, WaivedRows;
  }

  lemma WaivedCandidates(r: Request, b: Blocker)
    requires r.approve == [] && NoForeignLimits(r) && Usable(r)
    ensures b in Candidates(Approved(r)) <==> b in Candidates(r) && !IsLimit(b)
  {
    hide Token, Mismatch, Rows, IndeterminateBlockers, LimitBlockers, WaivedRows, ApprovalBlockers, PostWaiver,
         PreWaiver, Usable, HasLimits, Ascii;
    ApprovedIsAccepted(r);
    ApprovalBlockersOf(r, Token(r.draft));
    WaivedHasNoLimits(PreWaiver(r));
    assert r.(approve := []) == r;
    var unresolved := IndeterminateBlockers(r.draft.entries, r.draft.limits);
    if b in unresolved { IndeterminateKinds(r.draft.entries, r.draft.limits, b); }
    var rest := r.others + [] + unresolved;
    assert Candidates(Approved(r)) == rest + [];
    assert Candidates(r) == rest + LimitBlockers(PostWaiver(r));
  }

  lemma WaivedBlockers(r: Request)
    requires r.approve == [] && NoForeignLimits(r) && Usable(r)
    ensures Ordered(Candidates(Approved(r))) == WithoutLimits(Ordered(Candidates(r)))
  {
    var before, after := Ordered(Candidates(r)), Ordered(Candidates(Approved(r)));
    OrderedPublished(Candidates(r));
    OrderedPublished(Candidates(Approved(r)));
    WithoutLimitsPublished(before);
    hide Candidates, Approved, Ordered, WithoutLimits, Published, Usable;
    forall b
      ensures b in after <==> b in WithoutLimits(before)
    {
      WaivedCandidates(r, b);
    }
    PublishedUnique(after, WithoutLimits(before));
  }

  /** The kinds with which the guard itself refuses. */
  predicate GuardKind(k: RefusalKind) { k == IndeterminateEntry || k == LimitPerEntry || k == LimitTotal }

  /** In a document no token was given for, the published blockers show a refusal of the guard exactly when the
      document says that it would refuse. */
  lemma RefusalIsPublished(r: Request, o: Outcome)
    requires r.approve == [] && (!r.rowsAvailable ==> r.draft.entries == [])
    requires forall b :: b in r.others ==> !GuardKind(b.kind)
    requires IsOutcome(r, o)
    ensures o.wouldRefuseWithoutApproval <==> exists b :: b in o.blockers && GuardKind(b.kind)
  {
    RefusalHasCandidate(r);
    OrderedPublished(Candidates(r));
    hide IsSummary, Fingerprint, Accepted, PreWaiver, PostWaiver, AnyRefuses, Ordered, Published, Candidates, Stops;
  }

  lemma RefusalHasCandidate(r: Request)
    requires r.approve == [] && (!r.rowsAvailable ==> r.draft.entries == [])
    requires forall b :: b in r.others ==> !GuardKind(b.kind)
    ensures AnyRefuses(PreWaiver(r)) <==> exists b :: b in Candidates(r) && GuardKind(b.kind)
  {
    var unresolved, limits := IndeterminateBlockers(r.draft.entries, r.draft.limits), LimitBlockers(PreWaiver(r));
    assert PostWaiver(r) == PreWaiver(r);
    if r.rowsAvailable { WouldRefuseMeansBlocked(r.draft.limits, r.draft.entries); }
    ApprovalKinds(r);
    assert AnyRefuses(PreWaiver(r)) <==> unresolved != [] || limits != [];
    hide PreWaiver, PostWaiver, AnyRefuses, IndeterminateBlockers, LimitBlockers, ApprovalBlockers;
    if unresolved != [] {
      IndeterminateKinds(r.draft.entries, r.draft.limits, unresolved[0]);
      assert unresolved[0] in Candidates(r);
    }
    if limits != [] { assert limits[0] in Candidates(r); }
  }

  lemma ApprovalKinds(r: Request)
    ensures forall b :: b in ApprovalBlockers(r) ==> !GuardKind(b.kind)
  {
    hide HasWork, HasLimits, Usable, Fingerprint, MismatchDetail, WithoutLimitsDetail, EncodingDetail;
  }

  /** Limits never decide whether the run is runnable. */
  lemma LimitsDoNotStop(bs: seq<Blocker>)
    ensures (forall b :: b in WithoutLimits(bs) ==> !Stops(b)) <==> (forall b :: b in bs ==> !Stops(b))
  {
    assert forall b :: IsLimit(b) ==> !Stops(b);
  }

  /** Presenting a document's own token waives its limits and nothing else: the run stays as runnable as it was,
      the other blockers stay in their order, and only what the guard cannot resolve still refuses. */
  lemma ApprovalWaivesOnlyLimits(r: Request, before: Outcome, after: Outcome)
    requires r.approve == [] && NoForeignLimits(r) && Usable(r)
    requires IsOutcome(r, before) && IsOutcome(Approved(r), after)
    ensures after.accepted && after.fingerprint == before.fingerprint
    ensures after.runnable == before.runnable
    ensures after.blockers == WithoutLimits(before.blockers)
    ensures after.wouldRefuse <==> IndeterminateRemains(r)
  {
    ApprovedIsAccepted(r);
    WaivedBlockers(r);
    WaivedRefusal(PreWaiver(r));
    hide Approved, Candidates, Ordered, WithoutLimits, WaivedRows, PreWaiver, PostWaiver, Fingerprint, Accepted, Stops,
         AnyRefuses, AnyUnresolvable;
    LimitsDoNotStop(before.blockers);
  }

  /** Some row that no approval can waive. */
  ghost predicate IndeterminateRemains(r: Request) {
    AnyUnresolvable(PreWaiver(r))
  }

  lemma WaivedHasNoLimits(rows: seq<Row>)
    ensures LimitBlockers(WaivedRows(rows)) == []
  {
    LimitBlockersExist(WaivedRows(rows));
  }

  lemma WaivedRefusal(rows: seq<Row>)
    ensures AnyRefuses(WaivedRows(rows)) <==> AnyUnresolvable(rows)
  {
    var waived := WaivedRows(rows);
    if AnyRefuses(waived) {
      var i :| 0 <= i < |waived| && Refuses(waived[i]);
      assert Unresolvable(rows[i]);
    }
    if AnyUnresolvable(rows) {
      var i :| 0 <= i < |rows| && Unresolvable(rows[i]);
      assert Refuses(waived[i]);
    }
  }

  lemma OtherIsNotAccepted(r: Request, token: Text)
    requires r.approve == [] && token != Token(r.draft)
    ensures !Accepted(r.(approve := token)) && PostWaiver(r.(approve := token)) == PostWaiver(r)
  {
    hide Token, Rows, WaivedRows;
  }

  lemma OtherCandidates(r: Request, token: Text, b: Blocker)
    requires r.approve == [] && Usable(r) && token != [] && token != Token(r.draft)
    ensures b in Candidates(r.(approve := token)) <==> b in Candidates(r) || b == Mismatch()
  {
    OtherIsNotAccepted(r, token);
    ApprovalBlockersOf(r, token);
    hide Token, Mismatch, Rows, IndeterminateBlockers, LimitBlockers, ApprovalBlockers, PostWaiver, PreWaiver;
    assert r.(approve := []) == r;
    var rest := IndeterminateBlockers(r.draft.entries, r.draft.limits);
    assert Candidates(r.(approve := token))
        == r.others + [Mismatch()] + rest + LimitBlockers(PostWaiver(r));
    assert Candidates(r) == r.others + [] + rest + LimitBlockers(PostWaiver(r));
  }

  /** Any other token waives nothing and is itself reported. */
  lemma OtherTokenIsRefused(r: Request, token: Text, before: Outcome, after: Outcome, b: Blocker)
    requires r.approve == [] && Usable(r) && token != [] && token != Token(r.draft)
    requires IsOutcome(r, before) && IsOutcome(r.(approve := token), after)
    ensures !after.accepted && after.rows == before.rows
    ensures b in after.blockers <==> b in before.blockers || b == Mismatch()
  {
    OtherIsNotAccepted(r, token);
    OrderedPublished(Candidates(r));
    OrderedPublished(Candidates(r.(approve := token)));
    OtherCandidates(r, token, b);
    hide Token, Mismatch, Candidates, Published, PostWaiver, PreWaiver;
    hide Ordered, Refuses, Stops, Accepted, Fingerprint, Usable;
  }

  /** A refused token stops no run that would have started: the mismatch is reported beside the limits. */
  lemma OtherTokenKeepsRunnable(r: Request, token: Text, before: Outcome, after: Outcome)
    requires r.approve == [] && Usable(r) && token != [] && token != Token(r.draft)
    requires IsOutcome(r, before) && IsOutcome(r.(approve := token), after)
    ensures after.runnable == before.runnable
  {
    MismatchDoesNotStop();
    hide Mismatch, Stops, Usable, Token, Candidates, Ordered, Refuses, Fingerprint, Accepted, PostWaiver, PreWaiver,
         IsSummary, PlannabilityFor;
    forall b
      ensures b in after.blockers <==> b in before.blockers || b == Mismatch()
    {
      OtherTokenIsRefused(r, token, before, after, b);
    }
  }

  lemma MismatchDoesNotStop()
    ensures !Stops(Mismatch())
  {
  }
}
