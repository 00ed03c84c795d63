/** The summary of a rebase plan: what is counted over its entries, the largest and the total replay, and the
    collateral references of all entries, each once and sorted. */
module PlanSummary {
  import opened Options
  import opened PlanFingerprint

  // ---------- texts ----------

  /** Byte-wise lexicographic order. */
  predicate TextLess(a: Text, b: Text) {
    |b| > 0 && (|a| == 0 || a[0] < b[0] || (a[0] == b[0] && TextLess(a[1..], b[1..])))
  }

  lemma {:induction false} TextOrder(a: Text, b: Text, d: Text)
    ensures !TextLess(a, a)
    ensures TextLess(a, b) || a == b || TextLess(b, a)
    ensures TextLess(a, b) && TextLess(b, d) ==> TextLess(a, d)
    decreases |a| + |b| + |d|
  {
    if |a| > 0 && |b| > 0 {
      if a[0] == b[0] {
        assert a == [a[0]] + a[1..] && b == [b[0]] + b[1..];
        TextOrder(a[1..], b[1..], if |d| > 0 then d[1..] else d);
      } else {
        TextOrder(a[1..], b[1..], d);
      }
      if |d| > 0 { TextOrder(a[1..], b[1..], d[1..]); }
    }
    if |a| > 0 && |b| == 0 { TextOrder(a[1..], b, d); }
  }

  /** The first difference decides, and a proper beginning comes first. */
  lemma {:induction false} TextLessExactly(a: Text, b: Text)
    ensures TextLess(a, b) <==> exists k :: 0 <= k < |b| && k <= |a| && a[..k] == b[..k] && (k == |a| || a[k] < b[k])
  {
    if |a| > 0 && |b| > 0 && a[0] == b[0] {
      var a', b' := a[1..], b[1..];
      TextLessExactly(a', b');
      if TextLess(a', b') {
        var k :| 0 <= k < |b'| && k <= |a'| && a'[..k] == b'[..k] && (k == |a'| || a'[k] < b'[k]);
        assert a[..k + 1] == [a[0]] + a'[..k] && b[..k + 1] == [b[0]] + b'[..k];
      } else {
        forall k | 0 <= k < |b| && k <= |a| && a[..k] == b[..k]
          ensures k < |a| && a[k] >= b[k]
        {
          if k > 0 {
            assert a'[..k - 1] == a[..k][1..] && b'[..k - 1] == b[..k][1..];
            assert !(k - 1 == |a'| || a'[k - 1] < b'[k - 1]);
          }
        }
      }
    } else if |b| > 0 && (|a| == 0 || a[0] < b[0]) {
      assert a[..0] == b[..0];
    } else if |b| > 0 {
      assert forall k :: 0 < k <= |a| && k < |b| ==> a[..k][0] == a[0] && b[..k][0] == b[0];
    }
  }

  // ---------- what is counted ----------

  // "unknown" and "upstream-deferred".
  const UNKNOWN: Text := [117, 110, 107, 110, 111, 119, 110]
  const UPSTREAM_DEFERRED: Text := [117, 112, 115, 116, 114, 101, 97, 109, 45, 100, 101, 102, 101, 114, 114, 101, 100]

  predicate IsUnknown(e: Entry) { e.replay.determinacy == UNKNOWN }

  predicate IsDeferred(e: Entry) { e.replay.reason == Some(UPSTREAM_DEFERRED) }

  function Count(e: Entry): int {
    if e.replay.candidateCount.Some? then e.replay.candidateCount.value else 0
  }

  // "conditional" and "upper".
  const CONDITIONAL: Text := [99, 111, 110, 100, 105, 116, 105, 111, 110, 97, 108]
  const UPPER: Text := [117, 112, 112, 101, 114]

  /** What entries are counted for. */
  datatype Mark = Deferred | Conditional | UnknownCount | Exposed | UnknownCollateral

  predicate Has(e: Entry, m: Mark) {
    match m
    case Deferred => e.destination.deferred
    case Conditional => e.strategy == CONDITIONAL
    case UnknownCount => IsUnknown(e)
    case Exposed => e.collateralExposed == Some(true)
    case UnknownCollateral => e.collateralExposed.None?
  }

  function One(b: bool): nat { if b then 1 else 0 }

  function Number(es: seq<Entry>, m: Mark): nat {
    if |es| == 0 then 0 else Number(es[..|es| - 1], m) + One(Has(es[|es| - 1], m))
  }

  /** It is the number of entries with the mark. */
  lemma {:induction false} NumberCounts(es: seq<Entry>, m: Mark)
    ensures Number(es, m) == |set i | 0 <= i < |es| && Has(es[i], m)|
  {
    if |es| > 0 {
      var t, n := es[..|es| - 1], |es| - 1;
      NumberCounts(t, m);
      hide Has;
      var a, b := (set i | 0 <= i < |t| && Has(t[i], m)), (set i | 0 <= i < |es| && Has(es[i], m));
      forall x | x in b ensures x in a + {n} {}
      OneMore(a, b, n);
    }
  }

  lemma OneMore(a: set<int>, b: set<int>, n: int)
    requires n !in a && a <= b && b <= a + {n}
    ensures |b| == |a| + One(n in b)
  {
    if n in b {
      assert b == a + {n};
    } else {
      assert b == a;
    }
  }

  lemma NumberMore(es: seq<Entry>, e: Entry, m: Mark)
    ensures Number(es + [e], m) == Number(es, m) + One(Has(e, m))
  {
    assert (es + [e])[..|es|] == es;
  }

  function LowerBound(es: seq<Entry>): int {
    if |es| == 0 then 0 else LowerBound(es[..|es| - 1]) + Count(es[|es| - 1])
  }

  lemma LowerBoundMore(es: seq<Entry>, e: Entry)
    ensures LowerBound(es + [e]) == LowerBound(es) + Count(e)
  {
    assert (es + [e])[..|es|] == es;
  }

  /** The two members the guard reads. */
  datatype Tally = Tally(lowerBound: int, unknown: nat)

  function TallyOf(es: seq<Entry>): Tally {
    Tally(LowerBound(es), Number(es, UnknownCount))
  }

  /** The largest known count, if there is one. */
  ghost predicate IsLargest(es: seq<Entry>, m: Option<int>) {
    && (forall i :: 0 <= i < |es| && es[i].replay.candidateCount.Some? ==> m.Some? && Count(es[i]) <= m.value)
    && (m.Some? ==> exists i :: 0 <= i < |es| && es[i].replay.candidateCount == m)
  }

  // ---------- collateral references ----------

  type Key = (Text, Text)

  function KeyOf(r: CollateralRef): Key { (r.repo, r.ref) }

  predicate KeyLess(a: Key, b: Key) {
    if a.0 != b.0 then TextLess(a.0, b.0) else TextLess(a.1, b.1)
  }

  lemma KeyOrder(a: Key, b: Key, d: Key)
    ensures !KeyLess(a, a)
    ensures KeyLess(a, b) || a == b || KeyLess(b, a)
    ensures KeyLess(a, b) && KeyLess(b, d) ==> KeyLess(a, d)
  {
    TextOrder(a.0, b.0, d.0);
    TextOrder(a.1, b.1, d.1);
    TextOrder(b.0, a.0, a.0);
  }

  function RefsOf(e: Entry): seq<CollateralRef> {
    if e.collateralRefs.Some? then e.collateralRefs.value else []
  }

  /** Every collateral reference of every entry, in order. */
  function AllRefs(es: seq<Entry>): seq<CollateralRef> {
    if |es| == 0 then [] else AllRefs(es[..|es| - 1]) + RefsOf(es[|es| - 1])
  }

  /** The reference that was seen last under its key. */
  ghost predicate IsLast(all: seq<CollateralRef>, r: CollateralRef) {
    exists k :: 0 <= k < |all| && all[k] == r && forall j :: k < j < |all| ==> KeyOf(all[j]) != KeyOf(r)
  }

  ghost predicate Sorted(refs: seq<CollateralRef>) {
    forall i, j :: 0 <= i < j < |refs| ==> KeyLess(KeyOf(refs[i]), KeyOf(refs[j]))
  }

  /** Sorted by repository and reference, each key once, with what was seen last under it. */
  ghost predicate IsCollected(all: seq<CollateralRef>, refs: seq<CollateralRef>) {
    Sorted(refs) && forall r :: r in refs <==> IsLast(all, r)
  }

  /** The accumulating map. */
  ghost predicate MapsLast(all: seq<CollateralRef>, m: map<Key, CollateralRef>) {
    && (forall k :: k in m ==> KeyOf(m[k]) == k && IsLast(all, m[k]))
    && (forall j :: 0 <= j < |all| ==> KeyOf(all[j]) in m)
  }

  lemma MapsOneMore(all: seq<CollateralRef>, m: map<Key, CollateralRef>, r: CollateralRef)
    requires MapsLast(all, m)
    ensures MapsLast(all + [r], m[KeyOf(r) := r])
  {
    var more, m' := all + [r], m[KeyOf(r) := r];
    forall k | k in m'
      ensures KeyOf(m'[k]) == k && IsLast(more, m'[k])
    {
      if k == KeyOf(r) {
        assert more[|all|] == r;
      } else {
        var i :| 0 <= i < |all| && all[i] == m[k] && forall j :: i < j < |all| ==> KeyOf(all[j]) != KeyOf(m[k]);
        assert more[i] == m'[k];
      }
    }
  }

  /** Two references last under one key are the same. */
  lemma LastIsMapped(all: seq<CollateralRef>, m: map<Key, CollateralRef>, r: CollateralRef)
    requires MapsLast(all, m)
    ensures IsLast(all, r) <==> KeyOf(r) in m && m[KeyOf(r)] == r
  {
    if IsLast(all, r) {
      var k :| 0 <= k < |all| && all[k] == r && forall j :: k < j < |all| ==> KeyOf(all[j]) != KeyOf(r);
      var q := m[KeyOf(r)];
      var l :| 0 <= l < |all| && all[l] == q && forall j :: l < j < |all| ==> KeyOf(all[j]) != KeyOf(q);
      assert k == l;
    }
  }

  function Insert(r: CollateralRef, s: seq<CollateralRef>): seq<CollateralRef> {
    if |s| > 0 && KeyLess(KeyOf(s[0]), KeyOf(r)) then [s[0]] + Insert(r, s[1..]) else [r] + s
  }

  lemma {:induction false} InsertSorted(r: CollateralRef, s: seq<CollateralRef>)
    requires Sorted(s) && forall x :: x in s ==> KeyOf(x) != KeyOf(r)
    ensures Sorted(Insert(r, s))
    ensures forall x :: x in Insert(r, s) <==> x == r || x in s
  {
    if |s| > 0 {
      KeyOrder(KeyOf(s[0]), KeyOf(r), KeyOf(r));
      if KeyLess(KeyOf(s[0]), KeyOf(r)) {
        InsertSorted(r, s[1..]);
        var t := Insert(r, s[1..]);
        assert forall i :: 0 <= i < |t| ==> t[i] in t;
      } else {
        assert s[0] in s;
        forall i | 0 <= i < |s| ensures KeyLess(KeyOf(r), KeyOf(s[i])) {
          KeyOrder(KeyOf(r), KeyOf(s[0]), KeyOf(s[i]));
        }
      }
    }
  }

  /** The references of the map, sorted. */
  method SortRefs(m: map<Key, CollateralRef>) returns (refs: seq<CollateralRef>)
    requires forall k :: k in m ==> KeyOf(m[k]) == k
    ensures Sorted(refs) && forall r :: r in refs <==> KeyOf(r) in m && m[KeyOf(r)] == r
  {
    refs := [];
    var left := m.Keys;
    while left != {}
      invariant left <= m.Keys && Sorted(refs)
      invariant forall r :: r in refs <==> KeyOf(r) in m && KeyOf(r) !in left && m[KeyOf(r)] == r
      decreases |left|
    {
      var k :| k in left;
      InsertSorted(m[k], refs);
      refs := Insert(m[k], refs);
      left := left - {k};
    }
  }

  method CollectRefs(es: seq<Entry>) returns (refs: seq<CollateralRef>)
    ensures IsCollected(AllRefs(es), refs)
  {
    var m: map<Key, CollateralRef> := map[];
    for i := 0 to |es|
      invariant MapsLast(AllRefs(es[..i]), m)
    {
      assert es[..i + 1][..i] == es[..i];
      m := CollectEntry(AllRefs(es[..i]), m, RefsOf(es[i]));
    }
    assert es[..|es|] == es;
    refs := SortRefs(m);
    forall r ensures r in refs <==> IsLast(AllRefs(es), r) { LastIsMapped(AllRefs(es), m, r); }
  }

  method CollectEntry(ghost all: seq<CollateralRef>, m: map<Key, CollateralRef>, rs: seq<CollateralRef>)
    returns (more: map<Key, CollateralRef>)
    requires MapsLast(all, m)
    ensures MapsLast(all + rs, more)
  {
    more := m;
    assert all + [] == all;
    hide MapsLast;
    for k := 0 to |rs|
      invariant MapsLast(all + rs[..k], more)
    {
      MapsOneMore(all + rs[..k], more, rs[k]);
      assert all + rs[..k] + [rs[k]] == all + rs[..k + 1];
      more := more[KeyOf(rs[k]) := rs[k]];
    }
    assert rs[..|rs|] == rs;
  }

  function Unowned(refs: seq<CollateralRef>): nat {
    if |refs| == 0 then 0 else Unowned(refs[..|refs| - 1]) + One(!refs[|refs| - 1].stackOwned)
  }

  // ---------- the summary ----------

  datatype Plannability = Unavailable | Empty | Rows

  function PlannabilityFor(rowsAvailable: bool, entries: nat): Plannability {
    if !rowsAvailable then Unavailable else if entries == 0 then Empty else Rows
  }

  datatype Summary = Summary(
    plannability: Plannability, entries: nat, deferred: nat, conditional: nat, largest: Option<int>,
    total: Option<int>, lowerBound: Option<int>, unknown: nat, exposed: nat, unknownCollateral: nat,
    collateralRefs: Option<seq<CollateralRef>>, bound: Option<Text>, unowned: Option<nat>)

  const NO_SUMMARY := Summary(Unavailable, 0, 0, 0, None, None, None, 0, 0, 0, None, None, None)

  /** What the thirteen members must say about the entries.  A total is claimed only when nothing is unknown. */
  ghost predicate IsSummary(es: seq<Entry>, p: Plannability, s: Summary) {
    if p.Unavailable? then s == NO_SUMMARY
    else
      && s.plannability == p && s.entries == |es|
      && s.deferred == Number(es, Deferred) && s.conditional == Number(es, Conditional)
      && s.unknown == Number(es, UnknownCount)
      && s.exposed == Number(es, Exposed) && s.unknownCollateral == Number(es, UnknownCollateral)
      && IsLargest(es, s.largest)
      && s.lowerBound == Some(LowerBound(es))
      && s.total == (if s.unknown == 0 then s.lowerBound else None)
      && s.collateralRefs.Some? && IsCollected(AllRefs(es), s.collateralRefs.value)
      && s.bound == Some(UPPER) && s.unowned == Some(Unowned(s.collateralRefs.value))
  }

  /** The counts of a summary, as numbers of entries and references. */
  lemma SummaryCounts(es: seq<Entry>, p: Plannability, s: Summary)
    requires IsSummary(es, p, s) && !p.Unavailable?
    ensures s.deferred == |set i | 0 <= i < |es| && es[i].destination.deferred|
    ensures s.conditional == |set i | 0 <= i < |es| && es[i].strategy == CONDITIONAL|
    ensures s.unknown == |set i | 0 <= i < |es| && es[i].replay.determinacy == UNKNOWN|
    ensures s.exposed == |set i | 0 <= i < |es| && es[i].collateralExposed == Some(true)|
    ensures s.unknownCollateral == |set i | 0 <= i < |es| && es[i].collateralExposed == None|
    ensures var refs := s.collateralRefs.value; s.unowned == Some(|set i | 0 <= i < |refs| && !refs[i].stackOwned|)
  {
    forall m: Mark ensures Number(es, m) == |set i | 0 <= i < |es| && Has(es[i], m)| { NumberCounts(es, m); }
    UnownedCounts(s.collateralRefs.value);
    hide Number, Unowned, IsCollected, IsLargest, LowerBound;
    assert (set i | 0 <= i < |es| && es[i].destination.deferred) == set i | 0 <= i < |es| && Has(es[i], Deferred);
    assert (set i | 0 <= i < |es| && es[i].strategy == CONDITIONAL) == set i | 0 <= i < |es| && Has(es[i], Conditional);
    assert (set i | 0 <= i < |es| && es[i].replay.determinacy == UNKNOWN)
        == set i | 0 <= i < |es| && Has(es[i], UnknownCount);
    assert (set i | 0 <= i < |es| && es[i].collateralExposed == Some(true))
        == set i | 0 <= i < |es| && Has(es[i], Exposed);
    assert (set i | 0 <= i < |es| && es[i].collateralExposed == None)
        == set i | 0 <= i < |es| && Has(es[i], UnknownCollateral);
  }

  lemma {:induction false} UnownedCounts(refs: seq<CollateralRef>)
    ensures Unowned(refs) == |set i | 0 <= i < |refs| && !refs[i].stackOwned|
  {
    if |refs| > 0 {
      var t, n := refs[..|refs| - 1], |refs| - 1;
      UnownedCounts(t);
      var a, b := (set i | 0 <= i < |t| && !t[i].stackOwned), (set i | 0 <= i < |refs| && !refs[i].stackOwned);
      forall x | x in b ensures x in a + {n} {}
      OneMore(a, b, n);
    }
  }

  /** Repository first, then the reference's name. */
  lemma SortedByRepository(refs: seq<CollateralRef>, i: nat, j: nat)
    requires Sorted(refs) && i < j < |refs|
    ensures refs[i].repo == refs[j].repo || TextLess(refs[i].repo, refs[j].repo)
    ensures refs[i].repo == refs[j].repo ==> TextLess(refs[i].ref, refs[j].ref)
  {
    assert KeyLess(KeyOf(refs[i]), KeyOf(refs[j]));
  }

  function Tallied(s: Summary): Tally {
    Tally(if s.lowerBound.Some? then s.lowerBound.value else 0, s.unknown)
  }

  /** `buildSummary`. */
  method BuildSummary(es: seq<Entry>, p: Plannability) returns (s: Summary)
    requires p.Empty? ==> es == []
    ensures IsSummary(es, p, s)
  {
    if p.Unavailable? { return NO_SUMMARY; }
    if p.Empty? {
      s := Summary(Empty, 0, 0, 0, None, Some(0), Some(0), 0, 0, 0, Some([]), Some(UPPER), Some(0));
      return;
    }
    s := CountEntries(es);
    var refs := CollectRefs(es);
    var unowned := CountUnowned(refs);
    s := s.(plannability := p, collateralRefs := Some(refs), bound := Some(UPPER), unowned := Some(unowned));
  }

  /** What the counting loop has to find. */
  ghost predicate Counted(es: seq<Entry>, s: Summary) {
    && s.deferred == Number(es, Deferred) && s.conditional == Number(es, Conditional)
    && s.unknown == Number(es, UnknownCount)
    && s.exposed == Number(es, Exposed) && s.unknownCollateral == Number(es, UnknownCollateral)
    && IsLargest(es, s.largest) && s.lowerBound == Some(LowerBound(es))
  }

  /** The counting loop. */
  method CountEntries(es: seq<Entry>) returns (s: Summary)
    ensures Counted(es, s) && s.entries == |es| && s.total == (if s.unknown == 0 then s.lowerBound else None)
  {
    s := NO_SUMMARY.(lowerBound := Some(0));
    for i := 0 to |es|
      invariant Counted(es[..i], s)
    {
      assert es[..i + 1] == es[..i] + [es[i]];
      s := CountEntry(es[..i], s, es[i]);
    }
    assert es[..|es|] == es;
    s := s.(entries := |es|, total := if s.unknown == 0 then s.lowerBound else None);
  }

  method CountEntry(ghost es: seq<Entry>, s: Summary, e: Entry) returns (t: Summary)
    requires Counted(es, s)
    ensures Counted(es + [e], t)
  {
    CountedMore(es, s, e);
    hide Counted, Number, Has, IsUnknown, Count;
    t := CountMarks(s, e);
    t := CountCollateral(t, e);
    t := CountCandidates(t, e);
  }

  /** The summary after one more entry. */
  function WithEntry(s: Summary, e: Entry): Summary
    requires s.lowerBound.Some?
  {
    s.(deferred := s.deferred + One(Has(e, Deferred)), conditional := s.conditional + One(Has(e, Conditional)),
       unknown := s.unknown + One(Has(e, UnknownCount)), exposed := s.exposed + One(Has(e, Exposed)),
       unknownCollateral := s.unknownCollateral + One(Has(e, UnknownCollateral)),
       largest := Larger(s.largest, e.replay.candidateCount), lowerBound := Some(s.lowerBound.value + Count(e)))
  }

  function Larger(m: Option<int>, c: Option<int>): Option<int> {
    if c.Some? && (m.None? || c.value > m.value) then c else m
  }

  lemma CountedMore(es: seq<Entry>, s: Summary, e: Entry)
    requires Counted(es, s)
    ensures Counted(es + [e], WithEntry(s, e))
  {
    NumberMore(es, e, Deferred);
    NumberMore(es, e, Conditional);
    NumberMore(es, e, UnknownCount);
    NumberMore(es, e, Exposed);
    NumberMore(es, e, UnknownCollateral);
    LowerBoundMore(es, e);
    LargestMore(es, e, s.largest);
    hide Number, LowerBound, IsLargest, Has, Count, Larger;
  }

  method CountCandidates(s: Summary, e: Entry) returns (t: Summary)
    requires s.lowerBound.Some?
    ensures t == s.(largest := Larger(s.largest, e.replay.candidateCount),
                    lowerBound := Some(s.lowerBound.value + Count(e)))
  {
    t := s;
    if e.replay.candidateCount.Some? {
      var count := e.replay.candidateCount.value;
      if t.largest.None? || count > t.largest.value { t := t.(largest := Some(count)); }
      t := t.(lowerBound := Some(t.lowerBound.value + count));
    }
  }

  method CountMarks(s: Summary, e: Entry) returns (t: Summary)
    ensures t == s.(deferred := s.deferred + One(Has(e, Deferred)),
                    conditional := s.conditional + One(Has(e, Conditional)),
                    unknown := s.unknown + One(Has(e, UnknownCount)))
  {
    t := s;
    if e.destination.deferred { t := t.(deferred := t.deferred + 1); }
    if e.strategy == CONDITIONAL { t := t.(conditional := t.conditional + 1); }
    if e.replay.determinacy == UNKNOWN { t := t.(unknown := t.unknown + 1); }
  }

  method CountCollateral(s: Summary, e: Entry) returns (t: Summary)
    ensures t == s.(exposed := s.exposed + One(Has(e, Exposed)),
                    unknownCollateral := s.unknownCollateral + One(Has(e, UnknownCollateral)))
  {
    t := s;
    if e.collateralExposed.Some? {
      if e.collateralExposed.value { t := t.(exposed := t.exposed + 1); }
    } else {
      t := t.(unknownCollateral := t.unknownCollateral + 1);
    }
  }

  lemma LargestMore(es: seq<Entry>, e: Entry, m: Option<int>)
    requires IsLargest(es, m)
    ensures IsLargest(es + [e], Larger(m, e.replay.candidateCount))
  {
    var c := e.replay.candidateCount;
    var best := Larger(m, c);
    if best.Some? {
      if best == c {
        assert (es + [e])[|es|] == e;
      } else {
        var i :| 0 <= i < |es| && es[i].replay.candidateCount == m;
        assert (es + [e])[i] == es[i];
      }
    }
  }

  method CountUnowned(refs: seq<CollateralRef>) returns (n: nat)
    ensures n == Unowned(refs)
  {
    n := 0;
    for i := 0 to |refs|
      invariant n == Unowned(refs[..i])
    {
      assert refs[..i + 1][..i] == refs[..i];
      if !refs[i].stackOwned { n := n + 1; }
    }
    assert refs[..|refs|] == refs;
  }
}
