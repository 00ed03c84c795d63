/** Ordering a stack and turning it into a checkout plan. */
module CheckoutPlan {
  import opened Options
  import opened CheckoutSync

  datatype StackEntry = StackEntry(name: Name, branch: Branch, base: string, archived: bool)

  function GitBranch(e: StackEntry): Branch {
    if e.branch != "" then e.branch else e.name
  }

  ghost predicate DistinctNames(s: seq<StackEntry>) {
    forall i, j :: 0 <= i < j < |s| ==> s[i].name != s[j].name
  }

  ghost function Names(s: seq<StackEntry>): set<Name> {
    set i | 0 <= i < |s| :: s[i].name
  }

  /** Every entry comes after the entry its base names, if there is one. */
  ghost predicate Topological(s: seq<StackEntry>) {
    forall i, j :: 0 <= i <= j < |s| ==> s[i].base != s[j].name
  }

  /** The entries named in `k` are based on entries named in `k`. */
  ghost predicate Closed(s: seq<StackEntry>, k: set<Name>) {
    forall i {:trigger s[i].base} :: 0 <= i < |s| && s[i].name in k ==> s[i].base in k
  }

  /** Named entries each based on another of them: what a cycle amounts to. */
  ghost predicate Knot(s: seq<StackEntry>, k: set<Name>) {
    k != {} && k <= Names(s) && Closed(s, k)
  }

  ghost predicate IsRoot(s: seq<StackEntry>, e: StackEntry) {
    e.base !in Names(s)
  }

  /** A name may stand for several entries only if none of them is based on another entry. */
  ghost predicate OnlyRootsRepeat(s: seq<StackEntry>) {
    forall i, j :: 0 <= i < j < |s| && s[i].name == s[j].name ==> IsRoot(s, s[i]) && IsRoot(s, s[j])
  }

  // ---------- an order ----------

  /** `from` names places of `s`, none twice. */
  ghost predicate Places(s: seq<StackEntry>, from: seq<nat>) {
    (forall k :: 0 <= k < |from| ==> from[k] < |s|) && NoRepeats(from)
  }

  ghost predicate NoRepeats(from: seq<nat>) {
    forall k, l :: 0 <= k < l < |from| ==> from[k] != from[l]
  }

  /** Every entry comes after the entries its base names. */
  ghost predicate BasesFirst(s: seq<StackEntry>, from: seq<nat>)
    requires Places(s, from)
  {
    forall k, l :: 0 <= k <= l < |from| ==> s[from[k]].base != s[from[l]].name
  }

  /** `x` is met before any `y`. */
  ghost predicate Precedes(s: seq<StackEntry>, from: seq<nat>, x: Name, y: Name)
    requires Places(s, from)
  {
    exists p :: 0 <= p < |from| && s[from[p]].name == x && forall r :: 0 <= r <= p ==> s[from[r]].name != y
  }

  /** Roots come first, in stack order; then the entries of an earlier base before those of a later one, and of
      one base in stack order. */
  ghost predicate ComesBefore(s: seq<StackEntry>, from: seq<nat>, i: nat, j: nat)
    requires Places(s, from) && i < |s| && j < |s|
  {
    if IsRoot(s, s[i]) then !IsRoot(s, s[j]) || i < j
    else !IsRoot(s, s[j]) && if s[i].base == s[j].base then i < j else Precedes(s, from, s[i].base, s[j].base)
  }

  ghost predicate FirstCome(s: seq<StackEntry>, from: seq<nat>)
    requires Places(s, from)
  {
    forall k, l :: 0 <= k < l < |from| ==> ComesBefore(s, from, from[k], from[l])
  }

  /** All entries, bases first, and first come, first served. */
  ghost predicate Order(s: seq<StackEntry>, from: seq<nat>) {
    Places(s, from) && |from| == |s| && BasesFirst(s, from) && FirstCome(s, from)
  }

  ghost predicate IsLast(s: seq<StackEntry>, n: Name, i: int) {
    0 <= i < |s| && s[i].name == n && forall j :: i < j < |s| ==> s[j].name != n
  }

  ghost predicate IsLatest(s: seq<StackEntry>, n: Name, e: StackEntry) {
    exists i :: IsLast(s, n, i) && e == s[i]
  }

  /** Each place is filled with the last entry of its name. */
  ghost predicate Shows(s: seq<StackEntry>, from: seq<nat>, t: seq<StackEntry>)
    requires Places(s, from)
  {
    |t| == |from| && forall k :: 0 <= k < |t| ==> IsLatest(s, s[from[k]].name, t[k])
  }

  /** With distinct names that is the place's own entry. */
  lemma ShowsItself(s: seq<StackEntry>, from: seq<nat>, t: seq<StackEntry>)
    requires DistinctNames(s) && Places(s, from) && Shows(s, from, t)
    ensures forall k :: 0 <= k < |t| ==> t[k] == s[from[k]]
    ensures DistinctNames(t) && (BasesFirst(s, from) ==> Topological(t))
  {
    forall k | 0 <= k < |t| ensures t[k] == s[from[k]] {
      var i :| IsLast(s, s[from[k]].name, i) && t[k] == s[i];
    }
  }

  /** What is shown has its bases first, too. */
  lemma ShownTopological(s: seq<StackEntry>, from: seq<nat>, t: seq<StackEntry>)
    requires OnlyRootsRepeat(s) && Places(s, from) && BasesFirst(s, from) && Shows(s, from, t)
    ensures Topological(t)
  {
    forall k, l | 0 <= k <= l < |t| ensures t[k].base != t[l].name {
      var i :| IsLast(s, s[from[k]].name, i) && t[k] == s[i];
      var j :| IsLast(s, s[from[l]].name, j) && t[l] == s[j];
      if i != from[k] { assert IsRoot(s, s[i]); }
    }
  }

  // ---------- counting places ----------

  ghost function Below(n: nat): (b: set<nat>)
    ensures |b| == n && forall i: nat :: i in b <==> i < n
  {
    if n == 0 then {} else Below(n - 1) + {n - 1}
  }

  ghost function Elements(from: seq<nat>): set<nat> {
    set i | i in from
  }

  lemma PlacesFit(from: seq<nat>, n: nat)
    requires forall k :: 0 <= k < |from| ==> from[k] < n
    requires NoRepeats(from)
    ensures |from| <= n
    ensures |from| == n ==> forall i: nat :: i < n ==> i in from
    ensures |from| < n ==> exists i: nat :: i < n && i !in from
  {
    DistinctCount(from);
    SubsetCount(Elements(from), Below(n));
    assert forall i: nat :: i in Elements(from) <==> i in from;
    if |from| < n {
      var i :| i in Below(n) && i !in Elements(from);
    } else {
      assert forall i: nat :: i < n ==> i in Below(n);
    }
  }

  lemma {:induction false} DistinctCount(from: seq<nat>)
    requires NoRepeats(from)
    ensures |Elements(from)| == |from|
  {
    if |from| > 0 {
      var t, x := from[..|from| - 1], from[|from| - 1];
      DistinctCount(t);
      assert from == t + [x];
      assert Elements(from) == Elements(t) + {x};
      assert forall k :: 0 <= k < |t| ==> t[k] == from[k] != from[|t|];
      assert x !in t;
    }
  }

  lemma {:induction false} SubsetCount(a: set<nat>, b: set<nat>)
    requires a <= b
    ensures |a| <= |b| && (|a| == |b| ==> a == b)
    ensures |a| < |b| ==> exists x :: x in b && x !in a
  {
    if a != {} {
      var x :| x in a;
      SubsetCount(a - {x}, b - {x});
      if |a| == |b| { assert a == (a - {x}) + {x} == (b - {x}) + {x} == b; }
    } else if b != {} {
      var y :| y in b;
      assert |b| == |b - {y}| + 1;
    }
  }

  // ---------- what an order excludes and determines ----------

  lemma PlaceOf(s: seq<StackEntry>, from: seq<nat>, n: Name) returns (q: nat)
    requires Places(s, from) && |from| == |s| && n in Names(s)
    ensures q < |from| && s[from[q]].name == n
  {
    var j: nat :| j < |s| && s[j].name == n;
    PlacesFit(from, |s|);
    assert j in from;
    q :| q < |from| && from[q] == j;
  }

  lemma {:induction false} NoKnotAt(s: seq<StackEntry>, from: seq<nat>, k: set<Name>, p: nat)
    requires Places(s, from) && |from| == |s| && BasesFirst(s, from)
    requires p < |from| && k <= Names(s) && Closed(s, k)
    ensures s[from[p]].name !in k
    decreases p
  {
    if s[from[p]].name in k {
      var q := PlaceOf(s, from, s[from[p]].base);
      NoKnotAt(s, from, k, q);
    }
  }

  /** A stack that can be ordered has no cycle. */
  lemma OrderedHasNoKnot(s: seq<StackEntry>, from: seq<nat>, k: set<Name>)
    requires Order(s, from)
    ensures !Knot(s, k)
  {
    hide FirstCome, Closed;
    if Knot(s, k) {
      var n :| n in k;
      var q := PlaceOf(s, from, n);
      NoKnotAt(s, from, k, q);
    }
  }

  /** Where two sequences of places agree, they agree on what is met first. */
  lemma NotBoth(s: seq<StackEntry>, f: seq<nat>, g: seq<nat>, k: nat, x: Name, y: Name)
    requires Places(s, f) && Places(s, g) && k <= |f| && k <= |g| && f[..k] == g[..k]
    requires forall r :: k <= r < |f| ==> s[f[r]].name != x
    requires forall r :: k <= r < |g| ==> s[g[r]].name != y
    requires Precedes(s, f, x, y)
    ensures !Precedes(s, g, y, x)
  {
    forall r | 0 <= r < k ensures f[r] == g[r] {
      assert f[..k][r] == g[..k][r];
    }
    var p :| 0 <= p < |f| && s[f[p]].name == x && forall r :: 0 <= r <= p ==> s[f[r]].name != y;
    forall q | 0 <= q < |g| && s[g[q]].name == y
      ensures 0 <= p <= q && s[g[p]].name == x
    {
      assert s[f[q]].name == y;
    }
  }

  /** The first place where two orders differ cannot exist. */
  lemma NoFirstDifference(s: seq<StackEntry>, f: seq<nat>, g: seq<nat>, k: nat, i: nat, j: nat)
    requires Order(s, f) && Order(s, g)
    requires k < i < |f| && k < j < |g| && f[..k] == g[..k]
    ensures !(f[i] == g[k] && g[j] == f[k])
  {
    var a, b := f[k], g[k];
    assert ComesBefore(s, f, f[k], f[i]) && ComesBefore(s, g, g[k], g[j]);
    if !IsRoot(s, s[a]) && !IsRoot(s, s[b]) && Precedes(s, f, s[a].base, s[b].base) {
      NotBoth(s, f, g, k, s[a].base, s[b].base);
    }
  }

  /** There is only one order, so the stack determines the result. */
  lemma {:induction false} OrderUnique(s: seq<StackEntry>, f: seq<nat>, g: seq<nat>, k: nat)
    requires Order(s, f) && Order(s, g) && k <= |s|
    ensures f[..k] == g[..k]
  {
    if k > 0 {
      OrderUnique(s, f, g, k - 1);
      hide BasesFirst, FirstCome, NoRepeats;
      if f[k - 1] != g[k - 1] {
        var i := Later(s, f, g, k - 1);
        var j := Later(s, g, f, k - 1);
        NoFirstDifference(s, f, g, k - 1, i, j);
      }
      assert f[..k] == f[..k - 1] + [f[k - 1]] && g[..k] == g[..k - 1] + [g[k - 1]];
    }
  }

  /** What `g` has at `k` comes later in `f`. */
  lemma Later(s: seq<StackEntry>, f: seq<nat>, g: seq<nat>, k: nat) returns (i: nat)
    requires Order(s, f) && Order(s, g) && k < |s| && f[..k] == g[..k] && f[k] != g[k]
    ensures k < i < |f| && f[i] == g[k]
  {
    PlacesFit(f, |s|);
    assert g[k] in f;
    i :| i < |f| && f[i] == g[k];
    forall x | 0 <= x < k ensures f[x] == g[x] {
      assert f[..k][x] == g[..k][x];
    }
  }

  // ---------- Kahn's algorithm: the tables ----------

  /** No entry of this name is based on an entry. */
  ghost predicate Rooted(s: seq<StackEntry>, n: Name) {
    forall i {:trigger s[i]} :: 0 <= i < |s| && s[i].name == n ==> IsRoot(s, s[i])
  }

  /** `names` are the names of the places in `from`. */
  ghost predicate Named(s: seq<StackEntry>, from: seq<nat>, names: seq<Name>) {
    |names| == |from| && forall k :: 0 <= k < |from| ==> from[k] < |s| && names[k] == s[from[k]].name
  }

  /** The entries by name: the last of each. */
  ghost predicate ByName(s: seq<StackEntry>, entries: map<Name, StackEntry>) {
    && entries.Keys == Names(s)
    && forall n :: n in entries ==> IsLatest(s, n, entries[n])
  }

  method EntriesByName(s: seq<StackEntry>) returns (entries: map<Name, StackEntry>, inDegree: map<Name, int>)
    ensures ByName(s, entries)
    ensures inDegree.Keys == entries.Keys && forall n :: n in inDegree ==> inDegree[n] == 0
  {
    entries, inDegree := map[], map[];
    for i := 0 to |s|
      invariant inDegree.Keys == entries.Keys && forall n :: n in inDegree ==> inDegree[n] == 0
      invariant ByName(s[..i], entries)
    {
      EntryNamed(s, entries, i);
      entries := entries[s[i].name := s[i]];
      inDegree := inDegree[s[i].name := 0];
    }
    assert s[..|s|] == s;
  }

  lemma EntryNamed(s: seq<StackEntry>, entries: map<Name, StackEntry>, i: nat)
    requires i < |s| && ByName(s[..i], entries)
    ensures ByName(s[..i + 1], entries[s[i].name := s[i]])
  {
    var before, after, e := s[..i], s[..i + 1], s[i];
    assert after == before + [e];
    NamesMore(before, e);
    forall n | n == e.name || n in entries
      ensures IsLatest(after, n, entries[e.name := e][n])
    {
      hide Names;
      if n == e.name {
        assert IsLast(after, n, i) && after[i] == e;
      } else {
        var j :| IsLast(before, n, j) && entries[n] == before[j];
        assert IsLast(after, n, j) && after[j] == before[j];
      }
    }
    hide IsLatest;
  }

  lemma NamesMore(s: seq<StackEntry>, e: StackEntry)
    ensures Names(s + [e]) == Names(s) + {e.name}
  {
    var more := s + [e];
    assert more[|s|] == e;
    forall n | n in Names(s) ensures n in Names(more) {
      var j :| 0 <= j < |s| && s[j].name == n;
      assert more[j].name == n;
    }
  }

  ghost predicate Increasing(from: seq<nat>) {
    forall k, l :: 0 <= k < l < |from| ==> from[k] < from[l]
  }

  /** The places before `m` whose base is `b`. */
  ghost function Kids(s: seq<StackEntry>, b: Name, m: nat): (kids: seq<nat>)
    requires m <= |s|
    ensures forall k :: 0 <= k < |kids| ==> kids[k] < m
  {
    if m == 0 then [] else Kids(s, b, m - 1) + if s[m - 1].base == b then [m - 1] else []
  }

  lemma {:induction false} KidsAre(s: seq<StackEntry>, b: Name, m: nat)
    requires m <= |s|
    ensures var kids := Kids(s, b, m);
            Increasing(kids) && forall i: nat :: i in kids <==> i < m && s[i].base == b
  {
    if m > 0 {
      KidsAre(s, b, m - 1);
      var before := Kids(s, b, m - 1);
      assert forall i: nat :: i in before + [m - 1] <==> i in before || i == m - 1;
    }
  }

  function ChildrenOf(children: map<Name, seq<Name>>, b: Name): seq<Name> {
    if b in children then children[b] else []
  }

  ghost predicate ByBase(s: seq<StackEntry>, children: map<Name, seq<Name>>, m: nat)
    requires m <= |s|
  {
    children.Keys <= Names(s) && forall b :: b in Names(s) ==> Named(s, Kids(s, b, m), ChildrenOf(children, b))
  }

  /** How many of the first `m` entries have this name and are based on an entry. */
  ghost function Degree(s: seq<StackEntry>, n: Name, m: nat): nat
    requires m <= |s|
  {
    if m == 0 then 0 else Degree(s, n, m - 1) + if s[m - 1].name == n && !IsRoot(s, s[m - 1]) then 1 else 0
  }

  lemma {:induction false} DegreeZero(s: seq<StackEntry>, n: Name, m: nat)
    requires m <= |s|
    ensures Degree(s, n, m) == 0 <==> forall i {:trigger s[i]} :: 0 <= i < m && s[i].name == n ==> IsRoot(s, s[i])
  {
    hide IsRoot;
    if m > 0 { DegreeZero(s, n, m - 1); }
  }

  lemma {:induction false} DegreeOne(s: seq<StackEntry>, i: nat, m: nat)
    requires OnlyRootsRepeat(s) && i < m <= |s| && !IsRoot(s, s[i])
    ensures Degree(s, s[i].name, m) == 1
  {
    hide IsRoot;
    if i == m - 1 {
      DegreeZero(s, s[i].name, m - 1);
    } else {
      DegreeOne(s, i, m - 1);
    }
  }

  ghost predicate Degrees(s: seq<StackEntry>, inDegree: map<Name, int>, m: nat)
    requires m <= |s|
  {
    inDegree.Keys == Names(s) && forall n :: n in inDegree ==> inDegree[n] == Degree(s, n, m)
  }

  lemma NothingCounted(s: seq<StackEntry>, zeros: map<Name, int>)
    requires zeros.Keys == Names(s) && forall n :: n in zeros ==> zeros[n] == 0
    ensures ByBase(s, map[], 0) && Degrees(s, zeros, 0)
  {
  }

  method ChildrenByBase(s: seq<StackEntry>, entries: map<Name, StackEntry>, zeros: map<Name, int>)
    returns (children: map<Name, seq<Name>>, inDegree: map<Name, int>)
    requires entries.Keys == Names(s) == zeros.Keys && forall n :: n in zeros ==> zeros[n] == 0
    ensures ByBase(s, children, |s|) && Degrees(s, inDegree, |s|)
  {
    hide ByBase, Degrees, Kids, Degree, Names, ChildrenOf;
    children, inDegree := map[], zeros;
    NothingCounted(s, zeros);
    for i := 0 to |s|
      invariant ByBase(s, children, i) && Degrees(s, inDegree, i)
    {
      var e := s[i];
      ChildAdded(s, children, i);
      DegreeCounted(s, inDegree, i);
      if e.base in entries {
        children := children[e.base := ChildrenOf(children, e.base) + [e.name]];
        inDegree := inDegree[e.name := inDegree[e.name] + 1];
      }
    }
  }

  lemma DegreeCounted(s: seq<StackEntry>, inDegree: map<Name, int>, i: nat)
    requires i < |s| && Degrees(s, inDegree, i)
    ensures s[i].name in inDegree
    ensures Degrees(s, if IsRoot(s, s[i]) then inDegree else inDegree[s[i].name := inDegree[s[i].name] + 1], i + 1)
  {
    assert s[i].name in Names(s);
    hide IsRoot, Names;
  }

  lemma ChildAdded(s: seq<StackEntry>, children: map<Name, seq<Name>>, i: nat)
    requires i < |s| && ByBase(s, children, i)
    ensures var e := s[i];
            ByBase(s, if IsRoot(s, e) then children else children[e.base := ChildrenOf(children, e.base) + [e.name]],
                   i + 1)
  {
    var e := s[i];
    var more := if IsRoot(s, e) then children else children[e.base := ChildrenOf(children, e.base) + [e.name]];
    forall b | b in Names(s)
      ensures Named(s, Kids(s, b, i + 1), ChildrenOf(more, b))
    {
      assert Named(s, Kids(s, b, i), ChildrenOf(children, b));
    }
  }

  /** `from` lists the places before `m` of all roots, in stack order. */
  ghost predicate RootPlaces(s: seq<StackEntry>, from: seq<nat>, m: nat)
    requires m <= |s|
  {
    && (forall k :: 0 <= k < |from| ==> from[k] < m) && Increasing(from)
    && forall i: nat :: i < m ==> (i in from <==> Rooted(s, s[i].name))
  }

  method Roots(s: seq<StackEntry>, inDegree: map<Name, int>) returns (queue: seq<Name>, ghost from: seq<nat>)
    requires Degrees(s, inDegree, |s|)
    ensures RootPlaces(s, from, |s|) && Named(s, from, queue)
  {
    hide *;
    queue, from := [], [];
    NoRootsYet(s);
    for i := 0 to |s|
      invariant RootPlaces(s, from, i) && Named(s, from, queue)
    {
      RootDegree(s, inDegree, i);
      RootPlaced(s, from, i);
      NamedMore(s, from, queue, i);
      if inDegree[s[i].name] == 0 {
        queue, from := queue + [s[i].name], from + [i];
      }
    }
  }

  lemma NoRootsYet(s: seq<StackEntry>)
    ensures RootPlaces(s, [], 0) && Named(s, [], [])
  {
  }

  lemma NamedMore(s: seq<StackEntry>, from: seq<nat>, names: seq<Name>, i: nat)
    requires Named(s, from, names) && i < |s|
    ensures Named(s, from + [i], names + [s[i].name])
  {
  }

  lemma RootDegree(s: seq<StackEntry>, inDegree: map<Name, int>, i: nat)
    requires Degrees(s, inDegree, |s|) && i < |s|
    ensures s[i].name in inDegree && (inDegree[s[i].name] == 0 <==> Rooted(s, s[i].name))
  {
    assert s[i].name in Names(s);
    DegreeZero(s, s[i].name, |s|);
    hide Names;
  }

  lemma RootPlaced(s: seq<StackEntry>, from: seq<nat>, i: nat)
    requires i < |s| && RootPlaces(s, from, i)
    ensures RootPlaces(s, if Rooted(s, s[i].name) then from + [i] else from, i + 1)
    ensures forall k :: 0 <= k < |from| ==> from[k] < |s|
  {
    hide Rooted;
    assert i !in from;
  }

  // ---------- Kahn's algorithm: the queue ----------

  /** `from` lists the places ever queued.  A name that is no root's is queued at most once, when nothing it waits
      for is left. */
  ghost predicate Queueing(s: seq<StackEntry>, from: seq<nat>, inDegree: map<Name, int>) {
    && Places(s, from) && inDegree.Keys == Names(s)
    && (forall k, l :: 0 <= k < l < |from| && !Rooted(s, s[from[k]].name) ==> s[from[k]].name != s[from[l]].name)
    && forall k :: 0 <= k < |from| && !Rooted(s, s[from[k]].name) ==> Waits(inDegree, s[from[k]].name) <= 0
  }

  ghost function Waits(inDegree: map<Name, int>, n: Name): int {
    if n in inDegree then inDegree[n] else 0
  }

  /** One of the first `d` places is of that name. */
  ghost predicate Met(s: seq<StackEntry>, from: seq<nat>, d: nat, n: Name)
    requires Places(s, from) && d <= |from|
  {
    exists k :: 0 <= k < d && s[from[k]].name == n
  }

  /** Where only roots repeat, all of them are queued, and every other entry exactly when its base is done, those
      in `open` possibly not yet. */
  ghost predicate Ready(s: seq<StackEntry>, from: seq<nat>, inDegree: map<Name, int>, d: nat, open: set<nat>) {
    Places(s, from) && BasesFirst(s, from) && FirstCome(s, from) && Complete(s, from, inDegree, d, open)
  }

  ghost predicate Complete(s: seq<StackEntry>, from: seq<nat>, inDegree: map<Name, int>, d: nat, open: set<nat>)
    requires Places(s, from)
  {
    && d <= |from|
    && (forall j: nat :: j < |s| && IsRoot(s, s[j]) ==> j in from)
    && (forall j: nat :: j in from && !IsRoot(s, s[j]) ==> Met(s, from, d, s[j].base))
    && (forall j: nat :: j < |s| && !IsRoot(s, s[j]) && Met(s, from, d, s[j].base) && j !in open ==> j in from)
    && (forall j: nat :: j < |s| && !IsRoot(s, s[j]) && j !in from ==> Waits(inDegree, s[j].name) == 1)
  }

  /** The entries based on the last one done: none of those in `open` is queued yet when it was met for the first
      time, and all are otherwise. */
  ghost predicate Fresh(s: seq<StackEntry>, from: seq<nat>, d: nat, open: set<nat>)
    requires Places(s, from) && 0 < d <= |from|
  {
    if Met(s, from, d - 1, s[from[d - 1]].name)
    then forall j: nat :: j < |s| && s[j].base == s[from[d - 1]].name ==> j in from
    else forall j :: j in open ==> j !in from
  }

  /** The places from the `i`-th on. */
  ghost function Rest(kids: seq<nat>, i: nat): set<nat>
    requires i <= |kids|
  {
    Elements(kids[i..])
  }

  lemma RestStep(kids: seq<nat>, i: nat)
    requires i < |kids| && Increasing(kids)
    ensures kids[i] in Rest(kids, i) && Rest(kids, i + 1) == Rest(kids, i) - {kids[i]}
    ensures forall j :: j in kids && j !in Rest(kids, i) ==> j < kids[i]
  {
    assert kids[i..] == [kids[i]] + kids[i + 1..];
    forall l | i <= l < |kids| ensures kids[l] in Rest(kids, i) {
      assert kids[i..][l - i] == kids[l];
    }
  }

  lemma Started(s: seq<StackEntry>, from: seq<nat>, inDegree: map<Name, int>)
    requires RootPlaces(s, from, |s|) && Degrees(s, inDegree, |s|)
    ensures Queueing(s, from, inDegree)
    ensures OnlyRootsRepeat(s) ==> Ready(s, from, inDegree, 0, {})
  {
    assert forall k :: 0 <= k < |from| ==> from[k] in from && Rooted(s, s[from[k]].name);
    if OnlyRootsRepeat(s) { RootsReady(s, from, inDegree); }
  }

  lemma RootsReady(s: seq<StackEntry>, from: seq<nat>, inDegree: map<Name, int>)
    requires OnlyRootsRepeat(s) && RootPlaces(s, from, |s|) && Degrees(s, inDegree, |s|)
    ensures Ready(s, from, inDegree, 0, {})
  {
    forall j: nat | j < |s|
      ensures j in from <==> IsRoot(s, s[j])
      ensures !IsRoot(s, s[j]) ==> Waits(inDegree, s[j].name) == 1
    {
      RootedOrNot(s, j);
      assert s[j].name in Names(s);
      if !IsRoot(s, s[j]) { DegreeOne(s, j, |s|); }
    }
    hide RootPlaces, Degrees, Rooted;
    forall k, l | 0 <= k < |from| && 0 <= l < |from| ensures s[from[k]].base != s[from[l]].name {
      assert from[k] in from && s[from[l]].name in Names(s);
    }
  }

  lemma RootedOrNot(s: seq<StackEntry>, j: nat)
    requires OnlyRootsRepeat(s) && j < |s|
    ensures Rooted(s, s[j].name) <==> IsRoot(s, s[j])
  {
    hide IsRoot;
  }

  lemma MetMore(s: seq<StackEntry>, from: seq<nat>, d: nat, n: Name)
    requires Places(s, from) && d < |from|
    ensures Met(s, from, d + 1, n) <==> Met(s, from, d, n) || n == s[from[d]].name
  {
    if Met(s, from, d, n) {
      var k :| 0 <= k < d && s[from[k]].name == n;
      assert 0 <= k < d + 1;
    }
  }

  /** The head of the queue is done; what is based on it is to be released. */
  lemma Taken(s: seq<StackEntry>, from: seq<nat>, inDegree: map<Name, int>, d: nat, kids: set<nat>)
    requires d < |from| && Ready(s, from, inDegree, d, {})
    requires forall j: nat :: j in kids <==> j < |s| && s[j].base == s[from[d]].name
    ensures Ready(s, from, inDegree, d + 1, kids) && Fresh(s, from, d + 1, kids)
  {
    assert s[from[d]].name in Names(s);
    forall n ensures Met(s, from, d + 1, n) <==> Met(s, from, d, n) || n == s[from[d]].name {
      MetMore(s, from, d, n);
    }
    forall j: nat | j in from ensures j < |s| {}
    hide Met, Places, BasesFirst, FirstCome, Names;
  }

  /** One place of a name that is no root's is released: it is queued when that was all it waited for. */
  ghost predicate ReleasesOne(s: seq<StackEntry>, from: seq<nat>, inDegree: map<Name, int>, c: nat, more: seq<nat>,
                              less: map<Name, int>)
    requires c < |s|
  {
    && s[c].name in inDegree && less == inDegree[s[c].name := inDegree[s[c].name] - 1]
    && more == if less[s[c].name] == 0 then from + [c] else from
  }

  lemma ReleasedQueueing(s: seq<StackEntry>, from: seq<nat>, inDegree: map<Name, int>, c: nat, more: seq<nat>,
                         less: map<Name, int>)
    requires Queueing(s, from, inDegree) && c < |s| && !IsRoot(s, s[c]) && ReleasesOne(s, from, inDegree, c, more, less)
    ensures Queueing(s, more, less)
  {
    assert !Rooted(s, s[c].name);
    hide Rooted, IsRoot, Names;
    if less[s[c].name] == 0 {
      forall k | 0 <= k < |from| && !Rooted(s, s[from[k]].name) ensures s[from[k]].name != s[c].name {
        assert Waits(inDegree, s[from[k]].name) <= 0;
      }
      QueuedOnce(s, from, inDegree, c, less);
    } else {
      assert forall n :: Waits(less, n) <= Waits(inDegree, n);
      hide Waits;
    }
  }

  lemma QueuedOnce(s: seq<StackEntry>, from: seq<nat>, inDegree: map<Name, int>, c: nat, less: map<Name, int>)
    requires Queueing(s, from, inDegree) && c < |s| && !Rooted(s, s[c].name) && less.Keys == inDegree.Keys
    requires forall k :: 0 <= k < |from| && !Rooted(s, s[from[k]].name) ==> s[from[k]].name != s[c].name
    requires forall n :: n != s[c].name ==> Waits(less, n) == Waits(inDegree, n)
    requires Waits(less, s[c].name) <= 0
    ensures Queueing(s, from + [c], less)
  {
    hide Rooted, Names, Waits;
    assert c !in from;
  }

  lemma MetGrows(s: seq<StackEntry>, from: seq<nat>, c: nat, d: nat, n: Name)
    requires Places(s, from) && Places(s, from + [c]) && d <= |from|
    ensures Met(s, from + [c], d, n) <==> Met(s, from, d, n)
  {
    assert forall k :: 0 <= k < d ==> (from + [c])[k] == from[k];
  }

  lemma PrecedesGrows(s: seq<StackEntry>, from: seq<nat>, c: nat, x: Name, y: Name)
    requires Places(s, from) && Places(s, from + [c]) && Precedes(s, from, x, y)
    ensures Precedes(s, from + [c], x, y)
  {
    var more := from + [c];
    assert forall k :: 0 <= k < |from| ==> more[k] == from[k];
    var p :| 0 <= p < |from| && s[from[p]].name == x && forall r :: 0 <= r <= p ==> s[from[r]].name != y;
    assert s[more[p]].name == x;
  }

  /** An entry waiting for the one just done comes after everything queued. */
  lemma KidComesLast(s: seq<StackEntry>, from: seq<nat>, inDegree: map<Name, int>, d: nat, open: set<nat>,
                     c: nat, a: nat)
    requires Ready(s, from, inDegree, d, open) && 0 < d && Fresh(s, from, d, open) && a in from
    requires c in open && c < |s| && c !in from && !IsRoot(s, s[c]) && s[c].base == s[from[d - 1]].name
    requires forall j: nat :: j < |s| && s[j].base == s[c].base && j !in open ==> j < c
    ensures a < |s| && ComesBefore(s, from, a, c)
  {
    var name := s[from[d - 1]].name;
    assert a < |s| && !Met(s, from, d - 1, name);
    if !IsRoot(s, s[a]) && s[a].base != name {
      assert Met(s, from, d, s[a].base);
      var p :| 0 <= p < d && s[from[p]].name == s[a].base;
      assert forall r :: 0 <= r <= p ==> s[from[r]].name != name;
    }
  }

  /** The new order, provided that everything queued comes before the new place. */
  lemma OneMorePlace(s: seq<StackEntry>, from: seq<nat>, c: nat)
    requires Places(s, from) && BasesFirst(s, from) && FirstCome(s, from) && c < |s| && c !in from
    requires forall a :: a in from ==> a < |s| && ComesBefore(s, from, a, c) && s[a].base != s[c].name
    requires s[c].base != s[c].name
    ensures Places(s, from + [c]) && BasesFirst(s, from + [c]) && FirstCome(s, from + [c])
  {
    var more := from + [c];
    assert forall k :: 0 <= k < |from| ==> more[k] == from[k] && from[k] in from;
    forall k, l | 0 <= k < l < |more| ensures ComesBefore(s, more, more[k], more[l]) {
      assert ComesBefore(s, from, more[k], more[l]);
      var x, y := s[more[k]].base, s[more[l]].base;
      if Precedes(s, from, x, y) { PrecedesGrows(s, from, c, x, y); }
    }
    hide ComesBefore, Precedes;
  }

  /** Nothing is queued that waits for an entry not queued yet. */
  lemma NotWaitedFor(s: seq<StackEntry>, from: seq<nat>, inDegree: map<Name, int>, d: nat, open: set<nat>,
                     c: nat, a: nat)
    requires OnlyRootsRepeat(s) && Ready(s, from, inDegree, d, open)
    requires c < |s| && c !in from && !IsRoot(s, s[c]) && a in from
    ensures a < |s| && s[a].base != s[c].name
  {
    assert a < |s| && s[c].name in Names(s);
    forall k | 0 <= k < |from| ensures s[from[k]].name != s[c].name {
      assert from[k] in from;
      NamedAlone(s, c, from[k]);
    }
    assert !Met(s, from, d, s[c].name);
  }

  /** `Ready` goes on with one entry less to release. */
  lemma ReleasedReady(s: seq<StackEntry>, from: seq<nat>, inDegree: map<Name, int>, d: nat, open: set<nat>, c: nat,
                      more: seq<nat>, less: map<Name, int>)
    requires OnlyRootsRepeat(s) && Queueing(s, from, inDegree) && Ready(s, from, inDegree, d, open)
    requires 0 < d && Fresh(s, from, d, open) && c in open && c < |s|
    requires s[c].base == s[from[d - 1]].name && !IsRoot(s, s[c])
    requires forall j: nat :: j < |s| && s[j].base == s[c].base && j !in open ==> j < c
    requires ReleasesOne(s, from, inDegree, c, more, less)
    ensures Ready(s, more, less, d, open - {c}) && Fresh(s, more, d, open - {c})
  {
    QueuedOrWaiting(s, from, inDegree, d, open, c);
    hide IsRoot, Queueing, Ready, Fresh, OnlyRootsRepeat;
    if c in from {
      StillReady(s, from, inDegree, d, open, c);
    } else {
      NowReady(s, from, inDegree, d, open, c);
    }
  }

  lemma QueuedOrWaiting(s: seq<StackEntry>, from: seq<nat>, inDegree: map<Name, int>, d: nat, open: set<nat>, c: nat)
    requires Queueing(s, from, inDegree) && Ready(s, from, inDegree, d, open) && c < |s| && !IsRoot(s, s[c])
    requires s[c].name in inDegree
    ensures c in from <==> inDegree[s[c].name] <= 0
    ensures c !in from <==> inDegree[s[c].name] == 1
  {
    if c in from {
      var k :| 0 <= k < |from| && from[k] == c;
      assert !Rooted(s, s[from[k]].name);
    }
  }

  /** No other entry that waits shares the name. */
  lemma NamedAlone(s: seq<StackEntry>, c: nat, j: nat)
    requires OnlyRootsRepeat(s) && c < |s| && j < |s| && !IsRoot(s, s[c]) && j != c
    ensures s[j].name != s[c].name
  {
  }

  lemma StillReady(s: seq<StackEntry>, from: seq<nat>, inDegree: map<Name, int>, d: nat, open: set<nat>, c: nat)
    requires OnlyRootsRepeat(s) && Ready(s, from, inDegree, d, open) && 0 < d && Fresh(s, from, d, open)
    requires c < |s| && c in from && c in open && !IsRoot(s, s[c]) && s[c].name in inDegree
    ensures var less := inDegree[s[c].name := inDegree[s[c].name] - 1];
            Ready(s, from, less, d, open - {c}) && Fresh(s, from, d, open - {c})
  {
    forall j: nat | j < |s| && j !in from ensures s[j].name != s[c].name {
      NamedAlone(s, c, j);
    }
    hide OnlyRootsRepeat, IsRoot, BasesFirst, FirstCome, Met;
  }

  lemma NowReady(s: seq<StackEntry>, from: seq<nat>, inDegree: map<Name, int>, d: nat, open: set<nat>, c: nat)
    requires OnlyRootsRepeat(s) && Ready(s, from, inDegree, d, open) && 0 < d && Fresh(s, from, d, open)
    requires c < |s| && c !in from && c in open && !IsRoot(s, s[c]) && s[c].name in inDegree
    requires s[c].base == s[from[d - 1]].name
    requires forall j: nat :: j < |s| && s[j].base == s[c].base && j !in open ==> j < c
    ensures var less := inDegree[s[c].name := inDegree[s[c].name] - 1];
            Ready(s, from + [c], less, d, open - {c}) && Fresh(s, from + [c], d, open - {c})
  {
    forall a | a in from ensures a < |s| && ComesBefore(s, from, a, c) && s[a].base != s[c].name {
      KidComesLast(s, from, inDegree, d, open, c, a);
      NotWaitedFor(s, from, inDegree, d, open, c, a);
    }
    forall j: nat | j < |s| && j != c ensures s[j].name != s[c].name {
      NamedAlone(s, c, j);
    }
    assert from[d - 1] in from;
    OneMorePlace(s, from, c);
    forall n, e: nat | e <= d ensures Met(s, from + [c], e, n) <==> Met(s, from, e, n) {
      MetGrows(s, from, c, e, n);
    }
    NowComplete(s, from, inDegree, d, open, c);
  }

  lemma NowComplete(s: seq<StackEntry>, from: seq<nat>, inDegree: map<Name, int>, d: nat, open: set<nat>, c: nat)
    requires Places(s, from) && Places(s, from + [c]) && Complete(s, from, inDegree, d, open)
    requires 0 < d && Fresh(s, from, d, open) && c < |s| && c !in from && c in open && s[c].name in inDegree
    requires s[c].base == s[from[d - 1]].name
    requires forall j: nat :: j < |s| && j != c ==> s[j].name != s[c].name
    requires forall n, e: nat :: e <= d ==> (Met(s, from + [c], e, n) <==> Met(s, from, e, n))
    ensures var less := inDegree[s[c].name := inDegree[s[c].name] - 1];
            Complete(s, from + [c], less, d, open - {c}) && Fresh(s, from + [c], d, open - {c})
  {
    assert Met(s, from, d, s[c].base);
    assert forall j: nat :: j in from + [c] <==> j in from || j == c;
    hide Met, Places, IsRoot;
  }

  /** Between two turns of the main loop, with `d` places done. */
  ghost predicate Working(s: seq<StackEntry>, from: seq<nat>, inDegree: map<Name, int>, d: nat) {
    Queueing(s, from, inDegree) && (OnlyRootsRepeat(s) ==> Ready(s, from, inDegree, d, {}))
  }

  /** While the entries based on the last one done, called `name`, are released. */
  ghost predicate Releasing(s: seq<StackEntry>, from: seq<nat>, inDegree: map<Name, int>, d: nat, name: Name,
                            open: set<nat>) {
    && Queueing(s, from, inDegree) && 0 < d <= |from| && s[from[d - 1]].name == name
    && (OnlyRootsRepeat(s) ==> Ready(s, from, inDegree, d, open) && Fresh(s, from, d, open))
  }

  /** `kids` lists the places based on `name`, in stack order. */
  ghost predicate AreKids(s: seq<StackEntry>, name: Name, kids: seq<nat>) {
    Increasing(kids) && forall i: nat :: i in kids <==> i < |s| && s[i].base == name
  }

  lemma ReleaseBegins(s: seq<StackEntry>, from: seq<nat>, inDegree: map<Name, int>, d: nat, name: Name, kids: seq<nat>)
    requires Working(s, from, inDegree, d) && DoneNext(s, from, d, name) && AreKids(s, name, kids)
    ensures Releasing(s, from, inDegree, d + 1, name, Rest(kids, 0))
  {
    assert kids[0..] == kids;
    hide NoRepeats, Increasing;
    if OnlyRootsRepeat(s) { Taken(s, from, inDegree, d, Rest(kids, 0)); }
  }

  lemma ReleaseOne(s: seq<StackEntry>, from: seq<nat>, inDegree: map<Name, int>, d: nat, name: Name, kids: seq<nat>,
                   i: nat, more: seq<nat>, less: map<Name, int>)
    requires i < |kids| && Releasing(s, from, inDegree, d, name, Rest(kids, i)) && AreKids(s, name, kids)
    requires kids[i] < |s| && ReleasesOne(s, from, inDegree, kids[i], more, less)
    ensures Releasing(s, more, less, d, name, Rest(kids, i + 1)) && Extends(from, more) && Places(s, more)
  {
    var c := kids[i];
    RestStep(kids, i);
    assert c in kids;
    KidHasBase(s, from, d, kids, c);
    assert forall j: nat :: j < |s| && s[j].base == s[c].base ==> j in kids;
    hide Rest, AreKids, IsRoot, Names, NoRepeats, Ready, Fresh, OnlyRootsRepeat;
    ReleasedQueueing(s, from, inDegree, c, more, less);
    if OnlyRootsRepeat(s) { ReleasedReady(s, from, inDegree, d, Rest(kids, i), c, more, less); }
  }

  lemma KidHasBase(s: seq<StackEntry>, from: seq<nat>, d: nat, kids: seq<nat>, c: nat)
    requires Places(s, from) && 0 < d <= |from| && AreKids(s, s[from[d - 1]].name, kids) && c in kids
    ensures c < |s| && s[c].base == s[from[d - 1]].name && !IsRoot(s, s[c])
  {
  }

  lemma ReleaseEnds(s: seq<StackEntry>, from: seq<nat>, inDegree: map<Name, int>, d: nat, name: Name, kids: seq<nat>)
    requires Releasing(s, from, inDegree, d, name, Rest(kids, |kids|))
    ensures Working(s, from, inDegree, d)
  {
    assert Rest(kids, |kids|) == {};
    hide Rest;
  }

  /** The queue names the places not done. */
  ghost predicate QueueIs(s: seq<StackEntry>, from: seq<nat>, d: nat, queue: seq<Name>) {
    Places(s, from) && d <= |from| && Named(s, from[d..], queue)
  }

  lemma QueueGrows(s: seq<StackEntry>, from: seq<nat>, d: nat, queue: seq<Name>, c: nat)
    requires Places(s, from + [c]) && QueueIs(s, from, d, queue)
    ensures c < |s| && QueueIs(s, from + [c], d, queue + [s[c].name])
  {
    assert (from + [c])[|from|] == c && (from + [c])[d..] == from[d..] + [c];
  }

  /** The next place to be done is of that name. */
  ghost predicate DoneNext(s: seq<StackEntry>, from: seq<nat>, d: nat, name: Name) {
    Places(s, from) && d < |from| && s[from[d]].name == name
  }

  lemma HeadOfQueue(s: seq<StackEntry>, from: seq<nat>, d: nat, queue: seq<Name>)
    requires QueueIs(s, from, d, queue)
    ensures d + |queue| == |from| <= |s|
    ensures |queue| > 0 ==>
              DoneNext(s, from, d, queue[0]) && queue[0] in Names(s) && QueueIs(s, from, d + 1, queue[1..])
  {
    PlacesFit(from, |s|);
  }

  method Release(s: seq<StackEntry>, children: map<Name, seq<Name>>, degrees: map<Name, int>, ready: seq<Name>,
                 name: Name, ghost before: seq<nat>, ghost d: nat)
    returns (inDegree: map<Name, int>, queue: seq<Name>, ghost from: seq<nat>)
    requires ByBase(s, children, |s|) && Working(s, before, degrees, d) && QueueIs(s, before, d + 1, ready)
    requires DoneNext(s, before, d, name) && name in Names(s)
    ensures Extends(before, from) && Working(s, from, inDegree, d + 1) && QueueIs(s, from, d + 1, queue)
  {
    hide ByBase, Working, QueueIs, DoneNext, Extends, Releasing, AreKids, Rest, ChildrenOf, Names, Places;
    inDegree, queue, from := degrees, ready, before;
    var released := ChildrenOf(children, name);
    ghost var kids := KidsOf(s, children, name);
    ReleaseBegins(s, from, inDegree, d, name, kids);
    KnownNames(s, from, inDegree, d);
    ExtendsItself(before);
    for i := 0 to |released|
      invariant Extends(before, from) && Releasing(s, from, inDegree, d + 1, name, Rest(kids, i))
      invariant QueueIs(s, from, d + 1, queue) && inDegree.Keys == Names(s)
    {
      var child := released[i];
      NameKnown(s, kids[i]);
      ghost var more := if inDegree[child] == 1 then from + [kids[i]] else from;
      ReleaseOne(s, from, inDegree, d + 1, name, kids, i, more, inDegree[child := inDegree[child] - 1]);
      ExtendsOn(before, from, more);
      inDegree := inDegree[child := inDegree[child] - 1];
      if inDegree[child] == 0 {
        QueueGrows(s, from, d + 1, queue, kids[i]);
        queue, from := queue + [child], from + [kids[i]];
      }
    }
    ReleaseEnds(s, from, inDegree, d + 1, name, kids);
  }

  lemma KnownNames(s: seq<StackEntry>, from: seq<nat>, inDegree: map<Name, int>, d: nat)
    requires Working(s, from, inDegree, d)
    ensures inDegree.Keys == Names(s)
  {
  }

  ghost predicate Extends(from: seq<nat>, more: seq<nat>) {
    from <= more
  }

  lemma ExtendsItself(from: seq<nat>)
    ensures Extends(from, from)
  {
  }

  lemma ExtendsOn(a: seq<nat>, b: seq<nat>, c: seq<nat>)
    requires Extends(a, b) && Extends(b, c)
    ensures Extends(a, c)
  {
  }

  lemma NameKnown(s: seq<StackEntry>, c: nat)
    requires c < |s|
    ensures s[c].name in Names(s)
  {
  }

  lemma KidsOf(s: seq<StackEntry>, children: map<Name, seq<Name>>, name: Name) returns (kids: seq<nat>)
    requires ByBase(s, children, |s|) && name in Names(s)
    ensures AreKids(s, name, kids) && |ChildrenOf(children, name)| == |kids|
    ensures forall k :: 0 <= k < |kids| ==> kids[k] < |s| && ChildrenOf(children, name)[k] == s[kids[k]].name
  {
    kids := Kids(s, name, |s|);
    KidsAre(s, name, |s|);
    assert Named(s, kids, ChildrenOf(children, name));
    hide Kids, ChildrenOf, ByBase;
  }

  method Prepare(s: seq<StackEntry>)
    returns (entries: map<Name, StackEntry>, children: map<Name, seq<Name>>, inDegree: map<Name, int>,
             queue: seq<Name>, ghost from: seq<nat>)
    ensures ByName(s, entries) && entries.Keys == Names(s) && ByBase(s, children, |s|)
    ensures Working(s, from, inDegree, 0) && QueueIs(s, from, 0, queue)
  {
    var zeros;
    entries, zeros := EntriesByName(s);
    children, inDegree := ChildrenByBase(s, entries, zeros);
    queue, from := Roots(s, inDegree);
    Started(s, from, inDegree);
    assert from[0..] == from;
  }

  /** `sorted` lists the entries found under the names of the first places. */
  ghost predicate Lists(s: seq<StackEntry>, entries: map<Name, StackEntry>, from: seq<nat>, sorted: seq<StackEntry>) {
    && Places(s, from) && |sorted| <= |from|
    && forall k :: 0 <= k < |sorted| ==> s[from[k]].name in entries && sorted[k] == entries[s[from[k]].name]
  }

  lemma ListsMore(s: seq<StackEntry>, entries: map<Name, StackEntry>, from: seq<nat>, sorted: seq<StackEntry>,
                  name: Name)
    requires Lists(s, entries, from, sorted) && DoneNext(s, from, |sorted|, name) && name in entries
    ensures Lists(s, entries, from, sorted + [entries[name]])
  {
  }

  lemma ListsStill(s: seq<StackEntry>, entries: map<Name, StackEntry>, from: seq<nat>, more: seq<nat>,
                   sorted: seq<StackEntry>, d: nat, queue: seq<Name>)
    requires QueueIs(s, more, d, queue) && Extends(from, more) && Lists(s, entries, from, sorted)
    ensures Lists(s, entries, more, sorted)
  {
  }

  lemma ListsShows(s: seq<StackEntry>, entries: map<Name, StackEntry>, from: seq<nat>, sorted: seq<StackEntry>)
    requires ByName(s, entries) && Lists(s, entries, from, sorted) && |sorted| == |from|
    ensures Shows(s, from, sorted)
  {
    hide IsLatest;
  }

  /** Only roots repeat in a stack whose places are all queued. */
  lemma AllQueued(s: seq<StackEntry>, from: seq<nat>, inDegree: map<Name, int>)
    requires Queueing(s, from, inDegree) && |from| == |s|
    ensures OnlyRootsRepeat(s)
  {
    PlacesFit(from, |s|);
    forall i: nat, j: nat | i < j < |s| && s[i].name == s[j].name
      ensures Rooted(s, s[i].name)
    {
      assert i in from && j in from;
      var k :| 0 <= k < |from| && from[k] == i;
      var l :| 0 <= l < |from| && from[l] == j;
      assert k < l || l < k;
    }
  }

  /** The names of what was never queued. */
  ghost function Left(s: seq<StackEntry>, from: seq<nat>): set<Name> {
    set i | 0 <= i < |s| && i !in from :: s[i].name
  }

  lemma LeftIsClosed(s: seq<StackEntry>, from: seq<nat>, inDegree: map<Name, int>, i: nat)
    requires OnlyRootsRepeat(s) && Ready(s, from, inDegree, |from|, {}) && i < |s| && s[i].name in Left(s, from)
    ensures s[i].base in Left(s, from)
  {
    var j: nat :| j < |s| && j !in from && s[j].name == s[i].name;
    assert !IsRoot(s, s[j]);
    if i != j { NamedAlone(s, j, i); }
    BaseLeft(s, from, inDegree, i);
  }

  lemma BaseLeft(s: seq<StackEntry>, from: seq<nat>, inDegree: map<Name, int>, i: nat)
    requires Ready(s, from, inDegree, |from|, {}) && i < |s| && i !in from
    ensures s[i].base in Left(s, from)
  {
    assert s[i].base in Names(s) && !Met(s, from, |from|, s[i].base);
    var j: nat :| j < |s| && s[j].name == s[i].base;
    assert forall k :: 0 <= k < |from| ==> from[k] != j;
    assert j !in from;
  }

  /** What is left when nothing is queued any more is a knot. */
  lemma LeftOver(s: seq<StackEntry>, from: seq<nat>, inDegree: map<Name, int>)
    requires OnlyRootsRepeat(s) && Ready(s, from, inDegree, |from|, {}) && |from| < |s|
    ensures Knot(s, Left(s, from))
  {
    SomethingLeft(s, from);
    hide Left, Names, Ready, OnlyRootsRepeat;
    forall i | 0 <= i < |s| && s[i].name in Left(s, from) ensures s[i].base in Left(s, from) {
      LeftIsClosed(s, from, inDegree, i);
    }
  }

  lemma SomethingLeft(s: seq<StackEntry>, from: seq<nat>)
    requires Places(s, from) && |from| < |s|
    ensures Left(s, from) != {} && Left(s, from) <= Names(s)
  {
    PlacesFit(from, |s|);
    var x: nat :| x < |s| && x !in from;
    assert s[x].name in Left(s, from);
  }

  lemma Settled(s: seq<StackEntry>, entries: map<Name, StackEntry>, from: seq<nat>, inDegree: map<Name, int>,
                sorted: seq<StackEntry>)
    requires ByName(s, entries) && Working(s, from, inDegree, |from|) && Lists(s, entries, from, sorted)
    requires |sorted| == |from|
    ensures |sorted| == |s| <==> OnlyRootsRepeat(s) && !exists k :: Knot(s, k)
    ensures |sorted| == |s| ==> Topological(sorted) && exists f :: Order(s, f) && Shows(s, f, sorted)
  {
    PlacesFit(from, |s|);
    ListsShows(s, entries, from, sorted);
    if |from| == |s| {
      AllQueued(s, from, inDegree);
      ShownTopological(s, from, sorted);
      forall k ensures !Knot(s, k) {
        OrderedHasNoKnot(s, from, k);
      }
    } else if OnlyRootsRepeat(s) {
      LeftOver(s, from, inDegree);
    }
  }

  /** `TopoSort`: it succeeds exactly when there is no cycle and only roots share a name, and then gives the whole
      stack in order, each entry as the last of its name. */
  method TopoSort(s: seq<StackEntry>) returns (ok: bool, sorted: seq<StackEntry>)
    ensures ok <==> OnlyRootsRepeat(s) && !exists k :: Knot(s, k)
    ensures ok ==> Topological(sorted) && exists from :: Order(s, from) && Shows(s, from, sorted)
  {
    hide *;
    var entries, children, inDegree, queue, from := Prepare(s);
    sorted := [];
    HeadOfQueue(s, from, 0, queue);
    ListsNothing(s, entries, from, queue);
    while |queue| > 0
      invariant Working(s, from, inDegree, |sorted|) && Lists(s, entries, from, sorted)
      invariant QueueIs(s, from, |sorted|, queue) && |sorted| + |queue| == |from| <= |s|
      decreases |s| - |sorted|
    {
      var name := queue[0];
      HeadOfQueue(s, from, |sorted|, queue);
      ListsMore(s, entries, from, sorted, name);
      ghost var d, before := |sorted|, from;
      sorted := sorted + [entries[name]];
      assert |sorted| == d + 1;
      inDegree, queue, from := Release(s, children, inDegree, queue[1..], name, from, d);
      HeadOfQueue(s, from, d + 1, queue);
      ListsStill(s, entries, before, from, sorted, d + 1, queue);
    }
    Settled(s, entries, from, inDegree, sorted);
    ok := |sorted| == |s|;
  }

  lemma ListsNothing(s: seq<StackEntry>, entries: map<Name, StackEntry>, from: seq<nat>, queue: seq<Name>)
    requires QueueIs(s, from, 0, queue)
    ensures Lists(s, entries, from, [])
  {
  }

  // ---------- the plan ----------

  /** What the run covers: `scoped` limits it to `names`; a scoped local-only run leaves anchors out. */
  datatype Selection = Selection(scoped: bool, names: set<Name>, localOnly: bool, anchors: set<Name>)

  /** `GetBranch`: the first entry of that name. */
  function Find(s: seq<StackEntry>, name: Name): (r: Option<StackEntry>)
    ensures r.Some? ==> r.value in s && r.value.name == name
    ensures r.None? ==> forall i :: 0 <= i < |s| ==> s[i].name != name
  {
    if |s| == 0 then None else if s[0].name == name then Some(s[0]) else Find(s[1..], name)
  }

  /** `checkoutBaseTokenFor`: an entry of the stack stands for its Git branch, anything else for itself. */
  function BaseToken(stack: seq<StackEntry>, e: StackEntry): Branch {
    match Find(stack, e.base) case Some(parent) => GitBranch(parent) case None => e.base
  }

  predicate Included(e: StackEntry, sel: Selection) {
    && !e.archived && e.base != ""
    && (sel.scoped ==> e.name in sel.names && !(sel.localOnly && e.name in sel.anchors))
  }

  function PlanOf(stack: seq<StackEntry>, order: seq<StackEntry>, sel: Selection): seq<Entry> {
    if |order| == 0 then [] else
      var e := order[|order| - 1];
      PlanOf(stack, order[..|order| - 1], sel)
      + if Included(e, sel) then [Entry(e.name, GitBranch(e), BaseToken(stack, e))] else []
  }

  /** The planned entry is the stack entry's: its name, its Git branch, and the Git branch of the first entry its base
      names, or the base itself if it names none. */
  ghost predicate Stands(stack: seq<StackEntry>, e: StackEntry, p: Entry) {
    && p.name == e.name && p.branch == (if e.branch == "" then e.name else e.branch)
    && ((forall i :: 0 <= i < |stack| ==> stack[i].name != e.base) ==> p.base == e.base)
    && (forall i :: 0 <= i < |stack| && stack[i].name == e.base && (forall j :: 0 <= j < i ==> stack[j].name != e.base)
          ==> p.base == if stack[i].branch == "" then stack[i].name else stack[i].branch)
  }

  /** These places of the order, in order, are those of the entries that are neither archived nor without a base nor
      out of scope. */
  ghost predicate Chosen(order: seq<StackEntry>, sel: Selection, from: seq<nat>) {
    && (forall a, b :: 0 <= a < b < |from| ==> from[a] < from[b])
    && (forall k :: 0 <= k < |from| ==> from[k] < |order|)
    && forall i: nat :: i < |order| ==>
         (i in from <==>
            && !order[i].archived && order[i].base != ""
            && (!sel.scoped || (order[i].name in sel.names && (!sel.localOnly || order[i].name !in sel.anchors))))
  }

  /** The plan has one entry for each of these places. */
  ghost predicate PlansFrom(stack: seq<StackEntry>, order: seq<StackEntry>, plan: seq<Entry>, from: seq<nat>) {
    && |from| == |plan|
    && forall k :: 0 <= k < |from| ==> from[k] < |order| && Stands(stack, order[from[k]], plan[k])
  }

  lemma {:induction false} FindsFirst(s: seq<StackEntry>, name: Name, i: nat)
    requires i < |s| && s[i].name == name && forall j :: 0 <= j < i ==> s[j].name != name
    ensures Find(s, name) == Some(s[i])
  {
    if i > 0 { FindsFirst(s[1..], name, i - 1); }
  }

  lemma TokenStands(stack: seq<StackEntry>, e: StackEntry)
    ensures Stands(stack, e, Entry(e.name, GitBranch(e), BaseToken(stack, e)))
  {
    forall i | 0 <= i < |stack| && stack[i].name == e.base && forall j :: 0 <= j < i ==> stack[j].name != e.base
      ensures Find(stack, e.base) == Some(stack[i])
    {
      FindsFirst(stack, e.base, i);
    }
  }

  lemma ChosenMore(order: seq<StackEntry>, e: StackEntry, sel: Selection, from: seq<nat>)
    requires Chosen(order, sel, from)
    ensures Chosen(order + [e], sel, if Included(e, sel) then from + [|order|] else from)
  {
    var more := from + [|order|];
    assert forall i: nat :: i in more <==> i in from || i == |order|;
    assert forall i: nat :: i in from ==> i < |order|;
    assert forall i: nat :: i < |order| ==> (order + [e])[i] == order[i];
    assert (order + [e])[|order|] == e;
  }

  lemma PlansMore(stack: seq<StackEntry>, order: seq<StackEntry>, e: StackEntry, plan: seq<Entry>, p: Entry,
                  from: seq<nat>)
    requires PlansFrom(stack, order, plan, from) && Stands(stack, e, p)
    ensures PlansFrom(stack, order + [e], plan, from)
    ensures PlansFrom(stack, order + [e], plan + [p], from + [|order|])
  {
    hide Stands;
  }

  lemma {:induction false} PlansExactly(stack: seq<StackEntry>, order: seq<StackEntry>, sel: Selection)
    returns (from: seq<nat>)
    ensures Chosen(order, sel, from) && PlansFrom(stack, order, PlanOf(stack, order, sel), from)
  {
    hide Chosen, PlansFrom, Stands, Included, BaseToken;
    if |order| == 0 {
      from := [];
      NothingPlanned(stack, sel);
      assert order == [];
    } else {
      var n := |order| - 1;
      var e := order[n];
      from := PlansExactly(stack, order[..n], sel);
      TokenStands(stack, e);
      ChosenMore(order[..n], e, sel, from);
      PlansMore(stack, order[..n], e, PlanOf(stack, order[..n], sel), Entry(e.name, GitBranch(e), BaseToken(stack, e)),
                from);
      assert order == order[..n] + [e];
      if Included(e, sel) {
        from := from + [n];
      } else {
        assert PlanOf(stack, order, sel) == PlanOf(stack, order[..n], sel);
      }
    }
  }

  lemma NothingPlanned(stack: seq<StackEntry>, sel: Selection)
    ensures Chosen([], sel, []) && PlansFrom(stack, [], PlanOf(stack, [], sel), [])
  {
  }

  /** `buildCheckoutPlanFrom`: the plan and the commits its bases resolve to, or nothing when a base
      or a branch does not resolve. */
  method BuildCheckoutPlan(refs: map<Branch, Commit>, stack: seq<StackEntry>, order: seq<StackEntry>, sel: Selection)
    returns (ok: bool, plan: seq<Entry>, newBase: seq<Commit>)
    ensures ok <==> forall k :: 0 <= k < |PlanOf(stack, order, sel)| ==>
              PlanOf(stack, order, sel)[k].base in refs && PlanOf(stack, order, sel)[k].branch in refs
    ensures ok ==> plan == PlanOf(stack, order, sel) && |newBase| == |plan|
    ensures ok ==> exists from :: Chosen(order, sel, from) && PlansFrom(stack, order, plan, from)
    ensures ok ==> forall k :: 0 <= k < |plan| ==> newBase[k] == refs[plan[k].base]
  {
    plan, newBase := [], [];
    for i := 0 to |order|
      invariant plan == PlanOf(stack, order[..i], sel) && |newBase| == |plan|
      invariant forall k :: 0 <= k < |plan| ==>
        plan[k].base in refs && plan[k].branch in refs && newBase[k] == refs[plan[k].base]
    {
      var e := order[i];
      assert order[..i + 1][..i] == order[..i];
      PlanGrows(stack, order, sel, i + 1);
      if !e.archived && (!sel.scoped || e.name in sel.names)
         && !(sel.scoped && sel.localOnly && e.name in sel.anchors) && e.base != "" {
        var base := BaseToken(stack, e);
        if base !in refs || GitBranch(e) !in refs {
          assert PlanOf(stack, order[..i + 1], sel)[|plan|] == Entry(e.name, GitBranch(e), base);
          return false, [], [];
        }
        plan := plan + [Entry(e.name, GitBranch(e), base)];
        newBase := newBase + [refs[base]];
      }
    }
    assert order[..|order|] == order;
    ghost var from := PlansExactly(stack, order, sel);
    ok := true;
  }

  /** The plan of a prefix is a prefix of the plan. */
  lemma {:induction false} PlanGrows(stack: seq<StackEntry>, order: seq<StackEntry>, sel: Selection, i: nat)
    requires i <= |order|
    ensures PlanOf(stack, order[..i], sel) <= PlanOf(stack, order, sel)
    decreases |order|
  {
    if i < |order| {
      assert order[..|order| - 1][..i] == order[..i];
      PlanGrows(stack, order[..|order| - 1], sel, i);
    } else {
      assert order[..i] == order;
    }
  }

  /** Where an included entry lands. */
  lemma Lands(stack: seq<StackEntry>, order: seq<StackEntry>, sel: Selection, i: nat) returns (k: nat)
    requires i < |order| && Included(order[i], sel)
    ensures k == |PlanOf(stack, order[..i], sel)| < |PlanOf(stack, order, sel)|
    ensures PlanOf(stack, order, sel)[k]
            == Entry(order[i].name, GitBranch(order[i]), BaseToken(stack, order[i]))
  {
    k := |PlanOf(stack, order[..i], sel)|;
    assert order[..i + 1][..i] == order[..i];
    PlanGrows(stack, order, sel, i + 1);
  }

  /** Where a planned entry comes from. */
  lemma {:induction false} ComesFrom(stack: seq<StackEntry>, order: seq<StackEntry>, sel: Selection, k: nat)
    returns (i: nat)
    requires k < |PlanOf(stack, order, sel)|
    ensures i < |order| && Included(order[i], sel) && k == |PlanOf(stack, order[..i], sel)|
    ensures PlanOf(stack, order, sel)[k] == Entry(order[i].name, GitBranch(order[i]), BaseToken(stack, order[i]))
    decreases |order|
  {
    var n := |order| - 1;
    if k < |PlanOf(stack, order[..n], sel)| {
      i := ComesFrom(stack, order[..n], sel, k);
      assert order[..n][..i] == order[..i];
    } else {
      i := n;
    }
  }

  lemma {:induction false} PlanMonotone(stack: seq<StackEntry>, order: seq<StackEntry>, sel: Selection, i: nat, j: nat)
    requires i <= j <= |order|
    ensures |PlanOf(stack, order[..i], sel)| <= |PlanOf(stack, order[..j], sel)|
  {
    assert order[..j][..i] == order[..i];
    PlanGrows(stack, order[..j], sel, i);
  }

  ghost predicate DistinctBranches(s: seq<StackEntry>) {
    forall i, j :: 0 <= i < j < |s| ==> GitBranch(s[i]) != GitBranch(s[j])
  }

  /** An included entry's literal base is the Git branch of itself or of a later included entry.
      The order does not see such a base, since it is no entry's name. */
  ghost predicate LiteralAlias(order: seq<StackEntry>, sel: Selection, i: int, j: int) {
    && 0 <= i <= j < |order| && Included(order[i], sel) && Included(order[j], sel)
    && Find(order, order[i].base).None? && order[i].base == GitBranch(order[j])
  }

  /** A plan built from an ordered stack has every base before its entry exactly when no literal base
      hides a dependency. */
  lemma PlanOrderExact(order: seq<StackEntry>, sel: Selection)
    requires DistinctNames(order) && DistinctBranches(order) && Topological(order)
    ensures WellOrdered(PlanOf(order, order, sel)) <==> !exists i, j :: LiteralAlias(order, sel, i, j)
  {
    var plan := PlanOf(order, order, sel);
    if exists i, j :: LiteralAlias(order, sel, i, j) {
      var i, j :| LiteralAlias(order, sel, i, j);
      var a := Lands(order, order, sel, i);
      var b := Lands(order, order, sel, j);
      PlanMonotone(order, order, sel, i, j);
      assert plan[a].base == plan[b].branch;
    } else {
      forall a: nat, b: nat | a < b < |plan|
        ensures plan[a].name != plan[b].name && plan[a].branch != plan[b].branch
      {
        PlannedDistinct(order, sel, a, b);
      }
      forall a: nat, b: nat | a <= b < |plan|
        ensures plan[a].base != plan[b].branch
      {
        BaseComesFirst(order, sel, a, b);
      }
    }
  }

  lemma PlannedDistinct(order: seq<StackEntry>, sel: Selection, a: nat, b: nat)
    requires DistinctNames(order) && DistinctBranches(order)
    requires a < b < |PlanOf(order, order, sel)|
    ensures var plan := PlanOf(order, order, sel); plan[a].name != plan[b].name && plan[a].branch != plan[b].branch
  {
    var i := ComesFrom(order, order, sel, a);
    var j := ComesFrom(order, order, sel, b);
    if i < j {
    } else if j < i {
    }
  }

  lemma BaseComesFirst(order: seq<StackEntry>, sel: Selection, a: nat, b: nat)
    requires DistinctBranches(order) && Topological(order)
    requires a <= b < |PlanOf(order, order, sel)|
    requires !exists i, j :: LiteralAlias(order, sel, i, j)
    ensures PlanOf(order, order, sel)[a].base != PlanOf(order, order, sel)[b].branch
  {
    var i := ComesFrom(order, order, sel, a);
    var j := ComesFrom(order, order, sel, b);
    if j < i { PlanMonotone(order, order, sel, j + 1, i); LandsBefore(order, sel, j); }
    assert i <= j;
    assert !LiteralAlias(order, sel, i, j);
    var parent := Find(order, order[i].base);
    if parent.Some? {
      var p: nat :| p < |order| && order[p] == parent.value;
      assert p < i <= j;
    }
  }

  lemma LandsBefore(order: seq<StackEntry>, sel: Selection, j: nat)
    requires j < |order| && Included(order[j], sel)
    ensures |PlanOf(order, order[..j + 1], sel)| == |PlanOf(order, order[..j], sel)| + 1
  {
    assert order[..j + 1][..j] == order[..j];
  }

  /** Such a stack exists: it orders without complaint, with the child before its base. */
  lemma LiteralAliasExists() returns (order: seq<StackEntry>)
    ensures DistinctNames(order) && DistinctBranches(order) && Topological(order)
    ensures !WellOrdered(PlanOf(order, order, Selection(false, {}, false, {})))
  {
    order := [StackEntry("child", "", "feat/parent", false), StackEntry("parent", "feat/parent", "main", false)];
    assert order[1..][1..] == [];
    assert Find(order[1..], "feat/parent") == None;
    assert LiteralAlias(order, Selection(false, {}, false, {}), 0, 1);
    PlanOrderExact(order, Selection(false, {}, false, {}));
  }
}
