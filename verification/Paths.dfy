/** Slash-separated absolute paths: cleaning, joining and relating them, as the program's path library does. */
module Paths {
  import opened Options
  import opened Strings

  const SEP: char := '/'

  predicate IsAbs(s: string) { |s| > 0 && s[0] == SEP }

  function Split(s: string): (r: seq<string>)
    ensures |r| > 0 && forall i :: 0 <= i < |r| ==> SEP !in r[i]
  {
    SplitAt(s, SEP)
  }

  function JoinParts(parts: seq<string>): string {
    JoinWith(parts, SEP)
  }

  lemma SplitConcat(a: string, b: string)
    ensures Split(a + [SEP] + b) == Split(a) + Split(b)
  {
    SplitAppend(a, b, SEP);
  }

  lemma SplitPlain(a: string)
    requires SEP !in a
    ensures Split(a) == [a]
  {
    SplitUnbroken(a, SEP);
  }

  lemma SplitJoin(parts: seq<string>)
    requires |parts| > 0 && forall i :: 0 <= i < |parts| ==> SEP !in parts[i]
    ensures Split(JoinParts(parts)) == parts
  {
    SplitOfJoin(parts, SEP);
  }

  // ---------- cleaning ----------

  /** A name a cleaned path may contain. */
  predicate Plain(c: string) {
    c != "" && c != "." && c != ".." && SEP !in c
  }

  predicate AllPlain(cs: seq<string>) {
    forall i :: 0 <= i < |cs| ==> Plain(cs[i])
  }

  /** One part read from directory `at`: nothing, up one level, or down by a name.  There is nothing above
      the root. */
  function Enter(at: seq<string>, part: string): seq<string> {
    if part == "" || part == "." then at
    else if part == ".." then (if |at| == 0 then at else at[..|at| - 1])
    else at + [part]
  }

  function Walk(at: seq<string>, parts: seq<string>): seq<string>
    decreases |parts|
  {
    if |parts| == 0 then at else Walk(Enter(at, parts[0]), parts[1..])
  }

  function Render(cs: seq<string>): string {
    [SEP] + JoinParts(cs)
  }

  /** The names of an absolute path once cleaned. */
  function Names(s: string): seq<string> {
    Walk([], Split(s))
  }

  /** `filepath.Clean` of an absolute path. */
  function Clean(s: string): string
    requires IsAbs(s)
  {
    Render(Names(s))
  }

  predicate IsClean(s: string) {
    IsAbs(s) && Clean(s) == s
  }

  lemma {:induction false} WalkPlain(at: seq<string>, parts: seq<string>)
    requires AllPlain(at) && forall i :: 0 <= i < |parts| ==> SEP !in parts[i]
    ensures AllPlain(Walk(at, parts))
    decreases |parts|
  {
    if |parts| > 0 { WalkPlain(Enter(at, parts[0]), parts[1..]); }
  }

  lemma {:induction false} WalkConcat(at: seq<string>, a: seq<string>, b: seq<string>)
    ensures Walk(at, a + b) == Walk(Walk(at, a), b)
    decreases |a|
  {
    if |a| == 0 {
      assert a + b == b;
    } else {
      assert (a + b)[1..] == a[1..] + b;
      WalkConcat(Enter(at, a[0]), a[1..], b);
    }
  }

  lemma {:induction false} WalkNames(at: seq<string>, cs: seq<string>)
    requires AllPlain(cs)
    ensures Walk(at, cs) == at + cs
    decreases |cs|
  {
    if |cs| > 0 {
      WalkNames(at + [cs[0]], cs[1..]);
      assert at + cs == at + [cs[0]] + cs[1..];
    } else {
      assert at + cs == at;
    }
  }

  /** Cleaned names are the names of the cleaned path. */
  lemma NamesOfRender(cs: seq<string>)
    requires AllPlain(cs)
    ensures IsAbs(Render(cs)) && Names(Render(cs)) == cs && IsClean(Render(cs))
  {
    SplitConcat("", JoinParts(cs));
    assert "" + [SEP] + JoinParts(cs) == Render(cs);
    if |cs| > 0 {
      SplitJoin(cs);
      assert Split(Render(cs)) == [""] + cs;
    } else {
      assert Split(Render(cs)) == ["", ""];
    }
    WalkNames([], cs);
    assert [] + cs == cs;
  }

  lemma CleanIsClean(s: string)
    requires IsAbs(s)
    ensures AllPlain(Names(s)) && IsClean(Clean(s)) && Names(Clean(s)) == Names(s)
  {
    WalkPlain([], Split(s));
    NamesOfRender(Names(s));
  }

  // ---------- joining and relating ----------

  /** `filepath.Join` of an absolute path and a non-empty one. */
  function Join(base: string, value: string): string
    requires IsAbs(base)
  {
    Clean(base + [SEP] + value)
  }

  lemma JoinNames(base: string, value: string)
    requires IsAbs(base)
    ensures Names(base + [SEP] + value) == Walk(Names(base), Split(value))
    ensures IsClean(Join(base, value)) && Names(Join(base, value)) == Walk(Names(base), Split(value))
  {
    SplitConcat(base, value);
    WalkConcat([], Split(base), Split(value));
    CleanIsClean(base + [SEP] + value);
  }

  function CommonLength(a: seq<string>, b: seq<string>): (k: nat)
    ensures k <= |a| && k <= |b| && a[..k] == b[..k]
    ensures k < |a| && k < |b| ==> a[k] != b[k]
  {
    if |a| == 0 || |b| == 0 || a[0] != b[0] then 0 else
      var k := CommonLength(a[1..], b[1..]);
      assert a[..k + 1] == [a[0]] + a[1..][..k] && b[..k + 1] == [b[0]] + b[1..][..k];
      k + 1
  }

  function Ups(n: nat): (r: seq<string>)
    ensures |r| == n && forall i :: 0 <= i < n ==> r[i] == ".."
  {
    if n == 0 then [] else [".."] + Ups(n - 1)
  }

  /** The parts that lead from one directory to another. */
  function RelParts(b: seq<string>, t: seq<string>): seq<string> {
    var k := CommonLength(b, t);
    Ups(|b| - k) + t[k..]
  }

  /** `filepath.Rel` between absolute paths. */
  function Rel(base: string, target: string): string {
    var parts := RelParts(Names(base), Names(target));
    if |parts| == 0 then "." else JoinParts(parts)
  }

  lemma {:induction false} WalkUps(at: seq<string>, n: nat)
    requires n <= |at|
    ensures Walk(at, Ups(n)) == at[..|at| - n]
  {
    if n > 0 {
      assert Ups(n)[1..] == Ups(n - 1);
      WalkUps(at[..|at| - 1], n - 1);
      assert at[..|at| - 1][..|at| - n] == at[..|at| - n];
    } else {
      assert at[..|at|] == at;
    }
  }

  lemma RelPartsLead(b: seq<string>, t: seq<string>)
    requires AllPlain(t)
    ensures Walk(b, RelParts(b, t)) == t
  {
    var k := CommonLength(b, t);
    WalkConcat(b, Ups(|b| - k), t[k..]);
    WalkUps(b, |b| - k);
    WalkNames(b[..k], t[k..]);
    assert t[..k] + t[k..] == t;
  }

  lemma RelSplits(base: string, target: string)
    requires IsAbs(target)
    ensures var parts := RelParts(Names(base), Names(target));
            Split(Rel(base, target)) == if |parts| == 0 then ["."] else parts
  {
    var parts := RelParts(Names(base), Names(target));
    CleanIsClean(target);
    if |parts| > 0 {
      SplitJoin(parts);
    } else {
      SplitPlain(".");
    }
  }

  /** Joining a base with the way from it to a target gives the target. */
  lemma JoinRel(base: string, target: string)
    requires IsAbs(base) && IsClean(target)
    ensures Join(base, Rel(base, target)) == target
  {
    var parts := RelParts(Names(base), Names(target));
    CleanIsClean(target);
    JoinNames(base, Rel(base, target));
    RelSplits(base, target);
    RelPartsLead(Names(base), Names(target));
  }

  /** The way between two directories is relative and never empty. */
  lemma RelIsRelative(base: string, target: string)
    requires IsAbs(target)
    ensures Rel(base, target) != "" && !IsAbs(Rel(base, target))
  {
    var parts := RelParts(Names(base), Names(target));
    CleanIsClean(target);
    if |parts| > 0 {
      assert parts[0] != "" && SEP !in parts[0];
      assert JoinParts(parts)[0] == parts[0][0];
      assert parts[0][0] in parts[0];
    }
  }

  // ---------- containment ----------

  /** `featureRenameInside`: the way from `root` to `path` does not start by going up. */
  predicate Inside(root: string, path: string) {
    var rel := Rel(root, path);
    rel != ".." && !("../" <= rel)
  }

  /** A path is inside a directory exactly when the directory's names begin the path's. */
  lemma InsideExact(root: string, path: string)
    requires IsAbs(root) && IsAbs(path)
    ensures Inside(root, path) <==> Names(root) <= Names(path)
  {
    var b, t := Names(root), Names(path);
    var k := CommonLength(b, t);
    var parts := RelParts(b, t);
    CleanIsClean(path);
    if k < |b| {
      assert parts[0] == "..";
      if |parts| > 1 {
        assert JoinParts(parts) == ".." + [SEP] + JoinParts(parts[1..]);
        assert JoinParts(parts)[..3] == "../";
      }
    } else {
      assert b == t[..k];
      if |parts| > 0 {
        assert parts == t[k..] && Plain(parts[0]);
        NotUp(parts);
      }
    }
  }

  lemma NotUp(parts: seq<string>)
    requires |parts| > 0 && forall i :: 0 <= i < |parts| ==> SEP !in parts[i]
    requires parts[0] != ".."
    ensures JoinParts(parts) != ".." && !("../" <= JoinParts(parts))
  {
    SplitJoin(parts);
    UpHead(JoinParts(parts));
  }

  lemma UpHead(s: string)
    ensures s == ".." || "../" <= s ==> Split(s)[0] == ".."
  {
    SplitPlain("..");
    if "../" <= s {
      assert s == ".." + [SEP] + s[3..];
      SplitConcat("..", s[3..]);
    }
  }
}
