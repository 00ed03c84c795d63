/** Resolving a root spelling to its physical directory, and checking raw Git paths against it. */
module RootResolution {
  import opened Options
  import opened Paths

  /** A physical place: the names below the root directory. */
  type Place = seq<string>

  datatype Node = Dir | Link(target: string) | Other

  /** Everything there is, by place, except the root directory itself. */
  type Tree = map<Place, Node>

  function Up(p: Place): Place {
    if |p| == 0 then p else p[..|p| - 1]
  }

  function StartAt(at: Place, value: string): Place {
    if IsAbs(value) then [] else at
  }

  // ---------- pathname resolution ----------

  /** Pathname resolution as POSIX has it: a symbolic link met on the way is resolved from the directory that
      holds it, or from the root, and the rest of the path is read from there.  `n` bounds the links
      followed; the result tells how many were left. */
  function Posix(t: Tree, at: Place, parts: seq<string>, n: nat): (r: Option<(Place, nat)>)
    ensures r.Some? ==> r.value.1 <= n
    decreases n, |parts|
  {
    if |parts| == 0 then Some((at, n))
    else if parts[0] == "" || parts[0] == "." then Posix(t, at, parts[1..], n)
    else if parts[0] == ".." then Posix(t, Up(at), parts[1..], n)
    else
      var p := at + [parts[0]];
      if p !in t || t[p].Other? then None
      else if t[p].Dir? then Posix(t, p, parts[1..], n)
      else if n == 0 then None
      else
        match Posix(t, StartAt(at, t[p].target), Split(t[p].target), n - 1)
        case None => None
        case Some((d, m)) => Posix(t, d, parts[1..], m)
  }

  /** The rules of resolution, one for each kind of part: an empty part and `.` stay, `..` goes to the directory that
      holds this one and the root holds itself, a name enters a directory, nothing else is passed but a link, and a
      link's target is read in front of what is left, from the root directory if it is absolute and from the
      directory that holds the link if it is not. */
  lemma ResolutionRules(t: Tree, at: Place, part: string, rest: seq<string>, n: nat)
    ensures Posix(t, at, [], n) == Some((at, n))
    ensures part == "" || part == "." ==> Posix(t, at, [part] + rest, n) == Posix(t, at, rest, n)
    ensures Posix(t, [], [".."] + rest, n) == Posix(t, [], rest, n)
    ensures Posix(t, at + [part], [".."] + rest, n) == Posix(t, at, rest, n)
    ensures part != "" && part != "." && part != ".." ==>
              var p := at + [part];
              && (p !in t || t[p] == Other ==> Posix(t, at, [part] + rest, n).None?)
              && (p in t && t[p] == Dir ==> Posix(t, at, [part] + rest, n) == Posix(t, p, rest, n))
              && (p in t && t[p].Link? ==> Posix(t, at, [part] + rest, 0).None?)
              && (p in t && t[p].Link? && |t[p].target| > 0 && t[p].target[0] == '/' ==>
                    Posix(t, at, [part] + rest, n + 1) == Posix(t, [], Split(t[p].target) + rest, n))
              && (p in t && t[p].Link? && (|t[p].target| == 0 || t[p].target[0] != '/') ==>
                    Posix(t, at, [part] + rest, n + 1) == Posix(t, at, Split(t[p].target) + rest, n))
  {
    PosixRead(t, at, part, rest, n);
    PosixRead(t, at, part, rest, 0);
    PosixRead(t, [], "..", rest, n);
    PosixRead(t, at + [part], "..", rest, n);
    assert Up(at + [part]) == at;
    if part != "" && part != "." && part != ".." && at + [part] in t && t[at + [part]].Link? {
      Splice(t, at, part, rest, n + 1);
    }
  }

  /** Where there are no links, reading a path is cleaning it. */
  lemma {:induction false} PosixIsLexical(t: Tree, at: Place, parts: seq<string>, n: nat)
    requires (forall p :: p in t ==> !t[p].Link?) && Posix(t, at, parts, n).Some?
    ensures Posix(t, at, parts, n) == Some((Walk(at, parts), n))
    decreases |parts|
  {
    if |parts| > 0 { PosixIsLexical(t, Enter(at, parts[0]), parts[1..], n); }
  }

  /** No part of the way to the place is a symbolic link. */
  ghost predicate Physical(t: Tree, p: Place) {
    forall k :: 0 < k <= |p| ==> p[..k] in t && t[p[..k]].Dir?
  }

  lemma PhysicalSteps(t: Tree, p: Place)
    requires Physical(t, p)
    ensures Physical(t, Up(p))
    ensures forall name: string :: p + [name] in t && t[p + [name]].Dir? ==> Physical(t, p + [name])
  {
    forall k | 0 < k <= |Up(p)| ensures Up(p)[..k] in t && t[Up(p)[..k]].Dir? {
      assert Up(p)[..k] == p[..k];
    }
    forall name: string | p + [name] in t && t[p + [name]].Dir?
      ensures Physical(t, p + [name])
    {
      forall k | 0 < k <= |p| + 1 ensures (p + [name])[..k] in t && t[(p + [name])[..k]].Dir? {
        assert k <= |p| ==> (p + [name])[..k] == p[..k];
        assert k == |p| + 1 ==> (p + [name])[..k] == p + [name];
      }
    }
  }

  /** Resolution ends at a physical place. */
  lemma {:induction false} PosixPhysical(t: Tree, at: Place, parts: seq<string>, n: nat)
    requires Physical(t, at) && Posix(t, at, parts, n).Some?
    ensures Physical(t, Posix(t, at, parts, n).value.0)
    decreases n, |parts|
  {
    if |parts| > 0 {
      PhysicalSteps(t, at);
      if parts[0] == "" || parts[0] == "." {
        PosixPhysical(t, at, parts[1..], n);
      } else if parts[0] == ".." {
        PosixPhysical(t, Up(at), parts[1..], n);
      } else {
        var p := at + [parts[0]];
        if t[p].Dir? {
          PosixPhysical(t, p, parts[1..], n);
        } else {
          PosixPhysical(t, StartAt(at, t[p].target), Split(t[p].target), n - 1);
          var (d, m) := Posix(t, StartAt(at, t[p].target), Split(t[p].target), n - 1).value;
          PosixPhysical(t, d, parts[1..], m);
        }
      }
    }
  }

  /** Reading a path in two stretches. */
  lemma {:induction false} PosixConcat(t: Tree, at: Place, a: seq<string>, b: seq<string>, n: nat)
    ensures Posix(t, at, a + b, n)
            == match Posix(t, at, a, n) case None => None case Some((d, m)) => Posix(t, d, b, m)
    decreases n, |a|
  {
    if |a| == 0 {
      assert a + b == b;
    } else {
      assert (a + b)[0] == a[0] && (a + b)[1..] == a[1..] + b;
      var p := at + [a[0]];
      if a[0] == "" || a[0] == "." {
        PosixConcat(t, at, a[1..], b, n);
      } else if a[0] == ".." {
        PosixConcat(t, Up(at), a[1..], b, n);
      } else if p in t && t[p].Dir? {
        PosixConcat(t, p, a[1..], b, n);
      } else if p in t && t[p].Link? && n > 0 {
        var inner := Posix(t, StartAt(at, t[p].target), Split(t[p].target), n - 1);
        if inner.Some? { PosixConcat(t, inner.value.0, a[1..], b, inner.value.1); }
      }
    }
  }

  /** A larger allowance changes nothing but what is left of it. */
  lemma {:induction false} PosixMonotone(t: Tree, at: Place, parts: seq<string>, n: nat, more: nat)
    requires Posix(t, at, parts, n).Some?
    ensures var (d, m) := Posix(t, at, parts, n).value; Posix(t, at, parts, n + more) == Some((d, m + more))
    decreases n, |parts|
  {
    if |parts| > 0 {
      var p := at + [parts[0]];
      if parts[0] == "" || parts[0] == "." {
        PosixMonotone(t, at, parts[1..], n, more);
      } else if parts[0] == ".." {
        PosixMonotone(t, Up(at), parts[1..], n, more);
      } else if t[p].Dir? {
        PosixMonotone(t, p, parts[1..], n, more);
      } else {
        var at' := StartAt(at, t[p].target);
        PosixMonotone(t, at', Split(t[p].target), n - 1, more);
        var (d, m) := Posix(t, at', Split(t[p].target), n - 1).value;
        PosixMonotone(t, d, parts[1..], m, more);
      }
    }
  }

  /** Two allowances that both suffice lead to the same place. */
  lemma PosixAgree(t: Tree, at: Place, parts: seq<string>, a: nat, b: nat)
    requires Posix(t, at, parts, a).Some? && Posix(t, at, parts, b).Some?
    ensures Posix(t, at, parts, a).value.0 == Posix(t, at, parts, b).value.0
  {
    if a <= b { PosixMonotone(t, at, parts, a, b - a); } else { PosixMonotone(t, at, parts, b, a - b); }
  }

  /** A physical place resolves to itself without following anything. */
  lemma {:induction false} PhysicalResolves(t: Tree, at: Place, names: seq<string>, n: nat)
    requires Physical(t, at + names) && AllPlain(names)
    ensures Posix(t, at, names, n) == Some((at + names, n))
    decreases |names|
  {
    if |names| > 0 {
      assert (at + names)[..|at| + 1] == at + [names[0]];
      assert at + names == at + [names[0]] + names[1..];
      PhysicalResolves(t, at + [names[0]], names[1..], n);
    } else {
      assert at + names == at;
    }
  }

  // ---------- the resolving loop ----------

  const FOLLOW_LIMIT: nat := 40
  const EVAL_LIMIT: nat := 255

  /** A link met on the way: where it is, what it says and where it leads. */
  datatype RootLink = RootLink(path: Place, target: string, resolved: Place)

  datatype Resolution = Resolution(dir: Place, links: seq<RootLink>)

  /** The path library's own evaluation of the link at `p`. */
  function EvalSymlinks(t: Tree, p: Place): Option<Place>
    requires |p| > 0
  {
    match Posix(t, Up(p), [p[|p| - 1]], EVAL_LIMIT) case None => None case Some((d, _)) => Some(d)
  }

  /** The place at `p` resolves to `d` following at most `n` links. */
  ghost predicate LeadsWithin(t: Tree, p: Place, d: Place, n: nat) {
    |p| > 0 && Posix(t, Up(p), [p[|p| - 1]], n).Some? && Posix(t, Up(p), [p[|p| - 1]], n).value.0 == d
  }

  ghost predicate Leads(t: Tree, p: Place, d: Place) {
    exists n: nat :: LeadsWithin(t, p, d, n)
  }

  ghost predicate Recorded(t: Tree, links: seq<RootLink>) {
    forall i :: 0 <= i < |links| ==>
      links[i].path in t && t[links[i].path] == Link(links[i].target) && Leads(t, links[i].path, links[i].resolved)
  }

  /** Reading one part that is no link. */
  lemma PosixRead(t: Tree, at: Place, part: string, rest: seq<string>, n: nat)
    ensures part == "" || part == "." ==> Posix(t, at, [part] + rest, n) == Posix(t, at, rest, n)
    ensures part == ".." ==> Posix(t, at, [part] + rest, n) == Posix(t, Up(at), rest, n)
    ensures part != "" && part != "." && part != ".." ==>
              var p := at + [part];
              && (p !in t || t[p].Other? ==> Posix(t, at, [part] + rest, n).None?)
              && (p in t && t[p].Dir? ==> Posix(t, at, [part] + rest, n) == Posix(t, p, rest, n))
              && (p in t && t[p].Link? && n == 0 ==> Posix(t, at, [part] + rest, n).None?)
  {
    assert ([part] + rest)[0] == part && ([part] + rest)[1..] == rest;
  }

  /** Following a link splices its target in front of what is left. */
  lemma Splice(t: Tree, at: Place, part: string, rest: seq<string>, n: nat)
    requires part != "" && part != "." && part != ".." && at + [part] in t && t[at + [part]].Link? && n > 0
    ensures var target := t[at + [part]].target;
            Posix(t, at, [part] + rest, n) == Posix(t, StartAt(at, target), Split(target) + rest, n - 1)
  {
    var target := t[at + [part]].target;
    assert ([part] + rest)[1..] == rest;
    PosixConcat(t, StartAt(at, target), Split(target), rest, n - 1);
  }

  /** A link the path library cannot evaluate cannot be passed. */
  lemma EvalDecides(t: Tree, at: Place, part: string, rest: seq<string>, n: nat)
    requires n <= EVAL_LIMIT && Posix(t, at, [part] + rest, n).Some?
    ensures EvalSymlinks(t, at + [part]).Some?
  {
    PosixConcat(t, at, [part], rest, n);
    PosixMonotone(t, at, [part], n, EVAL_LIMIT - n);
    assert Up(at + [part]) == at;
  }

  // ---------- the raw component walk ----------

  predicate UnderAny(roots: seq<Place>, p: Place) {
    exists i :: 0 <= i < |roots| && roots[i] <= p
  }

  /** Where the recorded links say the link at `p` leads; the last record counts. */
  function Lookup(links: seq<RootLink>, p: Place): Option<Place> {
    if |links| == 0 then None
    else if links[|links| - 1].path == p then Some(links[|links| - 1].resolved)
    else Lookup(links[..|links| - 1], p)
  }

  /** One part of an inspected raw path: a link must be on record, everything else a directory, and no place
      on the way inside a moving directory. */
  function RawEnter(t: Tree, at: Place, part: string, links: seq<RootLink>, roots: seq<Place>): Option<Place> {
    if part == "" || part == "." then Some(at)
    else if part == ".." then Some(Up(at))
    else
      var p := at + [part];
      if UnderAny(roots, p) || p !in t then None
      else
        match Lookup(links, p)
        case None => if t[p].Dir? then Some(p) else None
        case Some(d) => if t[p].Other? || UnderAny(roots, d) then None else Some(d)
  }

  function RawBinding(t: Tree, at: Place, parts: seq<string>, links: seq<RootLink>, roots: seq<Place>): Option<Place>
    decreases |parts|
  {
    if |parts| == 0 then Some(at) else
      match RawEnter(t, at, parts[0], links, roots)
      case None => None
      case Some(p) => RawBinding(t, p, parts[1..], links, roots)
  }

  lemma {:induction false} RawSnoc(t: Tree, at: Place, parts: seq<string>, part: string, links: seq<RootLink>,
                                   roots: seq<Place>)
    ensures RawBinding(t, at, parts + [part], links, roots)
            == match RawBinding(t, at, parts, links, roots)
               case None => None
               case Some(p) => RawEnter(t, p, part, links, roots)
    decreases |parts|
  {
    if |parts| == 0 {
      assert parts + [part] == [part] && [part][1..] == [];
    } else {
      assert (parts + [part])[0] == parts[0] && (parts + [part])[1..] == parts[1..] + [part];
      var next := RawEnter(t, at, parts[0], links, roots);
      if next.Some? { RawSnoc(t, next.value, parts[1..], part, links, roots); }
    }
  }

  lemma {:induction false} RawStops(t: Tree, at: Place, parts: seq<string>, k: nat, links: seq<RootLink>,
                                    roots: seq<Place>)
    requires k <= |parts| && RawBinding(t, at, parts[..k], links, roots).None?
    ensures RawBinding(t, at, parts, links, roots).None?
    decreases |parts| - k
  {
    if k == |parts| {
      assert parts[..k] == parts;
    } else {
      assert parts[..k + 1] == parts[..k] + [parts[k]];
      RawSnoc(t, at, parts[..k], parts[k], links, roots);
      RawStops(t, at, parts, k + 1, links, roots);
    }
  }

  lemma {:induction false} LookupRecorded(t: Tree, links: seq<RootLink>, p: Place)
    requires Recorded(t, links) && Lookup(links, p).Some?
    ensures p in t && t[p].Link? && Leads(t, p, Lookup(links, p).value)
  {
    if links[|links| - 1].path != p {
      LookupRecorded(t, links[..|links| - 1], p);
    }
  }

  /** The last record of a place is the one that counts. */
  lemma {:induction false} LookupLast(links: seq<RootLink>, p: Place, i: nat)
    requires i < |links| && links[i].path == p && forall j :: i < j < |links| ==> links[j].path != p
    ensures Lookup(links, p) == Some(links[i].resolved)
  {
    if i < |links| - 1 { LookupLast(links[..|links| - 1], p, i); }
  }

  lemma {:induction false} LookupNone(links: seq<RootLink>, p: Place)
    requires forall i :: 0 <= i < |links| ==> links[i].path != p
    ensures Lookup(links, p).None?
  {
    if |links| > 0 { LookupNone(links[..|links| - 1], p); }
  }

  lemma {:induction false} LookupFinds(links: seq<RootLink>, p: Place, i: nat)
    requires i < |links| && links[i].path == p
    ensures Lookup(links, p).Some?
  {
    if i < |links| - 1 { LookupFinds(links[..|links| - 1], p, i); }
  }

  /** The rules of the raw walk: like resolution, except that a link is passed only by its record, and that a name or
      a recorded link leading into a moving directory is refused. */
  lemma RawRules(t: Tree, at: Place, part: string, rest: seq<string>, links: seq<RootLink>, roots: seq<Place>)
    ensures RawBinding(t, at, [], links, roots) == Some(at)
    ensures part == "" || part == "." ==> RawBinding(t, at, [part] + rest, links, roots)
                                          == RawBinding(t, at, rest, links, roots)
    ensures RawBinding(t, [], [".."] + rest, links, roots) == RawBinding(t, [], rest, links, roots)
    ensures RawBinding(t, at + [part], [".."] + rest, links, roots) == RawBinding(t, at, rest, links, roots)
    ensures part != "" && part != "." && part != ".." ==>
              var p, r := at + [part], RawBinding(t, at, [part] + rest, links, roots);
              && (p !in t || t[p] == Other ==> r.None?)
              && ((exists i :: 0 <= i < |roots| && roots[i] <= p) ==> r.None?)
              && ((forall i :: 0 <= i < |links| ==> links[i].path != p) && p in t && t[p].Link? ==> r.None?)
              && ((forall i :: 0 <= i < |links| ==> links[i].path != p) && p in t && t[p] == Dir
                  && (forall i :: 0 <= i < |roots| ==> !(roots[i] <= p)) ==>
                    r == RawBinding(t, p, rest, links, roots))
  {
    assert ([part] + rest)[0] == part && ([part] + rest)[1..] == rest;
    assert ([".."] + rest)[0] == ".." && ([".."] + rest)[1..] == rest;
    assert Up(at + [part]) == at;
    var p := at + [part];
    if forall i :: 0 <= i < |links| ==> links[i].path != p { LookupNone(links, p); }
    hide Lookup;
  }

  /** A place on record leads where its last record says, unless that is in a moving directory. */
  lemma RawFollows(t: Tree, at: Place, part: string, rest: seq<string>, links: seq<RootLink>, roots: seq<Place>, i: nat)
    requires part != "" && part != "." && part != ".."
    requires i < |links| && links[i].path == at + [part]
    requires forall j :: i < j < |links| ==> links[j].path != at + [part]
    ensures var p, d, r := at + [part], links[i].resolved, RawBinding(t, at, [part] + rest, links, roots);
            && ((exists k :: 0 <= k < |roots| && roots[k] <= d) ==> r.None?)
            && (p in t && t[p] != Other && (forall k :: 0 <= k < |roots| ==> !(roots[k] <= p) && !(roots[k] <= d)) ==>
                  r == RawBinding(t, d, rest, links, roots))
  {
    LookupLast(links, at + [part], i);
    hide Lookup;
    assert ([part] + rest)[0] == part && ([part] + rest)[1..] == rest;
  }

  lemma {:induction false} RawConcat(t: Tree, at: Place, a: seq<string>, b: seq<string>, links: seq<RootLink>,
                                     roots: seq<Place>)
    ensures RawBinding(t, at, a + b, links, roots)
            == match RawBinding(t, at, a, links, roots)
               case None => None
               case Some(p) => RawBinding(t, p, b, links, roots)
    decreases |a|
  {
    if |a| == 0 {
      assert a + b == b;
    } else {
      assert (a + b)[0] == a[0] && (a + b)[1..] == a[1..] + b;
      var next := RawEnter(t, at, a[0], links, roots);
      if next.Some? { RawConcat(t, next.value, a[1..], b, links, roots); }
    }
  }

  /** One part of a raw walk leads where resolution of that part leads. */
  lemma EnterIsPosix(t: Tree, at: Place, part: string, links: seq<RootLink>, roots: seq<Place>) returns (n: nat)
    requires Recorded(t, links) && RawEnter(t, at, part, links, roots).Some?
    ensures Posix(t, at, [part], n).Some?
    ensures Posix(t, at, [part], n).value.0 == RawEnter(t, at, part, links, roots).value
  {
    n := 0;
    var p := at + [part];
    PosixRead(t, at, part, [], 0);
    assert [part] + [] == [part];
    if part != "" && part != "." && part != ".." && Lookup(links, p).Some? {
      LookupRecorded(t, links, p);
      assert Up(p) == at && p[|p| - 1] == part;
      n :| LeadsWithin(t, p, Lookup(links, p).value, n);
    }
  }

  /** A raw walk that succeeds over links recorded on this file system ends where resolution does. */
  lemma {:induction false} RawIsPosix(t: Tree, at: Place, parts: seq<string>, links: seq<RootLink>, roots: seq<Place>)
    returns (n: nat)
    requires Recorded(t, links) && RawBinding(t, at, parts, links, roots).Some?
    ensures Posix(t, at, parts, n).Some?
    ensures Posix(t, at, parts, n).value.0 == RawBinding(t, at, parts, links, roots).value
    decreases |parts|
  {
    n := 0;
    PosixDone(t, at, 0);
    hide Posix;
    assert |parts| == 0 ==> parts == [];
    if |parts| > 0 {
      var next := RawEnter(t, at, parts[0], links, roots).value;
      var rest := RawIsPosix(t, next, parts[1..], links, roots);
      var own := EnterIsPosix(t, at, parts[0], links, roots);
      PosixMonotone(t, at, [parts[0]], own, rest);
      var left := Posix(t, at, [parts[0]], own).value.1;
      PosixMonotone(t, next, parts[1..], rest, left);
      PosixConcat(t, at, [parts[0]], parts[1..], own + rest);
      assert [parts[0]] + parts[1..] == parts;
      n := own + rest;
    }
  }

  /** Whatever is recorded from here on, a raw walk over the records that reads what is left from here ends where
      one that reads the whole spelling ends. */
  ghost predicate Carries(t: Tree, links: seq<RootLink>, names: seq<string>, at: Place, parts: seq<string>) {
    forall all: seq<RootLink> :: links <= all && Recorded(t, all) ==> SameRaw(t, all, names, at, parts)
  }

  ghost predicate SameRaw(t: Tree, all: seq<RootLink>, names: seq<string>, at: Place, parts: seq<string>) {
    RawBinding(t, at, parts, all, []).Some? ==> RawBinding(t, [], names, all, []) == RawBinding(t, at, parts, all, [])
  }

  lemma StartsCarrying(t: Tree, spelling: string)
    ensures Carries(t, [], Names(spelling), [], SpellingParts(spelling))
  {
    assert [""][1..] == [];
  }

  /** Past a part that is no link the raw walk goes as resolution does. */
  lemma CarriesOn(t: Tree, links: seq<RootLink>, names: seq<string>, at: Place, part: string, rest: seq<string>)
    requires Carries(t, links, names, at, [part] + rest)
    ensures part == "" || part == "." ==> Carries(t, links, names, at, rest)
    ensures part == ".." ==> Carries(t, links, names, Up(at), rest)
    ensures part != "" && part != "." && part != ".." && at + [part] in t && t[at + [part]].Dir? ==>
              Carries(t, links, names, at + [part], rest)
  {
    var to := if part == "" || part == "." then at else if part == ".." then Up(at) else at + [part];
    if part == "" || part == "." || part == ".." || (to in t && t[to].Dir?) {
      forall all: seq<RootLink> | links <= all && Recorded(t, all) ensures SameRaw(t, all, names, to, rest) {
        assert SameRaw(t, all, names, at, [part] + rest);
        assert ([part] + rest)[1..] == rest;
        if Lookup(all, to).Some? && part != "" && part != "." && part != ".." { LookupRecorded(t, all, to); }
      }
    }
  }

  /** Past a link it goes by the record just made. */
  lemma CarriesOver(t: Tree, links: seq<RootLink>, names: seq<string>, at: Place, part: string, rest: seq<string>,
                    d: Place)
    requires Carries(t, links, names, at, [part] + rest)
    requires part != "" && part != "." && part != ".." && at + [part] in t && t[at + [part]].Link?
    ensures var target := t[at + [part]].target;
            Carries(t, links + [RootLink(at + [part], target, d)], names, StartAt(at, target), Split(target) + rest)
  {
    var p := at + [part];
    var target := t[p].target;
    var more := links + [RootLink(p, target, d)];
    forall all: seq<RootLink> | more <= all && Recorded(t, all)
      ensures SameRaw(t, all, names, StartAt(at, target), Split(target) + rest)
    {
      assert all[|links|] == RootLink(p, target, d) && links <= all;
      assert SameRaw(t, all, names, at, [part] + rest);
      LookupFinds(all, p, |links|);
      RawSplice(t, at, part, rest, all);
    }
  }

  /** Over records of this file system, reading a link's target instead of its record leads to the same place. */
  lemma RawSplice(t: Tree, at: Place, part: string, rest: seq<string>, links: seq<RootLink>)
    requires part != "" && part != "." && part != ".." && at + [part] in t && t[at + [part]].Link?
    requires Recorded(t, links) && Lookup(links, at + [part]).Some?
    ensures var target := t[at + [part]].target;
            var r := RawBinding(t, StartAt(at, target), Split(target) + rest, links, []);
            r.Some? ==> RawBinding(t, at, [part] + rest, links, []) == r
  {
    var p := at + [part];
    var target := t[p].target;
    var start := StartAt(at, target);
    assert ([part] + rest)[0] == part && ([part] + rest)[1..] == rest;
    RawConcat(t, start, Split(target), rest, links, []);
    if RawBinding(t, start, Split(target), links, []).Some? {
      var n := RawIsPosix(t, start, Split(target), links, []);
      LookupRecorded(t, links, p);
      var d := Lookup(links, p).value;
      var m: nat :| LeadsWithin(t, p, d, m);
      assert Up(p) == at && p[|p| - 1] == part;
      Splice(t, at, part, [], n + 1);
      assert Split(target) + [] == Split(target) && [part] + [] == [part];
      PosixAgree(t, at, [part], n + 1, m);
    }
  }

  lemma CarriesThrough(t: Tree, links: seq<RootLink>, names: seq<string>, at: Place)
    requires Carries(t, links, names, at, []) && Recorded(t, links)
    ensures RawBinding(t, [], names, links, []) == Some(at)
  {
    assert SameRaw(t, links, names, at, []);
  }

  /** The names a cleaned spelling is read as: one empty part for the root itself. */
  function SpellingParts(spelling: string): seq<string> {
    var names := Names(spelling);
    if |names| == 0 then [""] else names
  }

  lemma SpellingResolves(t: Tree, spelling: string, n: nat)
    ensures Posix(t, [], SpellingParts(spelling), n) == Posix(t, [], Names(spelling), n)
  {
    assert [""][1..] == [];
  }

  /** While no link was met, what was read is the spelling's own beginning. */
  ghost predicate SoFar(names: seq<string>, current: Place, parts: seq<string>) {
    (current + parts == names) || (names == [] && current == [] && parts == [""])
  }

  /** `resolveFeatureRenameRoot`, on a file system nobody changes meanwhile. */
  method Resolve(t: Tree, spelling: string) returns (r: Option<Resolution>)
    requires IsAbs(spelling)
    ensures r.Some? <==> Posix(t, [], Names(spelling), 40).Some?
    ensures r.Some? ==> r.value.dir == Posix(t, [], Names(spelling), 40).value.0
    ensures r.Some? ==> Physical(t, r.value.dir)
    ensures r.Some? ==> Recorded(t, r.value.links)
    ensures r.Some? ==> (r.value.links == [] <==> Physical(t, Names(spelling)))
    ensures r.Some? ==> |r.value.links| == 40 - Posix(t, [], Names(spelling), 40).value.1
    ensures r.Some? ==> RawBinding(t, [], Names(spelling), r.value.links, []) == Some(r.value.dir)
  {
    hide Posix, Physical, Recorded, SoFar, StartAt, LeadsWithin, Leads, EvalSymlinks, Up, Split, RawBinding, Carries,
         SameRaw, RawEnter, Lookup, UnderAny, Names, Walk, Enter, SpellingParts, Clean, Render, IsClean;
    CleanIsClean(spelling);
    SpellingResolves(t, spelling, FOLLOW_LIMIT);
    ghost var names := Names(spelling);
    var current: Place := [];
    var parts := SpellingParts(spelling);
    var links: seq<RootLink> := [];
    var followed := 0;
    StartsPhysical(t, spelling);
    StartsCarrying(t, spelling);
    while |parts| > 0
      invariant 0 <= followed == |links| <= FOLLOW_LIMIT
      invariant Posix(t, current, parts, FOLLOW_LIMIT - followed) == Posix(t, [], names, FOLLOW_LIMIT)
      invariant Physical(t, current) && Recorded(t, links)
      invariant links == [] ==> SoFar(names, current, parts)
      invariant Physical(t, names) ==> links == []
      invariant Carries(t, links, names, current, parts)
      decreases FOLLOW_LIMIT - followed, |parts|
    {
      var part := parts[0];
      assert parts == [part] + parts[1..];
      parts := parts[1..];
      PosixRead(t, current, part, parts, FOLLOW_LIMIT - followed);
      CarriesOn(t, links, names, current, part, parts);
      if links == [] { SoFarStep(names, current, part, parts); }
      if part == "" || part == "." { continue; }
      PhysicalSteps(t, current);
      if part == ".." {
        current := Up(current);
        continue;
      }
      var path := current + [part];
      if path !in t { return None; }
      if t[path].Link? {
        if Physical(t, names) { NoLinkOnTheWay(t, names, path); }
        followed := followed + 1;
        if followed > FOLLOW_LIMIT { return None; }
        var target := t[path].target;
        var resolved := EvalSymlinks(t, path);
        if resolved.None? {
          if Posix(t, current, [part] + parts, FOLLOW_LIMIT - followed + 1).Some? {
            EvalDecides(t, current, part, parts, FOLLOW_LIMIT - followed + 1);
          }
          return None;
        }
        RecordedMore(t, links, path, resolved.value);
        CarriesOver(t, links, names, current, part, parts, resolved.value);
        links := links + [RootLink(path, target, resolved.value)];
        Splice(t, current, part, parts, FOLLOW_LIMIT - followed + 1);
        StartIsPhysical(t, current, target);
        current := StartAt(current, target);
        parts := Split(target) + parts;
        continue;
      }
      if !t[path].Dir? { return None; }
      current := path;
    }
    PosixDone(t, current, FOLLOW_LIMIT - followed);
    CarriesThrough(t, links, names, current);
    if links == [] { SoFarDone(names, current); }
    return Some(Resolution(current, links));
  }

  lemma SoFarStep(names: seq<string>, current: Place, part: string, rest: seq<string>)
    requires AllPlain(names) && SoFar(names, current, [part] + rest)
    ensures part != "." && part != ".." && (part == "" ==> SoFar(names, current, rest))
    ensures part != "" ==> SoFar(names, current + [part], rest) && current + [part] <= names
  {
    if current + ([part] + rest) == names {
      assert names[|current|] == part;
      assert current + [part] + rest == names;
    } else {
      assert ([part] + rest)[0] == part && rest == ([part] + rest)[1..] == [];
    }
  }

  lemma StartsPhysical(t: Tree, spelling: string)
    ensures Physical(t, []) && Recorded(t, [])
    ensures SoFar(Names(spelling), [], SpellingParts(spelling))
  {
    assert [] + Names(spelling) == Names(spelling);
  }

  lemma StartIsPhysical(t: Tree, at: Place, value: string)
    requires Physical(t, at)
    ensures Physical(t, StartAt(at, value))
  {
  }

  lemma RecordedMore(t: Tree, links: seq<RootLink>, p: Place, d: Place)
    requires Recorded(t, links) && |p| > 0 && p in t && t[p].Link? && EvalSymlinks(t, p) == Some(d)
    ensures Recorded(t, links + [RootLink(p, t[p].target, d)])
  {
    assert LeadsWithin(t, p, d, EVAL_LIMIT);
  }

  lemma PosixDone(t: Tree, at: Place, n: nat)
    ensures Posix(t, at, [], n) == Some((at, n))
  {
  }

  lemma SoFarDone(names: seq<string>, current: Place)
    requires SoFar(names, current, [])
    ensures current == names
  {
    assert current + [] == current;
  }

  lemma NoLinkOnTheWay(t: Tree, names: seq<string>, place: Place)
    requires Physical(t, names) && place <= names && |place| > 0
    ensures place in t && t[place].Dir?
  {
    assert names[..|place|] == place;
  }

  lemma {:induction false} PosixPlain(t: Tree, at: Place, parts: seq<string>, n: nat)
    requires AllPlain(at) && Posix(t, at, parts, n).Some? && forall i :: 0 <= i < |parts| ==> SEP !in parts[i]
    ensures AllPlain(Posix(t, at, parts, n).value.0)
    decreases n, |parts|
  {
    if |parts| > 0 {
      var p := at + [parts[0]];
      if parts[0] == "" || parts[0] == "." {
        PosixPlain(t, at, parts[1..], n);
      } else if parts[0] == ".." {
        PosixPlain(t, Up(at), parts[1..], n);
      } else if t[p].Dir? {
        PosixPlain(t, p, parts[1..], n);
      } else {
        PosixPlain(t, StartAt(at, t[p].target), Split(t[p].target), n - 1);
        var (d, m) := Posix(t, StartAt(at, t[p].target), Split(t[p].target), n - 1).value;
        PosixPlain(t, d, parts[1..], m);
      }
    }
  }

  /** Resolving a result again gives it back, and meets no link on the way. */
  lemma ResolvedAgain(t: Tree, spelling: string)
    requires IsAbs(spelling) && Posix(t, [], Names(spelling), FOLLOW_LIMIT).Some?
    ensures var dir := Posix(t, [], Names(spelling), FOLLOW_LIMIT).value.0;
            && Posix(t, [], Names(Render(dir)), FOLLOW_LIMIT) == Some((dir, FOLLOW_LIMIT))
            && Physical(t, Names(Render(dir)))
  {
    var dir := Posix(t, [], Names(spelling), FOLLOW_LIMIT).value.0;
    CleanIsClean(spelling);
    PosixPlain(t, [], Names(spelling), FOLLOW_LIMIT);
    PosixPhysical(t, [], Names(spelling), FOLLOW_LIMIT);
    NamesOfRender(dir);
    assert [] + dir == dir;
    PhysicalResolves(t, [], dir, FOLLOW_LIMIT);
  }

  method LookupLink(links: seq<RootLink>, p: Place) returns (resolved: Option<Place>)
    ensures resolved == Lookup(links, p)
  {
    resolved := None;
    for i := 0 to |links|
      invariant resolved == Lookup(links[..i], p)
    {
      assert links[..i + 1][..i] == links[..i];
      if links[i].path == p { resolved := Some(links[i].resolved); }
    }
    assert links[..|links|] == links;
  }

  method CheckMoving(roots: seq<Place>, p: Place) returns (inside: bool)
    ensures inside <==> UnderAny(roots, p)
  {
    for i := 0 to |roots|
      invariant forall k :: 0 <= k < i ==> !(roots[k] <= p)
    {
      if roots[i] <= p { return true; }
    }
    return false;
  }

  /** `featureRenameRawDirectoryBinding` while it inspects the file system. */
  method RawDirectoryBinding(t: Tree, base: Place, value: string, links: seq<RootLink>, roots: seq<Place>)
    returns (r: Option<Place>)
    ensures |value| > 0 && value[0] == '/' ==> r == RawBinding(t, [], Split(value), links, roots)
    ensures |value| == 0 || value[0] != '/' ==> r == RawBinding(t, base, Split(value), links, roots)
  {
    var current := StartAt(base, value);
    var parts := Split(value);
    for k := 0 to |parts|
      invariant RawBinding(t, StartAt(base, value), parts[..k], links, roots) == Some(current)
    {
      var part := parts[k];
      assert parts[..k + 1] == parts[..k] + [part];
      RawSnoc(t, StartAt(base, value), parts[..k], part, links, roots);
      var next := EnterPart(t, current, part, links, roots);
      if next.None? {
        RawStops(t, StartAt(base, value), parts, k + 1, links, roots);
        return None;
      }
      current := next.value;
    }
    assert parts[..|parts|] == parts;
    return Some(current);
  }

  method EnterPart(t: Tree, at: Place, part: string, links: seq<RootLink>, roots: seq<Place>)
    returns (next: Option<Place>)
    ensures next == RawEnter(t, at, part, links, roots)
  {
    if part == "" || part == "." { return Some(at); }
    if part == ".." { return Some(Up(at)); }
    var p := at + [part];
    var moving := CheckMoving(roots, p);
    if moving { return None; }
    var resolved := LookupLink(links, p);
    if p !in t || (t[p].Link? && resolved.None?) || t[p].Other? { return None; }
    if resolved.None? { return Some(p); }
    moving := CheckMoving(roots, resolved.value);
    if moving { return None; }
    return resolved;
  }

  // ---------- the two walks agree ----------

  /** Every link there is, is on record. */
  ghost predicate CoversLinks(t: Tree, links: seq<RootLink>) {
    forall p :: p in t && t[p].Link? ==> Lookup(links, p).Some?
  }

  /** When nothing moves and every link is on record, the raw walk reaches whatever resolution reaches. */
  lemma {:induction false} PosixIsRaw(t: Tree, at: Place, parts: seq<string>, n: nat, links: seq<RootLink>)
    requires Recorded(t, links) && CoversLinks(t, links) && Posix(t, at, parts, n).Some?
    ensures RawBinding(t, at, parts, links, []) == Some(Posix(t, at, parts, n).value.0)
    decreases |parts|
  {
    if |parts| > 0 {
      var p := at + [parts[0]];
      if parts[0] == "" || parts[0] == "." {
        PosixIsRaw(t, at, parts[1..], n, links);
      } else if parts[0] == ".." {
        PosixIsRaw(t, Up(at), parts[1..], n, links);
      } else if t[p].Dir? {
        if Lookup(links, p).Some? { LookupRecorded(t, links, p); }
        PosixIsRaw(t, p, parts[1..], n, links);
      } else {
        LookupRecorded(t, links, p);
        var d := Lookup(links, p).value;
        assert Up(p) == at && p[|p| - 1] == parts[0];
        var own: nat :| LeadsWithin(t, p, d, own);
        assert [parts[0]] + parts[1..] == parts;
        PosixConcat(t, at, [parts[0]], parts[1..], n);
        PosixAgree(t, at, [parts[0]], own, n);
        PosixIsRaw(t, d, parts[1..], Posix(t, at, [parts[0]], n).value.1, links);
      }
    }
  }

  lemma UpStaysOutside(roots: seq<Place>, p: Place)
    ensures UnderAny(roots, Up(p)) ==> UnderAny(roots, p)
  {
    assert forall i :: 0 <= i < |roots| && roots[i] <= Up(p) ==> roots[i] <= p;
  }

  /** A raw walk that starts outside the moving directories ends outside them. */
  lemma {:induction false} RawAvoidsMoving(t: Tree, at: Place, parts: seq<string>, links: seq<RootLink>,
                                           roots: seq<Place>)
    requires !UnderAny(roots, at) && RawBinding(t, at, parts, links, roots).Some?
    ensures !UnderAny(roots, RawBinding(t, at, parts, links, roots).value)
    decreases |parts|
  {
    if |parts| > 0 {
      var next := RawEnter(t, at, parts[0], links, roots).value;
      UpStaysOutside(roots, at);
      RawAvoidsMoving(t, next, parts[1..], links, roots);
    }
  }

  /** From a physical base the raw walk's answer is the physical place that resolution gives. */
  lemma RawIsPhysical(t: Tree, base: Place, value: string, links: seq<RootLink>, roots: seq<Place>)
    requires Physical(t, base) && Recorded(t, links)
    requires RawBinding(t, StartAt(base, value), Split(value), links, roots).Some?
    ensures Physical(t, RawBinding(t, StartAt(base, value), Split(value), links, roots).value)
  {
    var n := RawIsPosix(t, StartAt(base, value), Split(value), links, roots);
    PosixPhysical(t, StartAt(base, value), Split(value), n);
  }
}
