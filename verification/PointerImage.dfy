/** Rewriting a Git pointer file for a directory that moves.  No path goes through a recorded root alias here,
    so mapping a path is cleaning it. */
module PointerImage {
  import opened Options
  import opened Paths

  const FORWARD: string := "gitdir: "
  const CR: char := '\r'
  const LF: char := '\n'
  const NUL: char := '\0'

  // ---------- reading ----------

  function Ending(s: string): string {
    if |s| >= 2 && s[|s| - 2] == CR && s[|s| - 1] == LF then [CR, LF]
    else if |s| >= 1 && s[|s| - 1] == LF then [LF]
    else ""
  }

  function Body(s: string): string {
    s[..|s| - |Ending(s)|]
  }

  /** `strings.CutPrefix`. */
  function Cut(s: string, prefix: string): Option<string> {
    if prefix <= s then Some(s[|prefix|..]) else None
  }

  function TrimSuffix(s: string, c: char): string {
    if |s| > 0 && s[|s| - 1] == c then s[..|s| - 1] else s
  }

  function Absolute(base: string, value: string): string
    requires IsAbs(base)
  {
    if IsAbs(value) then Clean(value) else Join(base, value)
  }

  /** `featureRenameRecordBinding`: the path a pointer file names, seen from `base`. */
  function RecordBinding(data: string, prefix: string, base: string): Option<string>
    requires IsAbs(base)
  {
    var value := TrimSuffix(TrimSuffix(data, LF), CR);
    match Cut(value, prefix)
    case None => None
    case Some(path) => if path == "" || NUL in path then None else Some(Absolute(base, path))
  }

  /** The value of a pointer file the rewriting accepts. */
  function Value(before: string, prefix: string): Option<string> {
    match Cut(Body(before), prefix)
    case None => None
    case Some(v) => if v == "" || NUL in v then None else Some(v)
  }

  // ---------- raw walks ----------

  /** One of the places reached after the first `k` parts is inside `root`. */
  ghost predicate TouchesWithin(start: seq<string>, parts: seq<string>, root: string, k: nat)
    requires k <= |parts|
  {
    exists j :: 0 < j <= k && Inside(root, Render(Walk(start, parts[..j])))
  }

  function StartOf(base: string, value: string): seq<string> {
    if IsAbs(value) then [] else Names(base)
  }

  /** `value` passes through a place inside `root` on its way from `base`, read part by part. */
  ghost predicate Touches(base: string, value: string, root: string) {
    TouchesWithin(StartOf(base, value), Split(value), root, |Split(value)|)
  }

  lemma TouchesStep(start: seq<string>, parts: seq<string>, root: string, k: nat)
    requires k < |parts|
    ensures TouchesWithin(start, parts, root, k + 1) <==>
              TouchesWithin(start, parts, root, k) || Inside(root, Render(Walk(start, parts[..k + 1])))
    ensures TouchesWithin(start, parts, root, k + 1) ==> TouchesWithin(start, parts, root, |parts|)
  {
    hide Inside, Walk, Render;
  }

  lemma FirstPlace(base: string, value: string) returns (current: string)
    requires IsAbs(base)
    ensures current == if IsAbs(value) then Render([]) else Clean(base)
    ensures IsClean(current) && Names(current) == Walk(StartOf(base, value), Split(value)[..0])
  {
    current := if IsAbs(value) then Render([]) else Clean(base);
    CleanIsClean(base);
    NamesOfRender([]);
  }

  lemma StepInto(start: seq<string>, parts: seq<string>, k: nat, current: string)
    requires k < |parts| && SEP !in parts[k]
    requires IsClean(current) && Names(current) == Walk(start, parts[..k])
    ensures IsClean(Join(current, parts[k])) && Names(Join(current, parts[k])) == Walk(start, parts[..k + 1])
    ensures Join(current, parts[k]) == Render(Walk(start, parts[..k + 1]))
  {
    assert parts[..k + 1] == parts[..k] + [parts[k]];
    WalkConcat(start, parts[..k], [parts[k]]);
    SplitPlain(parts[k]);
    JoinNames(current, parts[k]);
  }

  /** `featureRenameRawPointerTouches`; an empty root is no root. */
  method RawPointerTouches(base: string, value: string, root: string) returns (touches: bool)
    requires IsAbs(base)
    ensures touches <==> root != "" && Touches(base, value, root)
  {
    if root == "" { return false; }
    ghost var start := StartOf(base, value);
    ghost var first := FirstPlace(base, value);
    var parts := Split(value);
    var current := if IsAbs(value) then Render([]) else Clean(base);
    hide *;
    NothingTouched(start, parts, root);
    for k := 0 to |parts|
      invariant IsClean(current) && Names(current) == Walk(start, parts[..k])
      invariant !TouchesWithin(start, parts, root, k)
    {
      StepInto(start, parts, k, current);
      TouchesStep(start, parts, root, k);
      current := Join(current, parts[k]);
      if Inside(root, current) {
        TouchesIs(base, value, root);
        return true;
      }
    }
    TouchesIs(base, value, root);
    return false;
  }

  lemma NothingTouched(start: seq<string>, parts: seq<string>, root: string)
    ensures !TouchesWithin(start, parts, root, 0)
  {
  }

  lemma TouchesIs(base: string, value: string, root: string)
    ensures Touches(base, value, root) <==> TouchesWithin(StartOf(base, value), Split(value), root, |Split(value)|)
  {
  }

  /** The topmost directory of `from` that is not one of `to`, or nothing when one contains the other. */
  ghost function Moving(from: seq<string>, to: seq<string>): string {
    var k := CommonLength(from, to);
    if k < |from| && k < |to| then Render(from[..k + 1]) else ""
  }

  /** The loop over the parts of both spellings. */
  method MovingRoot(oldBase: string, newBase: string) returns (root: string)
    requires IsClean(oldBase) && IsClean(newBase) && Names(oldBase) != [] && Names(newBase) != []
    ensures root == Moving(Names(oldBase), Names(newBase))
  {
    CleanParts(oldBase);
    CleanParts(newBase);
    var oldParts, newParts := Split(oldBase), Split(newBase);
    var i := 0;
    while i < |oldParts| && i < |newParts| && oldParts[i] == newParts[i]
      invariant 0 <= i <= |oldParts| && i <= |newParts|
      invariant oldParts[..i] == newParts[..i]
    {
      i := i + 1;
    }
    ghost var a, b := Names(oldBase), Names(newBase);
    hide Split, Names, CommonLength, Render;
    if i < |oldParts| && i < |newParts| {
      root := JoinParts(oldParts[..i + 1]);
      Differs(a, b, i);
    } else {
      root := "";
      PrefixOfOther(a, b, i);
    }
  }

  lemma SamePrefix(a: seq<string>, b: seq<string>, i: nat)
    requires 0 < i <= |a| + 1 && i <= |b| + 1 && ([""] + a)[..i] == ([""] + b)[..i]
    ensures a[..i - 1] == b[..i - 1]
  {
    assert ([""] + a)[..i] == [""] + a[..i - 1];
    assert ([""] + b)[..i] == [""] + b[..i - 1];
    assert ([""] + a[..i - 1])[1..] == a[..i - 1];
    assert ([""] + b[..i - 1])[1..] == b[..i - 1];
  }

  lemma Differs(a: seq<string>, b: seq<string>, i: nat)
    requires i < |a| + 1 && i < |b| + 1 && ([""] + a)[..i] == ([""] + b)[..i] && ([""] + a)[i] != ([""] + b)[i]
    ensures JoinParts(([""] + a)[..i + 1]) == Moving(a, b)
  {
    assert i > 0 && a[i - 1] != b[i - 1];
    SamePrefix(a, b, i);
    FirstDifference(a, b, i - 1);
    assert ([""] + a)[..i + 1] == [""] + a[..i];
    assert ([""] + a[..i])[1..] == a[..i];
  }

  lemma PrefixOfOther(a: seq<string>, b: seq<string>, i: nat)
    requires i <= |a| + 1 && i <= |b| + 1 && ([""] + a)[..i] == ([""] + b)[..i]
    requires i == |a| + 1 || i == |b| + 1
    ensures Moving(a, b) == ""
  {
    SamePrefix(a, b, i);
    NoDifference(a, b);
  }

  lemma CleanParts(s: string)
    requires IsClean(s) && Names(s) != []
    ensures AllPlain(Names(s)) && Split(s) == [""] + Names(s)
  {
    CleanIsClean(s);
    SplitConcat("", JoinParts(Names(s)));
    assert "" + [SEP] + JoinParts(Names(s)) == s;
    SplitJoin(Names(s));
  }

  lemma {:induction false} FirstDifference(a: seq<string>, b: seq<string>, k: nat)
    requires k < |a| && k < |b| && a[..k] == b[..k] && a[k] != b[k]
    ensures CommonLength(a, b) == k
  {
    if k > 0 {
      assert a[0] == a[..k][0] == b[..k][0] == b[0];
      assert a[1..][..k - 1] == a[..k][1..] == b[..k][1..] == b[1..][..k - 1];
      FirstDifference(a[1..], b[1..], k - 1);
    }
  }

  lemma {:induction false} NoDifference(a: seq<string>, b: seq<string>)
    requires a <= b || b <= a
    ensures CommonLength(a, b) == |a| || CommonLength(a, b) == |b|
  {
    if |a| > 0 && |b| > 0 {
      NoDifference(a[1..], b[1..]);
    }
  }

  // ---------- the image ----------

  /** The old spelling still names the target from the new place; a forward pointer must also not pass through
      the moving directory on the way. */
  ghost predicate Keeps(prefix: string, oldBase: string, newBase: string, target: string, v: string)
    requires IsAbs(newBase)
  {
    if prefix == FORWARD then
      var root := Moving(Names(oldBase), Names(newBase));
      Absolute(newBase, v) == target && !(root != "" && Touches(newBase, v, root))
    else
      !IsAbs(v) && Join(newBase, v) == target
  }

  /** The value written when the old one is not kept: same style, new place. */
  function Written(newBase: string, target: string, v: string): string {
    if IsAbs(v) then target else Rel(newBase, target)
  }

  /** Why a pointer is refused: it cannot be read, or it never named the target. */
  predicate Refused(before: string, prefix: string, oldBase: string, target: string)
    requires IsAbs(oldBase)
  {
    var v := Value(before, prefix);
    v.None? || (prefix == FORWARD && Absolute(oldBase, v.value) != target)
  }

  ghost function Image(before: string, prefix: string, oldBase: string, newBase: string, target: string): string
    requires IsAbs(newBase) && Value(before, prefix).Some?
  {
    var v := Value(before, prefix).value;
    if Keeps(prefix, oldBase, newBase, target, v) then before
    else prefix + Written(newBase, target, v) + Ending(before)
  }

  /** The text is the prefix, a value and the longest line ending there is. */
  ghost predicate IsLine(s: string, prefix: string, v: string, e: string) {
    && s == prefix + v + e
    && (|| e == "\r\n"
        || (e == "\n" && (|s| == 1 || s[|s| - 2] != '\r'))
        || (e == "" && (|s| == 0 || s[|s| - 1] != '\n')))
  }

  /** Seen from `base` the value names the target. */
  ghost predicate LeadsTo(base: string, v: string, target: string) {
    target == Render(Walk(if |v| > 0 && v[0] == '/' then [] else Names(base), Split(v)))
  }

  /** The file is one line with the prefix and a value, and a forward pointer's value named the target. */
  ghost predicate Accepted(before: string, prefix: string, oldBase: string, target: string, v: string, e: string) {
    && IsLine(before, prefix, v, e) && v != "" && NUL !in v
    && (prefix == "gitdir: " ==> LeadsTo(oldBase, v, target))
  }

  /** Read part by part from the new place, the value passes through the topmost directory of the old spelling that is
      not one of the new. */
  ghost predicate PassesMoving(oldBase: string, newBase: string, v: string) {
    var from, to, start := Names(oldBase), Names(newBase), if |v| > 0 && v[0] == '/' then [] else Names(newBase);
    exists k, j :: && 0 <= k < |from| && k < |to| && from[..k] == to[..k] && from[k] != to[k]
                   && 0 < j <= |Split(v)| && from[..k + 1] <= Walk(start, Split(v)[..j])
  }

  /** The value found is as good as before: a forward pointer that still leads to the target and not through the
      moving directory, or a relative back pointer that still leads there. */
  ghost predicate StillGood(prefix: string, oldBase: string, newBase: string, target: string, v: string) {
    && LeadsTo(newBase, v, target)
    && if prefix == "gitdir: " then !PassesMoving(oldBase, newBase, v) else !(|v| > 0 && v[0] == '/')
  }

  lemma LineIs(before: string, prefix: string, v: string, e: string)
    ensures IsLine(before, prefix, v, e) <==> e == Ending(before) && Cut(Body(before), prefix) == Some(v)
  {
    EndingParts(before);
    if IsLine(before, prefix, v, e) {
      LineEnds(before, prefix + v, e);
      assert Body(before) == prefix + v;
    }
    if e == Ending(before) && Cut(Body(before), prefix) == Some(v) {
      hide Ending, Body;
      assert Body(before) == prefix + v;
    }
  }

  lemma LineEnds(s: string, body: string, e: string)
    requires s == body + e
    requires || e == "\r\n"
             || (e == "\n" && (|s| == 1 || s[|s| - 2] != '\r'))
             || (e == "" && (|s| == 0 || s[|s| - 1] != '\n'))
    ensures e == Ending(s)
  {
    assert s[|body|..] == e;
  }

  lemma LeadsIs(base: string, v: string, target: string)
    requires IsAbs(base)
    ensures LeadsTo(base, v, target) <==> Absolute(base, v) == target
  {
    if !IsAbs(v) { JoinNames(base, v); }
  }

  lemma MovingIs(oldBase: string, newBase: string, k: nat)
    ensures var from, to := Names(oldBase), Names(newBase);
            k < |from| && k < |to| && from[..k] == to[..k] && from[k] != to[k]
            ==> CommonLength(from, to) == k && Moving(from, to) == Render(from[..k + 1])
  {
    var from, to := Names(oldBase), Names(newBase);
    var c := CommonLength(from, to);
    if k < |from| && k < |to| && from[..k] == to[..k] && from[k] != to[k] {
      assert forall i :: 0 <= i < k ==> from[i] == from[..k][i] == to[..k][i] == to[i];
      assert forall i :: 0 <= i < c ==> from[i] == from[..c][i] == to[..c][i] == to[i];
    }
  }

  /** Being inside the moving directory is beginning with its names. */
  lemma InsideMoving(root: seq<string>, start: seq<string>, parts: seq<string>)
    requires AllPlain(root) && AllPlain(start) && forall i :: 0 <= i < |parts| ==> SEP !in parts[i]
    ensures Inside(Render(root), Render(Walk(start, parts))) <==> root <= Walk(start, parts)
  {
    WalkPlain(start, parts);
    NamesOfRender(root);
    NamesOfRender(Walk(start, parts));
    InsideExact(Render(root), Render(Walk(start, parts)));
  }

  lemma PassesIs(oldBase: string, newBase: string, v: string)
    requires IsAbs(oldBase) && IsAbs(newBase)
    ensures var root := Moving(Names(oldBase), Names(newBase));
            PassesMoving(oldBase, newBase, v) <==> root != "" && Touches(newBase, v, root)
  {
    CleanIsClean(oldBase);
    CleanIsClean(newBase);
    var from, to, start, parts := Names(oldBase), Names(newBase), StartOf(newBase, v), Split(v);
    var c := CommonLength(from, to);
    forall k: nat ensures k < |from| && k < |to| && from[..k] == to[..k] && from[k] != to[k] ==> k == c {
      MovingIs(oldBase, newBase, k);
    }
    hide Inside, Walk, Split, Names, Render, CommonLength;
    if c < |from| && c < |to| {
      forall j | 0 < j <= |parts|
        ensures Inside(Render(from[..c + 1]), Render(Walk(start, parts[..j]))) <==>
                  from[..c + 1] <= Walk(start, parts[..j])
      {
        InsideMoving(from[..c + 1], start, parts[..j]);
      }
    }
  }

  lemma GoodIs(prefix: string, oldBase: string, newBase: string, target: string, v: string)
    requires IsAbs(oldBase) && IsAbs(newBase)
    ensures StillGood(prefix, oldBase, newBase, target, v) <==> Keeps(prefix, oldBase, newBase, target, v)
  {
    LeadsIs(newBase, v, target);
    PassesIs(oldBase, newBase, v);
    hide PassesMoving, Touches, LeadsTo, Moving, Names, Join, Clean;
  }

  lemma AcceptedIs(before: string, prefix: string, oldBase: string, target: string, v: string, e: string)
    requires IsAbs(oldBase)
    ensures Accepted(before, prefix, oldBase, target, v, e) <==>
              !Refused(before, prefix, oldBase, target) && Value(before, prefix) == Some(v) && e == Ending(before)
  {
    LineIs(before, prefix, v, e);
    LeadsIs(oldBase, v, target);
    hide IsLine, LeadsTo, Absolute, Ending, Body;
  }

  /** `featureRenamePointerImage`. */
  method RewritePointer(before: string, prefix: string, oldBase: string, newBase: string, target: string)
    returns (image: Option<string>)
    requires IsClean(oldBase) && IsClean(newBase) && Names(oldBase) != [] && Names(newBase) != []
    ensures image.Some? <==> exists v, e :: Accepted(before, prefix, oldBase, target, v, e)
    ensures forall v, e :: Accepted(before, prefix, oldBase, target, v, e) ==>
              image == Some(if StillGood(prefix, oldBase, newBase, target, v) then before
                            else prefix + (if v[0] == '/' then target else Rel(newBase, target)) + e)
    ensures image.None? <==> Refused(before, prefix, oldBase, target)
    ensures image.Some? ==> image.value == Image(before, prefix, oldBase, newBase, target)
    ensures image.Some? && IsClean(target) && NUL !in target ==>
              (ReadsBack(image.value, before, prefix, newBase, target)
               <==> !Ambiguous(Carried(before, prefix, oldBase, newBase, target), Ending(before)))
  {
    if IsClean(target) && NUL !in target && Value(before, prefix).Some? {
      ImageReadsBackExactly(before, prefix, oldBase, newBase, target);
    }
    RewriteLaw(before, prefix, oldBase, newBase, target);
    hide ReadsBack, Carried, Ambiguous, Accepted, StillGood;
    hide Absolute, Clean, Names, Join, Rel, Touches, Ending, Split;
    var value := Value(before, prefix);
    if value.None? { return None; }
    var v := value.value;
    if prefix == FORWARD && Absolute(oldBase, v) != target { return None; }
    if prefix == FORWARD {
      var root := MovingRoot(oldBase, newBase);
      var touches := RawPointerTouches(newBase, v, root);
      if Absolute(newBase, v) == target && !touches { return Some(before); }
    }
    if IsAbs(v) { return Some(prefix + target + Ending(before)); }
    if prefix != FORWARD && Join(newBase, v) == target { return Some(before); }
    return Some(prefix + Rel(newBase, target) + Ending(before));
  }

  /** Which files are rewritten, and to what, read off the text itself. */
  lemma RewriteLaw(before: string, prefix: string, oldBase: string, newBase: string, target: string)
    requires IsAbs(oldBase) && IsAbs(newBase)
    ensures !Refused(before, prefix, oldBase, target) <==>
              exists v, e :: Accepted(before, prefix, oldBase, target, v, e)
    ensures forall v, e :: Accepted(before, prefix, oldBase, target, v, e) ==>
              && Value(before, prefix).Some?
              && Image(before, prefix, oldBase, newBase, target)
                 == if StillGood(prefix, oldBase, newBase, target, v) then before
                    else prefix + (if v[0] == '/' then target else Rel(newBase, target)) + e
  {
    forall v, e
      ensures Accepted(before, prefix, oldBase, target, v, e) <==>
                !Refused(before, prefix, oldBase, target) && Value(before, prefix) == Some(v) && e == Ending(before)
    {
      AcceptedIs(before, prefix, oldBase, target, v, e);
    }
    if Value(before, prefix).Some? {
      var v := Value(before, prefix).value;
      GoodIs(prefix, oldBase, newBase, target, v);
      hide Accepted, StillGood, Keeps, Refused, Ending, Rel;
      assert Value(before, prefix) == Some(v) && (IsAbs(v) <==> v[0] == '/');
      assert !Refused(before, prefix, oldBase, target) ==>
          Accepted(before, prefix, oldBase, target, v, Ending(before));
    }
  }

  // ---------- what the image is good for ----------

  /** A value whose last character a reader would take for part of the line ending. */
  predicate Ambiguous(w: string, ending: string) {
    w != "" &&
    var c := w[|w| - 1];
    (c == CR && ending != [CR, LF]) || (c == LF && ending == "")
  }

  lemma EndingParts(s: string)
    ensures Body(s) + Ending(s) == s
    ensures Ending(s) == "" || Ending(s) == [LF] || Ending(s) == [CR, LF]
    ensures Ending(s) == "" ==> |s| == 0 || s[|s| - 1] != LF
    ensures Ending(s) == [LF] && |Body(s)| > 0 ==> Body(s)[|Body(s)| - 1] != CR
  {
    var k := |s| - |Ending(s)|;
    assert s[..k] + s[k..] == s;
    assert s[k..] == Ending(s);
  }

  /** A line written with an unambiguous value is read with that value and that ending. */
  lemma LineReadsBack(prefix: string, w: string, ending: string, base: string)
    requires IsAbs(base) && w != "" && NUL !in w
    requires ending == "" || ending == [LF] || ending == [CR, LF]
    requires !Ambiguous(w, ending)
    ensures RecordBinding(prefix + w + ending, prefix, base) == Some(Absolute(base, w))
    ensures Ending(prefix + w + ending) == ending && Value(prefix + w + ending, prefix) == Some(w)
  {
    var line := prefix + w;
    assert line[|line| - 1] == w[|w| - 1];
    assert (line + ending)[..|line|] == line;
    assert line[|prefix|..] == w;
    if ending == [CR, LF] {
      assert TrimSuffix(line + ending, LF) == line + [CR];
      assert TrimSuffix(line + [CR], CR) == line;
    } else if ending == [LF] {
      assert TrimSuffix(line + ending, LF) == line;
    } else {
      assert line + ending == line;
    }
  }

  lemma AbsoluteWalks(base: string, v: string)
    requires IsAbs(base)
    ensures Absolute(base, v) == Render(Walk(StartOf(base, v), Split(v)))
  {
    if !IsAbs(v) { JoinNames(base, v); }
  }

  lemma {:induction false} JoinChars(parts: seq<string>, c: char)
    requires c in JoinParts(parts) && c != SEP
    ensures exists i :: 0 <= i < |parts| && c in parts[i]
  {
    if |parts| > 1 && c !in parts[0] {
      assert c in JoinParts(parts[1..]);
      JoinChars(parts[1..], c);
      var i :| 0 <= i < |parts[1..]| && c in parts[1..][i];
      assert c in parts[i + 1];
    } else if |parts| > 0 {
      assert c in parts[0];
    }
  }

  lemma {:induction false} PartChars(parts: seq<string>, i: nat, c: char)
    requires i < |parts| && c in parts[i]
    ensures c in JoinParts(parts)
  {
    if |parts| > 1 && i > 0 {
      PartChars(parts[1..], i - 1, c);
    }
  }

  lemma RelHasNoNul(base: string, target: string)
    requires IsClean(target) && NUL !in target
    ensures NUL !in Rel(base, target)
  {
    var parts := RelParts(Names(base), Names(target));
    CleanIsClean(target);
    if |parts| > 0 && NUL in JoinParts(parts) {
      JoinChars(parts, NUL);
      var i :| 0 <= i < |parts| && NUL in parts[i];
      var k := CommonLength(Names(base), Names(target));
      var j := k + (i - (|Names(base)| - k));
      PartChars(Names(target), j, NUL);
    }
  }

  /** What an image must say for the operation to go on. */
  ghost predicate ReadsBack(image: string, before: string, prefix: string, newBase: string, target: string)
    requires IsAbs(newBase)
  {
    && RecordBinding(image, prefix, newBase) == Some(target)
    && Ending(image) == Ending(before)
    && Value(image, prefix).Some? && Value(before, prefix).Some?
    && (IsAbs(Value(image, prefix).value) <==> IsAbs(Value(before, prefix).value))
  }

  /** The value an image carries: the one found when it is kept, otherwise the one written. */
  ghost function Carried(before: string, prefix: string, oldBase: string, newBase: string, target: string): string
    requires IsAbs(newBase) && Value(before, prefix).Some?
  {
    var v := Value(before, prefix).value;
    if Keeps(prefix, oldBase, newBase, target, v) then v else Written(newBase, target, v)
  }

  /** Every image is one line with the prefix, that value and the old line ending; seen from the new place
      the value names the target, in the style of the file it replaces. */
  lemma ImageIsLine(before: string, prefix: string, oldBase: string, newBase: string, target: string)
    requires IsAbs(newBase) && IsClean(target) && NUL !in target
    requires Value(before, prefix).Some?
    ensures var w := Carried(before, prefix, oldBase, newBase, target);
            && w != "" && NUL !in w && Absolute(newBase, w) == target
            && (IsAbs(w) <==> IsAbs(Value(before, prefix).value))
            && Image(before, prefix, oldBase, newBase, target) == prefix + w + Ending(before)
  {
    var v := Value(before, prefix).value;
    EndingParts(before);
    assert prefix + v == Body(before);
    if !Keeps(prefix, oldBase, newBase, target, v) && !IsAbs(v) {
      RelIsRelative(newBase, target);
      RelHasNoNul(newBase, target);
      JoinRel(newBase, target);
    }
  }

  // ---------- exactly when a line reads back ----------

  /** Text without separators extends the last part. */
  lemma {:induction false} SplitExtends(p: string, tail: string)
    requires SEP !in tail
    ensures var parts := Split(p);
            Split(p + tail) == parts[..|parts| - 1] + [parts[|parts| - 1] + tail]
  {
    if SEP !in p {
      SplitPlain(p);
      SplitPlain(p + tail);
    } else {
      var i := LastSeparator(p);
      assert p == p[..i] + [SEP] + p[i + 1..];
      assert p + tail == p[..i] + [SEP] + (p[i + 1..] + tail);
      SplitConcat(p[..i], p[i + 1..]);
      SplitConcat(p[..i], p[i + 1..] + tail);
      SplitPlain(p[i + 1..]);
      SplitPlain(p[i + 1..] + tail);
    }
  }

  lemma LastSeparator(p: string) returns (i: nat)
    requires SEP in p
    ensures i < |p| && p[i] == SEP && SEP !in p[i + 1..]
  {
    i := |p| - 1;
    while p[i] != SEP
      invariant i < |p| && SEP !in p[i + 1..]
      invariant exists k :: 0 <= k <= i && p[k] == SEP
      decreases i
    {
      i := i - 1;
    }
  }

  lemma EnterByName(at: seq<string>, part: string, name: string)
    requires part != name
    ensures Enter(at, part) != at + [name]
  {
    assert (at + [part])[|at|] == part && (at + [name])[|at|] == name;
  }

  /** A value that loses characters of its last name names another place. */
  lemma ShorterNamesElsewhere(base: string, p: string, tail: string)
    requires IsAbs(base) && p != "" && tail != "" && SEP !in tail && tail[|tail| - 1] != '.'
    ensures Absolute(base, p) != Absolute(base, p + tail)
  {
    var w := p + tail;
    AbsoluteWalks(base, p);
    AbsoluteWalks(base, w);
    SplitExtends(p, tail);
    var parts, start := Split(p), StartOf(base, p);
    assert StartOf(base, w) == start;
    var init, last := parts[..|parts| - 1], parts[|parts| - 1];
    assert parts == init + [last];
    WalkConcat(start, init, [last]);
    WalkConcat(start, init, [last + tail]);
    var at := Walk(start, init);
    StartIsPlain(base, p);
    WalkPlain(start, init);
    WalkPlain(start, parts);
    WalkPlain(start, Split(w));
    assert (last + tail)[|last + tail| - 1] == tail[|tail| - 1];
    assert Walk(start, Split(w)) == at + [last + tail];
    assert Walk(start, parts) == Enter(at, last);
    EnterByName(at, last, last + tail);
    NamesOfRender(Walk(start, parts));
    NamesOfRender(Walk(start, Split(w)));
  }

  lemma StartIsPlain(base: string, v: string)
    requires IsAbs(base)
    ensures AllPlain(StartOf(base, v))
  {
    CleanIsClean(base);
  }

  /** How much of a line's value a reader takes for its ending. */
  function Lost(w: string, ending: string): nat
    requires w != ""
  {
    if !Ambiguous(w, ending) then 0
    else if w[|w| - 1] == LF && |w| > 1 && w[|w| - 2] == CR then 2
    else 1
  }

  /** A value that is nothing but such a character cannot be read at all. */
  lemma NothingLeft(prefix: string, w: string, ending: string, base: string)
    requires IsAbs(base) && |w| == 1 && Ambiguous(w, ending)
    requires ending == "" || ending == [LF] || ending == [CR, LF]
    ensures RecordBinding(prefix + w + ending, prefix, base) == None
  {
    var data := prefix + w + ending;
    var value := TrimSuffix(TrimSuffix(data, LF), CR);
    assert data[|prefix|] == w[0] && |data| == |prefix| + 1 + |ending|;
    if ending == [LF] { assert TrimSuffix(data, LF) == prefix + w; }
    assert |value| <= |prefix|;
    hide Absolute;
  }

  /** What a reader makes of a longer one. */
  lemma StripLine(prefix: string, w: string, ending: string)
    requires |w| > 1 && Ambiguous(w, ending)
    requires ending == "" || ending == [LF] || ending == [CR, LF]
    ensures TrimSuffix(TrimSuffix(prefix + w + ending, LF), CR) == prefix + w[..|w| - Lost(w, ending)]
  {
    var line, n := prefix + w, |w|;
    assert line[|line| - 1] == w[n - 1] && line[|line| - 2] == w[n - 2];
    assert line[..|line| - 1] == prefix + w[..n - 1] && line[..|line| - 2] == prefix + w[..n - 2];
    if ending == [LF] {
      assert TrimSuffix(line + ending, LF) == line;
    } else {
      assert line + ending == line;
    }
  }

  lemma LineRead(prefix: string, w: string, ending: string, base: string)
    requires IsAbs(base) && |w| > 1 && NUL !in w && Ambiguous(w, ending)
    requires ending == "" || ending == [LF] || ending == [CR, LF]
    ensures var p := w[..|w| - Lost(w, ending)];
            RecordBinding(prefix + w + ending, prefix, base) == if p == "" then None else Some(Absolute(base, p))
  {
    StripLine(prefix, w, ending);
    hide Absolute, Ambiguous, TrimSuffix, Lost;
    var p := w[..|w| - Lost(w, ending)];
    assert prefix <= prefix + p && (prefix + p)[|prefix|..] == p;
  }

  /** A line reads back if and only if no reader takes the value's tail for part of the line ending. */
  lemma LineReadsBackExactly(prefix: string, w: string, ending: string, base: string)
    requires IsAbs(base) && w != "" && NUL !in w
    requires ending == "" || ending == [LF] || ending == [CR, LF]
    ensures RecordBinding(prefix + w + ending, prefix, base) == Some(Absolute(base, w)) <==> !Ambiguous(w, ending)
  {
    hide RecordBinding, Absolute;
    if !Ambiguous(w, ending) {
      LineReadsBack(prefix, w, ending, base);
    } else if |w| == 1 {
      NothingLeft(prefix, w, ending, base);
    } else {
      LineRead(prefix, w, ending, base);
      var k := |w| - Lost(w, ending);
      assert w == w[..k] + w[k..] && SEP !in w[k..];
      if k > 0 { ShorterNamesElsewhere(base, w[..k], w[k..]); }
    }
  }

  /** An image reads back, from the new place, as exactly the target, with the line ending and the style of the
      file it replaces, if and only if the tail of the value it carries is not mistaken for a line ending. */
  lemma ImageReadsBackExactly(before: string, prefix: string, oldBase: string, newBase: string, target: string)
    requires IsAbs(newBase) && IsClean(target) && NUL !in target
    requires Value(before, prefix).Some?
    ensures ReadsBack(Image(before, prefix, oldBase, newBase, target), before, prefix, newBase, target)
            <==> !Ambiguous(Carried(before, prefix, oldBase, newBase, target), Ending(before))
  {
    ImageIsLine(before, prefix, oldBase, newBase, target);
    EndingParts(before);
    var w := Carried(before, prefix, oldBase, newBase, target);
    hide Carried, Image, Absolute, IsClean, IsAbs, Value, Ending;
    LineReadsBackExactly(prefix, w, Ending(before), newBase);
    if !Ambiguous(w, Ending(before)) { LineReadsBack(prefix, w, Ending(before), newBase); }
  }

  /** A back pointer with no line ending, to a target whose name ends in a carriage return: it is rewritten
      without complaint, and the image reads back as another path. */
  lemma MisreadImage() returns (before: string, oldBase: string, newBase: string, target: string)
    ensures IsClean(oldBase) && IsClean(newBase) && Names(oldBase) != [] && Names(newBase) != []
    ensures IsClean(target) && NUL !in target && !Refused(before, "", oldBase, target)
    ensures !ReadsBack(Image(before, "", oldBase, newBase, target), before, "", newBase, target)
  {
    oldBase, newBase, target := Render(["a"]), Render(["b"]), Render([['t', CR]]);
    before := target;
    NamesOfRender(["a"]);
    NamesOfRender(["b"]);
    NamesOfRender([['t', CR]]);
    assert target == [SEP, 't', CR];
    assert Ending(before) == "" && Body(before) == before;
    assert Value(before, "") == Some(target);
    ImageReadsBackExactly(before, "", oldBase, newBase, target);
  }

  /** Rewriting is minimal: a relative back pointer that still names its target stays byte for byte, and so does
      a forward pointer that does not pass through the moving directory. */
  lemma ImageIsMinimal(before: string, prefix: string, oldBase: string, newBase: string, target: string)
    requires IsAbs(newBase) && Value(before, prefix).Some?
    ensures var v := Value(before, prefix).value;
            Keeps(prefix, oldBase, newBase, target, v) ==> Image(before, prefix, oldBase, newBase, target) == before
    ensures var v := Value(before, prefix).value;
            prefix != FORWARD && !IsAbs(v) && Absolute(newBase, v) == target
            ==> Image(before, prefix, oldBase, newBase, target) == before
  {
  }
}
