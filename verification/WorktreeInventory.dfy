/** Git's porcelain worktree inventory: the one-pass parser, its meaning block by block, and the exclusion of
    scratch worktrees.  Paths are taken as already normalised. */
module WorktreeInventory {
  import opened Options
  import opened Strings

  datatype Record = Record(
    path: string, head: Option<string>, branch: Option<string>, detached: Option<bool>, bare: bool,
    locked: bool, lockReason: Option<string>, prunable: bool, prunableReason: Option<string>)

  const NO_RECORD := Record("", None, None, None, false, false, None, false, None)

  datatype Inventory = Inventory(
    available: bool, records: seq<Record>, byPath: map<string, Record>, byBranch: map<string, string>,
    prunable: set<string>)

  const UNAVAILABLE := Inventory(false, [], map[], map[], {})

  // ---------- lines ----------

  const WORKTREE: string := "worktree "
  const HEAD: string := "HEAD "
  const BRANCH: string := "branch "
  const HEADS: string := "refs/heads/"
  const LOCKED: string := "locked "
  const PRUNABLE: string := "prunable "

  /** `unicode.IsSpace`. */
  predicate IsSpace(c: char) {
    || '\t' <= c <= '\r' || c == ' ' || c == '\U{0085}' || c == '\U{00A0}' || c == '\U{1680}'
    || '\U{2000}' <= c <= '\U{200A}' || c == '\U{2028}' || c == '\U{2029}' || c == '\U{202F}' || c == '\U{205F}'
    || c == '\U{3000}'
  }

  /** `strings.TrimSpace(s) == ""`. */
  predicate Blank(s: string) {
    forall i :: 0 <= i < |s| ==> IsSpace(s[i])
  }

  predicate IsObjectId(s: string) {
    |s| > 0 && forall i :: 0 <= i < |s| ==> '0' <= s[i] <= '9' || 'a' <= s[i] <= 'f'
  }

  /** `strings.TrimRight(s, "\r")`. */
  function TrimReturns(s: string): string {
    if |s| > 0 && s[|s| - 1] == '\r' then TrimReturns(s[..|s| - 1]) else s
  }

  function TrimAll(ls: seq<string>): (r: seq<string>)
    ensures |r| == |ls| && forall i :: 0 <= i < |ls| ==> r[i] == TrimReturns(ls[i])
  {
    if |ls| == 0 then [] else TrimAll(ls[..|ls| - 1]) + [TrimReturns(ls[|ls| - 1])]
  }

  function Lines(text: string): seq<string> {
    TrimAll(SplitAt(text, '\n'))
  }

  // ---------- one block ----------

  /** A block being read: the record so far, and whether a line was malformed. */
  datatype Block = Block(rec: Record, failed: bool)

  function Read(b: Block, line: string): Block {
    var r := b.rec;
    if b.failed then b
    else if WORKTREE <= line then
      (if Blank(line[|WORKTREE|..]) then Block(r, true) else Block(r.(path := line[|WORKTREE|..]), false))
    else if HEAD <= line then
      (if IsObjectId(line[|HEAD|..]) then Block(r.(head := Some(line[|HEAD|..])), false) else Block(r, true))
    else if BRANCH <= line then
      var ref := line[|BRANCH|..];
      (if !(HEADS < ref) || r.detached == Some(true) then Block(r, true)
       else Block(r.(branch := Some(ref), detached := Some(false)), false))
    else if line == "detached" then
      (if r.branch.Some? then Block(r, true) else Block(r.(detached := Some(true)), false))
    else if line == "bare" then Block(r.(bare := true), false)
    else if line == "locked" then Block(r.(locked := true), false)
    else if LOCKED <= line then Block(r.(locked := true, lockReason := Some(line[|LOCKED|..])), false)
    else if line == "prunable" then Block(r.(prunable := true), false)
    else if PRUNABLE <= line then Block(r.(prunable := true, prunableReason := Some(line[|PRUNABLE|..])), false)
    else b
  }

  function ReadFrom(b: Block, lines: seq<string>): Block {
    if |lines| == 0 then b else Read(ReadFrom(b, lines[..|lines| - 1]), lines[|lines| - 1])
  }

  function ReadBlock(lines: seq<string>): Block {
    ReadFrom(Block(NO_RECORD, false), lines)
  }

  predicate WellFormed(block: seq<string>) {
    !ReadBlock(block).failed && ReadBlock(block).rec.path != ""
  }

  // ---------- blocks ----------

  /** The lines since the last blank one. */
  function Open(lines: seq<string>): seq<string> {
    if |lines| == 0 || Blank(lines[|lines| - 1]) then [] else Open(lines[..|lines| - 1]) + [lines[|lines| - 1]]
  }

  /** The runs of lines that a blank line ended. */
  function Closed(lines: seq<string>): seq<seq<string>> {
    if |lines| == 0 then []
    else
      var before := lines[..|lines| - 1];
      Closed(before) + if Blank(lines[|lines| - 1]) && Open(before) != [] then [Open(before)] else []
  }

  function Blocks(lines: seq<string>): seq<seq<string>> {
    Closed(lines) + if Open(lines) != [] then [Open(lines)] else []
  }

  predicate HasPath(rs: seq<Record>, path: string) {
    exists i :: 0 <= i < |rs| && rs[i].path == path
  }

  /** The records of the blocks, when every block is well-formed and no path comes twice. */
  function RecordsOf(blocks: seq<seq<string>>): Option<seq<Record>> {
    if |blocks| == 0 then Some([])
    else
      var last := blocks[|blocks| - 1];
      match RecordsOf(blocks[..|blocks| - 1])
      case None => None
      case Some(rs) =>
        if WellFormed(last) && !HasPath(rs, ReadBlock(last).rec.path) then Some(rs + [ReadBlock(last).rec]) else None
  }

  function Short(ref: string): string {
    if HEADS <= ref then ref[|HEADS|..] else ref
  }

  function Add(inv: Inventory, r: Record): Inventory {
    var next := inv.(records := inv.records + [r], byPath := inv.byPath[r.path := r]);
    if r.branch.None? then next
    else if r.prunable then next.(prunable := inv.prunable + {Short(r.branch.value)})
    else next.(byBranch := inv.byBranch[Short(r.branch.value) := r.path])
  }

  function Collect(rs: seq<Record>): Inventory {
    if |rs| == 0 then UNAVAILABLE.(available := true) else Add(Collect(rs[..|rs| - 1]), rs[|rs| - 1])
  }

  /** What an inventory text means. */
  function Meaning(lines: seq<string>): Inventory {
    match RecordsOf(Blocks(lines)) case None => UNAVAILABLE case Some(rs) => Collect(rs)
  }

  lemma HasPathMore(rs: seq<Record>, r: Record, p: string)
    ensures HasPath(rs + [r], p) <==> HasPath(rs, p) || p == r.path
  {
    if HasPath(rs, p) {
      var i :| 0 <= i < |rs| && rs[i].path == p;
      assert (rs + [r])[i].path == p;
    }
    assert (rs + [r])[|rs|] == r;
  }

  lemma {:induction false} CollectPath(rs: seq<Record>, p: string)
    ensures p in Collect(rs).byPath <==> HasPath(rs, p)
  {
    if |rs| > 0 {
      var t, r := rs[..|rs| - 1], rs[|rs| - 1];
      CollectPath(t, p);
      assert rs == t + [r];
      HasPathMore(t, r, p);
      hide HasPath;
    }
  }

  lemma {:induction false} CollectShape(rs: seq<Record>)
    ensures Collect(rs).available && Collect(rs).records == rs
    ensures forall p :: p in Collect(rs).byPath <==> HasPath(rs, p)
  {
    hide HasPath;
    if |rs| > 0 {
      CollectShape(rs[..|rs| - 1]);
      assert rs == rs[..|rs| - 1] + [rs[|rs| - 1]];
    }
    forall p ensures p in Collect(rs).byPath <==> HasPath(rs, p) { CollectPath(rs, p); }
  }

  lemma BlankEnds(lines: seq<string>, line: string)
    requires Blank(line)
    ensures Closed(lines + [line]) == Blocks(lines) && Open(lines + [line]) == []
  {
    assert (lines + [line])[..|lines|] == lines;
  }

  lemma TextContinues(lines: seq<string>, line: string)
    requires !Blank(line)
    ensures Closed(lines + [line]) == Closed(lines) && Open(lines + [line]) == Open(lines) + [line]
    ensures ReadBlock(Open(lines + [line])) == Read(ReadBlock(Open(lines)), line)
  {
    assert (lines + [line])[..|lines|] == lines;
    assert (Open(lines) + [line])[..|Open(lines)|] == Open(lines);
  }

  lemma BlocksRecords(lines: seq<string>)
    ensures RecordsOf(Blocks(lines))
            == if Open(lines) == [] || RecordsOf(Closed(lines)).None? then RecordsOf(Closed(lines))
               else if WellFormed(Open(lines))
                       && !HasPath(RecordsOf(Closed(lines)).value, ReadBlock(Open(lines)).rec.path)
               then Some(RecordsOf(Closed(lines)).value + [ReadBlock(Open(lines)).rec])
               else None
  {
    if Open(lines) == [] {
      assert Blocks(lines) == Closed(lines);
    } else {
      assert Blocks(lines)[..|Closed(lines)|] == Closed(lines);
    }
  }

  lemma CollectMore(rs: seq<Record>, r: Record)
    ensures Collect(rs + [r]) == Add(Collect(rs), r)
  {
    assert (rs + [r])[..|rs|] == rs;
  }

  // ---------- what a block says ----------

  ghost predicate BadWorktree(s: string) { exists p :: s == "worktree " + p && Blank(p) }

  ghost predicate BadHead(s: string) {
    exists h :: s == "HEAD " + h && (h == "" || exists i :: 0 <= i < |h| && h[i] !in "0123456789abcdef")
  }

  ghost predicate BadBranch(s: string) {
    exists b :: s == "branch " + b && (b == "refs/heads/" || !("refs/heads/" <= b))
  }

  /** A line that is malformed by itself: a worktree without a path, a head that is no object id, a branch that is no
      ref of a branch. */
  ghost predicate BadLine(s: string) {
    BadWorktree(s) || BadHead(s) || BadBranch(s)
  }

  ghost predicate Starting(lines: seq<string>, prefix: string) {
    exists i :: 0 <= i < |lines| && prefix <= lines[i]
  }

  /** The last line that starts so says this, and there is none exactly when nothing is said. */
  ghost predicate LastSays(lines: seq<string>, prefix: string, o: Option<string>) {
    && (o.None? <==> !Starting(lines, prefix))
    && (o.Some? ==> exists i :: && 0 <= i < |lines| && lines[i] == prefix + o.value
                                && forall j :: i < j < |lines| ==> !(prefix <= lines[j]))
  }

  lemma {:induction false} LastStep(lines: seq<string>, line: string, prefix: string, o: Option<string>)
    requires LastSays(lines, prefix, o)
    ensures LastSays(lines + [line], prefix, if prefix <= line then Some(line[|prefix|..]) else o)
  {
    var more := lines + [line];
    assert forall i :: 0 <= i < |lines| ==> more[i] == lines[i];
    assert more[|lines|] == line;
    if prefix <= line { assert more[|lines|] == prefix + line[|prefix|..]; }
  }

  lemma StartingStep(lines: seq<string>, line: string, prefix: string)
    ensures Starting(lines + [line], prefix) <==> Starting(lines, prefix) || prefix <= line
  {
    var more := lines + [line];
    assert forall i :: 0 <= i < |lines| ==> more[i] == lines[i];
    assert more[|lines|] == line;
  }

  lemma Continues(line: string, prefix: string, rest: string)
    ensures line == prefix + rest <==> prefix <= line && rest == line[|prefix|..]
  {
  }

  lemma BadWorktreeIs(line: string)
    ensures BadWorktree(line) <==> WORKTREE <= line && Blank(line[|WORKTREE|..])
  {
    hide Blank;
    forall p ensures line == WORKTREE + p <==> WORKTREE <= line && p == line[|WORKTREE|..] {
      Continues(line, WORKTREE, p);
    }
  }

  lemma BadHeadIs(line: string)
    ensures BadHead(line) <==> HEAD <= line && !IsObjectId(line[|HEAD|..])
  {
    hide IsObjectId;
    forall h ensures line == HEAD + h <==> HEAD <= line && h == line[|HEAD|..] { Continues(line, HEAD, h); }
    if HEAD <= line { HexDigits(line[|HEAD|..]); }
  }

  lemma BadBranchIs(line: string)
    ensures BadBranch(line) <==> BRANCH <= line && !(HEADS < line[|BRANCH|..])
  {
    forall b ensures line == BRANCH + b <==> BRANCH <= line && b == line[|BRANCH|..] { Continues(line, BRANCH, b); }
    if BRANCH <= line {
      var b := line[|BRANCH|..];
      assert line == "branch " + b;
      assert HEADS <= b && |b| == |HEADS| ==> b[..|HEADS|] == b == HEADS;
      assert HEADS < b <==> HEADS <= b && b != HEADS;
    }
  }

  lemma HexDigits(h: string)
    ensures IsObjectId(h) <==> h != "" && forall i :: 0 <= i < |h| ==> h[i] in "0123456789abcdef"
  {
    forall c ensures c in "0123456789abcdef" <==> '0' <= c <= '9' || 'a' <= c <= 'f' { HexDigit(c); }
  }

  lemma HexDigit(c: char)
    ensures c in "0123456789abcdef" <==> '0' <= c <= '9' || 'a' <= c <= 'f'
  {
  }

  /** The word stands alone on some line, or some line gives it a reason; the last reason counts. */
  ghost predicate NoteSays(lines: seq<string>, word: string, noted: bool, reason: Option<string>) {
    (noted <==> word in lines || Starting(lines, word + " ")) && LastSays(lines, word + " ", reason)
  }

  /** What a block that is not malformed says: the last worktree, HEAD and branch line count, the words count wherever
      they stand. */
  ghost predicate BlockSays(lines: seq<string>, r: Record) {
    && LastSays(lines, "worktree ", if r.path == "" then None else Some(r.path))
    && LastSays(lines, "HEAD ", r.head) && LastSays(lines, "branch ", r.branch)
    && (r.detached == Some(true) <==> "detached" in lines) && (r.detached == Some(false) <==> r.branch.Some?)
    && (r.bare <==> "bare" in lines)
    && NoteSays(lines, "locked", r.locked, r.lockReason) && NoteSays(lines, "prunable", r.prunable, r.prunableReason)
  }

  /** A block fails exactly when some line is malformed by itself or the block is both detached and on a branch. */
  ghost predicate BlockFails(lines: seq<string>) {
    || (exists i :: 0 <= i < |lines| && BadLine(lines[i]))
    || ("detached" in lines && Starting(lines, "branch "))
  }

  lemma {:induction false} BlockReads(lines: seq<string>)
    ensures ReadBlock(lines).failed <==> BlockFails(lines)
    ensures !ReadBlock(lines).failed ==> BlockSays(lines, ReadBlock(lines).rec)
  {
    if |lines| == 0 {
      NothingSays();
    } else {
      var t, line := lines[..|lines| - 1], lines[|lines| - 1];
      assert lines == t + [line];
      BlockReads(t);
      assert ReadBlock(lines) == Read(ReadBlock(t), line);
      hide *;
      FailsOn(t, line, ReadBlock(t));
      if !Read(ReadBlock(t), line).failed { SaysOn(t, line, ReadBlock(t)); }
    }
  }

  lemma NothingSays()
    ensures ReadBlock([]) == Block(NO_RECORD, false) && BlockSays([], NO_RECORD) && !BlockFails([])
  {
  }

  lemma FailsOn(t: seq<string>, line: string, b: Block)
    requires b.failed <==> BlockFails(t)
    requires !b.failed ==> BlockSays(t, b.rec)
    ensures Read(b, line).failed <==> BlockFails(t + [line])
    ensures b.failed ==> Read(b, line).failed
  {
    FailsMore(t, line);
    BadWorktreeIs(line);
    BadHeadIs(line);
    BadBranchIs(line);
    Kinds(line);
    hide BlockFails, BadWorktree, BadHead, BadBranch, Starting, NoteSays, Blank, IsObjectId;
    if !b.failed {
      assert Starting(t, "branch ") <==> b.rec.branch.Some?;
      assert "detached" in t <==> b.rec.detached == Some(true);
      hide BlockSays, LastSays;
    }
  }

  lemma FailsMore(t: seq<string>, line: string)
    ensures BlockFails(t + [line]) <==>
              || BlockFails(t) || BadLine(line)
              || (line == "detached" && Starting(t, "branch ")) || ("detached" in t && "branch " <= line)
  {
    StartingStep(t, line, "branch ");
    var more := t + [line];
    assert forall i :: 0 <= i < |t| ==> more[i] == t[i];
    assert more[|t|] == line;
    assert "detached"[0] != "branch "[0];
    hide BadLine, Starting;
  }

  lemma SaysOn(t: seq<string>, line: string, b: Block)
    requires !b.failed && !Read(b, line).failed && BlockSays(t, b.rec)
    ensures BlockSays(t + [line], Read(b, line).rec)
  {
    hide LastSays, NoteSays, Blank, IsObjectId;
    var r := b.rec;
    Kinds(line);
    LastStep(t, line, WORKTREE, if r.path == "" then None else Some(r.path));
    LastStep(t, line, HEAD, r.head);
    LastStep(t, line, BRANCH, r.branch);
    NoteStep(t, line, "locked", r.locked, r.lockReason);
    NoteStep(t, line, "prunable", r.prunable, r.prunableReason);
    if WORKTREE <= line { BlankEmpty(line[|WORKTREE|..]); }
  }

  lemma BlankEmpty(s: string)
    ensures s == "" ==> Blank(s)
  {
  }

  lemma NoteStep(t: seq<string>, line: string, word: string, noted: bool, reason: Option<string>)
    requires NoteSays(t, word, noted, reason)
    ensures NoteSays(t + [line], word, noted || line == word || word + " " <= line,
                     if word + " " <= line then Some(line[|word| + 1..]) else reason)
  {
    StartingStep(t, line, word + " ");
    LastStep(t, line, word + " ", reason);
    hide Starting, LastSays;
  }

  /** No line is of two kinds. */
  lemma Kinds(line: string)
    ensures WORKTREE <= line ==> line[0] == 'w'
    ensures HEAD <= line ==> line[0] == 'H'
    ensures BRANCH <= line ==> line[..2] == "br"
    ensures LOCKED <= line ==> line[0] == 'l' && line != "locked"
    ensures PRUNABLE <= line ==> line[0] == 'p' && line != "prunable"
  {
  }

  // ---------- what the blocks of a text are ----------

  /** Every character with the White_Space property. */
  const WHITE: string :=
    "\t\n\U{000B}\U{000C}\r \U{0085}\U{00A0}\U{1680}\U{2000}\U{2001}\U{2002}\U{2003}\U{2004}\U{2005}\U{2006}\U{2007}"
    + "\U{2008}\U{2009}\U{200A}\U{2028}\U{2029}\U{202F}\U{205F}\U{3000}"

  lemma SpaceIsWhite(c: char)
    ensures IsSpace(c) <==> c in WHITE
  {
  }

  lemma BlankIsWhite(s: string)
    ensures Blank(s) <==> forall i :: 0 <= i < |s| ==> s[i] in WHITE
  {
    forall c: char ensures IsSpace(c) <==> c in WHITE { SpaceIsWhite(c); }
    hide IsSpace;
  }

  /** A text of lines that are not all white is one block, and a white line parts the blocks before it from those behind
      it. */
  lemma BlocksPart(x: seq<string>, blank: string, y: seq<string>)
    requires forall i :: 0 <= i < |blank| ==> blank[i] in WHITE
    ensures Blocks(x + [blank] + y) == Blocks(x) + Blocks(y)
    ensures (forall i :: 0 <= i < |x| ==> exists k :: 0 <= k < |x[i]| && x[i][k] !in WHITE) ==>
              Blocks(x) == if x == [] then [] else [x]
  {
    BlankIsWhite(blank);
    forall i | 0 <= i < |x|
      ensures Blank(x[i]) <==> forall k :: 0 <= k < |x[i]| ==> x[i][k] in WHITE
    {
      BlankIsWhite(x[i]);
    }
    BlankParts(x, blank, y);
    hide Blank, Blocks;
  }

  lemma BlankParts(x: seq<string>, blank: string, y: seq<string>)
    requires Blank(blank)
    ensures Blocks(x + [blank] + y) == Blocks(x) + Blocks(y)
    ensures (forall i :: 0 <= i < |x| ==> !Blank(x[i])) ==> Blocks(x) == if x == [] then [] else [x]
  {
    BlankEnds(x, blank);
    PartGrows(x + [blank], y);
    if forall i :: 0 <= i < |x| ==> !Blank(x[i]) { OneBlock(x); }
    hide Blank, Open, Closed;
  }

  lemma OneBlock(x: seq<string>)
    requires forall i :: 0 <= i < |x| ==> !Blank(x[i])
    ensures Blocks(x) == if x == [] then [] else [x]
  {
    OpenGrows([], x);
    assert [] + x == x;
  }

  lemma {:induction false} PartGrows(x: seq<string>, y: seq<string>)
    requires Open(x) == []
    ensures Open(x + y) == Open(y) && Closed(x + y) == Closed(x) + Closed(y)
  {
    if |y| == 0 {
      assert x + y == x;
    } else {
      var t := y[..|y| - 1];
      assert (x + y)[..|x + y| - 1] == x + t;
      PartGrows(x, t);
    }
  }

  /** Line feeds part the lines, and returns at the end of a line are no part of it. */
  lemma LinesTrimmed(raw: seq<string>, lines: seq<string>)
    requires |raw| > 0 && |raw| == |lines|
    requires forall i :: 0 <= i < |raw| ==> OneLine(lines[i]) && ReturnsAfter(raw[i], lines[i])
    ensures Lines(JoinWith(raw, '\n')) == lines
  {
    forall i | 0 <= i < |raw| ensures '\n' !in raw[i] && TrimReturns(raw[i]) == lines[i] {
      ReturnsTrimmed(raw[i], lines[i]);
    }
    SplitOfJoin(raw, '\n');
  }

  /** The text is followed by returns and nothing else. */
  ghost predicate ReturnsAfter(raw: string, s: string) {
    s <= raw && forall k :: |s| <= k < |raw| ==> raw[k] == '\r'
  }

  lemma {:induction false} ReturnsTrimmed(raw: string, s: string)
    requires OneLine(s) && ReturnsAfter(raw, s)
    ensures '\n' !in raw && TrimReturns(raw) == s
  {
    if |raw| > |s| { ReturnsTrimmed(raw[..|raw| - 1], s); } else { assert raw == s; }
  }

  // ---------- what an inventory says ----------

  /** The ref is this branch's, or this name itself if it is no branch's. */
  ghost predicate OnBranch(r: Record, b: string) {
    r.branch.Some? && (r.branch.value == "refs/heads/" + b || (r.branch.value == b && !("refs/heads/" <= b)))
  }

  /** The three tables agree with the records: each path leads to its last record, the prunable names are the branches
      of prunable records, and each branch of another record leads to the path of the last such record. */
  ghost predicate TablesAgree(inv: Inventory) {
    && (forall p :: p in inv.byPath <==> exists i :: 0 <= i < |inv.records| && inv.records[i].path == p)
    && (forall i :: 0 <= i < |inv.records| ==> inv.records[i].path in inv.byPath)
    && (forall i :: 0 <= i < |inv.records| && LastPath(inv.records, i) ==>
          inv.byPath[inv.records[i].path] == inv.records[i])
    && (forall b :: b in inv.prunable <==>
          exists i :: 0 <= i < |inv.records| && inv.records[i].prunable && OnBranch(inv.records[i], b))
    && (forall b :: b in inv.byBranch <==> exists i :: Checked(inv.records, i, b))
    && (forall b, i :: 0 <= i < |inv.records| && LastChecked(inv.records, i, b) ==>
          b in inv.byBranch && inv.byBranch[b] == inv.records[i].path)
  }

  ghost predicate LastPath(rs: seq<Record>, i: int)
    requires 0 <= i < |rs|
  {
    forall j :: i < j < |rs| ==> rs[j].path != rs[i].path
  }

  ghost predicate Checked(rs: seq<Record>, i: int, b: string) {
    0 <= i < |rs| && !rs[i].prunable && OnBranch(rs[i], b)
  }

  ghost predicate LastChecked(rs: seq<Record>, i: int, b: string) {
    Checked(rs, i, b) && forall j :: i < j ==> !Checked(rs, j, b)
  }

  lemma ShortIs(r: Record, b: string)
    requires r.branch.Some?
    ensures OnBranch(r, b) <==> b == Short(r.branch.value)
  {
    Continues(r.branch.value, HEADS, b);
  }

  lemma {:induction false} PathsAre(rs: seq<Record>, i: nat)
    requires i < |rs| && LastPath(rs, i)
    ensures rs[i].path in Collect(rs).byPath && Collect(rs).byPath[rs[i].path] == rs[i]
  {
    var t, r := rs[..|rs| - 1], rs[|rs| - 1];
    if i < |t| {
      assert t[i] == rs[i] && rs[|rs| - 1].path != rs[i].path;
      PathsAre(t, i);
    }
  }

  lemma {:induction false} PrunableAre(rs: seq<Record>, b: string)
    ensures b in Collect(rs).prunable <==> exists i :: 0 <= i < |rs| && rs[i].prunable && OnBranch(rs[i], b)
  {
    hide OnBranch;
    if |rs| > 0 {
      var t, r := rs[..|rs| - 1], rs[|rs| - 1];
      PrunableAre(t, b);
      assert forall i :: 0 <= i < |t| ==> t[i] == rs[i];
      OnOrOff(r, b);
    }
  }

  lemma OnOrOff(r: Record, b: string)
    ensures OnBranch(r, b) <==> r.branch.Some? && b == Short(r.branch.value)
  {
    if r.branch.Some? { ShortIs(r, b); }
  }

  lemma {:induction false} BranchesAre(rs: seq<Record>, b: string)
    ensures b in Collect(rs).byBranch <==> exists i :: Checked(rs, i, b)
  {
    hide OnBranch;
    if |rs| > 0 {
      var t, r := rs[..|rs| - 1], rs[|rs| - 1];
      BranchesAre(t, b);
      OnOrOff(r, b);
      assert forall i :: 0 <= i < |t| ==> t[i] == rs[i] && (Checked(t, i, b) <==> Checked(rs, i, b));
      assert Checked(rs, |t|, b) <==> !r.prunable && OnBranch(r, b);
    }
  }

  lemma {:induction false} LastBranch(rs: seq<Record>, b: string, i: nat)
    requires LastChecked(rs, i, b)
    ensures i < |rs| && b in Collect(rs).byBranch && Collect(rs).byBranch[b] == rs[i].path
  {
    hide OnBranch;
    var t, r := rs[..|rs| - 1], rs[|rs| - 1];
    OnOrOff(r, b);
    assert Checked(rs, |t|, b) <==> !r.prunable && OnBranch(r, b);
    if i < |t| {
      assert forall j :: 0 <= j < |t| ==> t[j] == rs[j];
      assert forall j :: Checked(t, j, b) ==> Checked(rs, j, b);
      assert LastChecked(t, i, b);
      LastBranch(t, b, i);
    }
  }

  lemma CollectAgrees(rs: seq<Record>)
    ensures TablesAgree(Collect(rs)) && Collect(rs).records == rs && Collect(rs).available
  {
    CollectShape(rs);
    hide Collect, LastPath, Checked, LastChecked, OnBranch;
    forall i | 0 <= i < |rs| && LastPath(rs, i) ensures Collect(rs).byPath[rs[i].path] == rs[i] { PathsAre(rs, i); }
    forall b
      ensures b in Collect(rs).prunable <==> exists i :: 0 <= i < |rs| && rs[i].prunable && OnBranch(rs[i], b)
      ensures b in Collect(rs).byBranch <==> exists i :: Checked(rs, i, b)
    {
      PrunableAre(rs, b);
      BranchesAre(rs, b);
    }
    forall b, i: nat | i < |rs| && LastChecked(rs, i, b)
      ensures b in Collect(rs).byBranch && Collect(rs).byBranch[b] == rs[i].path
    {
      LastBranch(rs, b, i);
    }
  }

  /** What parsing some lines gives: nothing unless every block is in order and no path comes twice, and otherwise one
      record for each block that says what the block says, with tables that agree. */
  lemma MeaningSays(lines: seq<string>)
    ensures var inv, blocks := Meaning(lines), Blocks(lines);
            && (inv.available <==>
                  && (forall i :: 0 <= i < |blocks| ==> !BlockFails(blocks[i]) && Starting(blocks[i], "worktree "))
                  && (forall i, j :: 0 <= i < j < |blocks| ==> PathOf(blocks[i]) != PathOf(blocks[j])))
            && (!inv.available ==>
                  inv.records == [] && inv.byPath == map[] && inv.byBranch == map[] && inv.prunable == {})
            && (inv.available ==>
                  && TablesAgree(inv) && |inv.records| == |blocks|
                  && (forall i :: 0 <= i < |blocks| ==> BlockSays(blocks[i], inv.records[i])))
  {
    var blocks := Blocks(lines);
    FailsClosed(lines);
    RecordsShape(blocks);
    forall i | 0 <= i < |blocks|
      ensures WellFormed(blocks[i]) <==> !BlockFails(blocks[i]) && Starting(blocks[i], "worktree ")
      ensures WellFormed(blocks[i]) ==> BlockSays(blocks[i], ReadBlock(blocks[i]).rec)
    {
      BlockReads(blocks[i]);
      PathSays(blocks[i]);
    }
    hide WellFormed, ReadBlock, BlockFails, BlockSays, Starting, Collect, TablesAgree, RecordsOf;
    if RecordsOf(blocks).Some? { CollectAgrees(RecordsOf(blocks).value); }
  }

  lemma PathSays(block: seq<string>)
    requires !ReadBlock(block).failed ==> BlockSays(block, ReadBlock(block).rec)
    ensures !ReadBlock(block).failed ==> (ReadBlock(block).rec.path != "" <==> Starting(block, "worktree "))
  {
    hide ReadBlock, NoteSays, Starting;
  }

  // ---------- the parser ----------

  /** `parseWorktreeInventoryWith`: one pass over the lines, one block in hand. */
  method Parse(text: string) returns (inv: Inventory)
    ensures inv == Meaning(Lines(text))
  {
    var lines := Lines(text);
    inv := UNAVAILABLE.(available := true);
    var rec, started, failure := NO_RECORD, false, false;
    hide Lines, Read, ReadBlock, Open, Closed, Blocks, RecordsOf, Collect, Blank;
    NothingInHand();
    for i := 0 to |lines|
      invariant InHand(lines[..i], inv, rec, started, failure)
    {
      assert lines[..i + 1] == lines[..i] + [lines[i]];
      if Blank(lines[i]) {
        BlankEnds(lines[..i], lines[i]);
        EmptyBlock();
        inv, failure := Flush(lines[..i], inv, rec, started, failure);
        rec, started := NO_RECORD, false;
      } else {
        started := true;
        TextContinues(lines[..i], lines[i]);
        FailureStays(ReadBlock(Open(lines[..i])), lines[i]);
        if !failure {
          var b := Read(Block(rec, false), lines[i]);
          rec, failure := b.rec, b.failed;
        }
      }
    }
    assert lines[..|lines|] == lines;
    inv, failure := Flush(lines, inv, rec, started, failure);
    if failure { inv := UNAVAILABLE; }
  }

  lemma NothingInHand()
    ensures InHand([], UNAVAILABLE.(available := true), NO_RECORD, false, false)
  {
  }

  lemma EmptyBlock()
    ensures ReadBlock([]) == Block(NO_RECORD, false)
  {
  }

  lemma FailureStays(b: Block, line: string)
    ensures b.failed ==> Read(b, line) == b
  {
  }

  /** The parser's variables after some lines, in terms of the blocks. */
  ghost predicate InHand(lines: seq<string>, inv: Inventory, rec: Record, started: bool, failure: bool) {
    && (started <==> Open(lines) != [])
    && (failure <==> RecordsOf(Closed(lines)).None? || ReadBlock(Open(lines)).failed)
    && (!failure ==> inv == Collect(RecordsOf(Closed(lines)).value) && rec == ReadBlock(Open(lines)).rec)
  }

  /** Ends the block in hand, if there is one. */
  method Flush(ghost lines: seq<string>, inv: Inventory, rec: Record, started: bool, failure: bool)
    returns (next: Inventory, failed: bool)
    requires InHand(lines, inv, rec, started, failure)
    ensures failed <==> RecordsOf(Blocks(lines)).None?
    ensures !failed ==> next == Collect(RecordsOf(Blocks(lines)).value)
  {
    BlocksRecords(lines);
    if Open(lines) == [] { EmptyBlock(); }
    hide ReadBlock, Open, Closed, Blocks, RecordsOf, Collect;
    if !started || failure { return inv, failure; }
    CollectShape(RecordsOf(Closed(lines)).value);
    CollectMore(RecordsOf(Closed(lines)).value, rec);
    if rec.path == "" || rec.path in inv.byPath { return inv, true; }
    return Add(inv, rec), false;
  }

  // ---------- failing closed ----------

  /** The paths of the blocks, well-formed or not. */
  function PathOf(block: seq<string>): string {
    ReadBlock(block).rec.path
  }

  ghost predicate AllGood(blocks: seq<seq<string>>) {
    && (forall i :: 0 <= i < |blocks| ==> WellFormed(blocks[i]))
    && (forall i, j :: 0 <= i < j < |blocks| ==> PathOf(blocks[i]) != PathOf(blocks[j]))
  }

  lemma {:induction false} RecordsShape(blocks: seq<seq<string>>)
    ensures RecordsOf(blocks).Some? <==> AllGood(blocks)
    ensures RecordsOf(blocks).Some? ==> |RecordsOf(blocks).value| == |blocks|
    ensures RecordsOf(blocks).Some? ==>
              forall i :: 0 <= i < |blocks| ==> RecordsOf(blocks).value[i] == ReadBlock(blocks[i]).rec
  {
    if |blocks| > 0 {
      var t, last := blocks[..|blocks| - 1], blocks[|blocks| - 1];
      hide ReadBlock;
      RecordsShape(t);
      assert forall i :: 0 <= i < |t| ==> t[i] == blocks[i];
      if AllGood(t) {
        assert HasPath(RecordsOf(t).value, PathOf(last)) <==> exists i :: 0 <= i < |t| && PathOf(t[i]) == PathOf(last);
      }
    }
  }

  /** One malformed or repeated block anywhere makes the whole inventory unavailable and empty, and nothing
      else does. */
  lemma FailsClosed(lines: seq<string>)
    ensures Meaning(lines).available <==> AllGood(Blocks(lines))
    ensures !Meaning(lines).available ==> Meaning(lines) == UNAVAILABLE
  {
    RecordsShape(Blocks(lines));
    if RecordsOf(Blocks(lines)).Some? { CollectShape(RecordsOf(Blocks(lines)).value); }
  }

  // ---------- printing ----------

  function Maybe(present: bool, line: string): seq<string> {
    if present then [line] else []
  }

  function BranchLines(r: Record): seq<string> {
    if r.branch.Some? then [BRANCH + r.branch.value] else Maybe(r.detached == Some(true), "detached")
  }

  function NoteLines(set_: bool, word: string, note: Option<string>): seq<string> {
    if note.Some? then [word + " " + note.value] else Maybe(set_, word)
  }

  /** One record in Git's porcelain form, without the blank line that ends it. */
  function Print(r: Record): seq<string> {
    [WORKTREE + r.path] + (if r.head.Some? then [HEAD + r.head.value] else []) + BranchLines(r)
    + Maybe(r.bare, "bare") + NoteLines(r.locked, "locked", r.lockReason)
    + NoteLines(r.prunable, "prunable", r.prunableReason)
  }

  /** Text that survives on one line. */
  predicate OneLine(s: string) {
    '\n' !in s && (|s| > 0 ==> s[|s| - 1] != '\r')
  }

  predicate Printable(r: Record) {
    && OneLine(r.path) && !Blank(r.path)
    && (r.head.Some? ==> IsObjectId(r.head.value))
    && (r.branch.Some? ==> HEADS < r.branch.value && OneLine(r.branch.value) && r.detached == Some(false))
    && (r.branch.None? ==> r.detached.None? || r.detached.value)
    && (r.lockReason.Some? ==> r.locked && OneLine(r.lockReason.value))
    && (r.prunableReason.Some? ==> r.prunable && OneLine(r.prunableReason.value))
  }

  lemma {:induction false} ReadConcat(b: Block, x: seq<string>, y: seq<string>)
    ensures ReadFrom(b, x + y) == ReadFrom(ReadFrom(b, x), y)
  {
    if |y| == 0 {
      assert x + y == x;
    } else {
      assert (x + y)[..|x + y| - 1] == x + y[..|y| - 1];
      ReadConcat(b, x, y[..|y| - 1]);
    }
  }

  lemma ReadOne(b: Block, line: string)
    ensures ReadFrom(b, [line]) == Read(b, line) && ReadFrom(b, []) == b
  {
    assert [line][..0] == [];
  }

  lemma ReadHead(r: Record, head: Option<string>)
    requires head.Some? ==> IsObjectId(head.value)
    requires r.head.None?
    ensures ReadFrom(Block(r, false), if head.Some? then [HEAD + head.value] else [])
            == Block(r.(head := head), false)
  {
    if head.Some? {
      ReadOne(Block(r, false), HEAD + head.value);
      assert (HEAD + head.value)[|HEAD|..] == head.value;
      assert (HEAD + head.value)[0] == 'H';
    } else {
      ReadOne(Block(r, false), "");
    }
  }

  lemma ReadBranch(r: Record, q: Record)
    requires Printable(q) && r.branch.None? && r.detached.None?
    ensures ReadFrom(Block(r, false), BranchLines(q))
            == Block(r.(branch := q.branch, detached := q.detached), false)
  {
    if q.branch.Some? {
      var line := BRANCH + q.branch.value;
      ReadOne(Block(r, false), line);
      assert line[|BRANCH|..] == q.branch.value;
      assert line[0] == 'b' && line[1] == 'r';
    } else if q.detached.Some? {
      ReadOne(Block(r, false), "detached");
      assert "detached"[0] == 'd';
    } else {
      assert BranchLines(q) == [] && q.detached == None;
      ReadOne(Block(r, false), "");
    }
  }

  lemma ReadBare(r: Record, bare: bool)
    requires !r.bare
    ensures ReadFrom(Block(r, false), Maybe(bare, "bare")) == Block(r.(bare := bare), false)
  {
    ReadOne(Block(r, false), "bare");
    assert "bare"[1] == 'a' && BRANCH[1] == 'r';
  }

  lemma ReadLocked(r: Record, locked: bool, note: Option<string>)
    requires !r.locked && r.lockReason.None? && (note.Some? ==> locked)
    ensures ReadFrom(Block(r, false), NoteLines(locked, "locked", note))
            == Block(r.(locked := locked, lockReason := note), false)
  {
    if note.Some? {
      var line := "locked" + " " + note.value;
      ReadOne(Block(r, false), line);
      assert line == LOCKED + note.value;
      assert line[|LOCKED|..] == note.value;
      assert line[0] == 'l' && line[6] == ' ';
    } else {
      ReadOne(Block(r, false), "locked");
      assert "locked"[0] == 'l';
    }
  }

  lemma ReadPrunable(r: Record, prunable: bool, note: Option<string>)
    requires !r.prunable && r.prunableReason.None? && (note.Some? ==> prunable)
    ensures ReadFrom(Block(r, false), NoteLines(prunable, "prunable", note))
            == Block(r.(prunable := prunable, prunableReason := note), false)
  {
    if note.Some? {
      var line := "prunable" + " " + note.value;
      ReadOne(Block(r, false), line);
      assert line == PRUNABLE + note.value;
      assert line[|PRUNABLE|..] == note.value;
      assert line[0] == 'p' && line[8] == ' ';
    } else {
      ReadOne(Block(r, false), "prunable");
      assert "prunable"[0] == 'p';
    }
  }

  lemma ReadPath(path: string)
    requires !Blank(path)
    ensures ReadFrom(Block(NO_RECORD, false), [WORKTREE + path]) == Block(NO_RECORD.(path := path), false)
  {
    ReadOne(Block(NO_RECORD, false), WORKTREE + path);
    assert (WORKTREE + path)[|WORKTREE|..] == path;
  }

  /** A printed record is read back. */
  lemma PrintReads(r: Record)
    requires Printable(r)
    ensures ReadBlock(Print(r)) == Block(r, false)
  {
    var start := Block(NO_RECORD, false);
    var head := if r.head.Some? then [HEAD + r.head.value] else [];
    var bare, locked := Maybe(r.bare, "bare"), NoteLines(r.locked, "locked", r.lockReason);
    var prunable := NoteLines(r.prunable, "prunable", r.prunableReason);
    var branch := BranchLines(r);
    hide Read, ReadFrom, Maybe, NoteLines, BranchLines;
    var r1 := NO_RECORD.(path := r.path);
    ReadPath(r.path);
    ReadConcat(start, [WORKTREE + r.path], head);
    ReadHead(r1, r.head);
    var r2 := r1.(head := r.head);
    ReadConcat(start, [WORKTREE + r.path] + head, branch);
    ReadBranch(r2, r);
    var r3 := r2.(branch := r.branch, detached := r.detached);
    ReadConcat(start, [WORKTREE + r.path] + head + branch, bare);
    ReadBare(r3, r.bare);
    var r4 := r3.(bare := r.bare);
    ReadConcat(start, [WORKTREE + r.path] + head + branch + bare, locked);
    ReadLocked(r4, r.locked, r.lockReason);
    var r5 := r4.(locked := r.locked, lockReason := r.lockReason);
    ReadConcat(start, [WORKTREE + r.path] + head + branch + bare + locked, prunable);
    ReadPrunable(r5, r.prunable, r.prunableReason);
  }

  // ---------- texts of blocks ----------

  ghost predicate IsBlock(b: seq<string>) {
    |b| > 0 && forall i :: 0 <= i < |b| ==> !Blank(b[i])
  }

  /** Each block followed by a blank line. */
  function Unblocks(blocks: seq<seq<string>>): seq<string> {
    if |blocks| == 0 then [] else Unblocks(blocks[..|blocks| - 1]) + blocks[|blocks| - 1] + [""]
  }

  lemma {:induction false} OpenGrows(lines: seq<string>, b: seq<string>)
    requires forall i :: 0 <= i < |b| ==> !Blank(b[i])
    ensures Open(lines + b) == Open(lines) + b && Closed(lines + b) == Closed(lines)
  {
    if |b| == 0 {
      assert lines + b == lines;
    } else {
      assert lines + b == (lines + b[..|b| - 1]) + [b[|b| - 1]];
      OpenGrows(lines, b[..|b| - 1]);
      TextContinues(lines + b[..|b| - 1], b[|b| - 1]);
      assert Open(lines) + b == Open(lines) + b[..|b| - 1] + [b[|b| - 1]];
    }
  }

  /** The text of some blocks has those blocks. */
  lemma {:induction false} BlocksOfText(blocks: seq<seq<string>>)
    requires forall i :: 0 <= i < |blocks| ==> IsBlock(blocks[i])
    ensures Open(Unblocks(blocks)) == [] && Closed(Unblocks(blocks)) == blocks && Blocks(Unblocks(blocks)) == blocks
  {
    if |blocks| > 0 {
      var t, b := blocks[..|blocks| - 1], blocks[|blocks| - 1];
      BlocksOfText(t);
      OpenGrows(Unblocks(t), b);
      BlankEnds(Unblocks(t) + b, "");
      assert Open(Unblocks(t)) + b == b;
      assert blocks == t + [b];
    }
  }

  lemma {:induction false} BlocksAreBlocks(lines: seq<string>)
    ensures forall i :: 0 <= i < |Open(lines)| ==> !Blank(Open(lines)[i])
    ensures forall i :: 0 <= i < |Closed(lines)| ==> IsBlock(Closed(lines)[i])
  {
    if |lines| > 0 { BlocksAreBlocks(lines[..|lines| - 1]); }
  }

  // ---------- the round trip ----------

  function PrintBlocks(rs: seq<Record>): (bs: seq<seq<string>>)
    ensures |bs| == |rs| && forall i :: 0 <= i < |rs| ==> bs[i] == Print(rs[i])
  {
    if |rs| == 0 then [] else PrintBlocks(rs[..|rs| - 1]) + [Print(rs[|rs| - 1])]
  }

  /** The whole listing, every line ended by a line feed. */
  function PrintText(rs: seq<Record>): string {
    JoinWith(Unblocks(PrintBlocks(rs)) + [""], '\n')
  }

  ghost predicate Listing(rs: seq<Record>) {
    && (forall i :: 0 <= i < |rs| ==> Printable(rs[i]))
    && (forall i, j :: 0 <= i < j < |rs| ==> rs[i].path != rs[j].path)
  }

  lemma NotBlank(s: string, i: nat)
    requires i < |s| && !IsSpace(s[i])
    ensures !Blank(s)
  {
  }

  lemma ObjectIdOneLine(s: string)
    requires IsObjectId(s)
    ensures OneLine(s)
  {
  }

  predicate GoodLine(s: string) {
    !Blank(s) && OneLine(s)
  }

  lemma PrefixedLine(prefix: string, s: string)
    requires |prefix| > 0 && !IsSpace(prefix[0]) && '\n' !in prefix && prefix[|prefix| - 1] != '\r' && OneLine(s)
    ensures GoodLine(prefix + s)
  {
    NotBlank(prefix + s, 0);
  }

  lemma NoteGood(set_: bool, word: string, note: Option<string>)
    requires word == "locked" || word == "prunable"
    requires note.Some? ==> OneLine(note.value)
    ensures forall i :: 0 <= i < |NoteLines(set_, word, note)| ==> GoodLine(NoteLines(set_, word, note)[i])
  {
    PrefixedLine(word, "");
    assert word + "" == word;
    if note.Some? { PrefixedLine(word + " ", note.value); }
  }

  lemma BranchGood(r: Record)
    requires Printable(r)
    ensures forall i :: 0 <= i < |BranchLines(r)| ==> GoodLine(BranchLines(r)[i])
  {
    PrefixedLine("detached", "");
    assert "detached" + "" == "detached";
    if r.branch.Some? { PrefixedLine(BRANCH, r.branch.value); }
  }

  lemma PrintLines(r: Record)
    requires Printable(r)
    ensures IsBlock(Print(r)) && forall i :: 0 <= i < |Print(r)| ==> OneLine(Print(r)[i])
  {
    PrefixedLine(WORKTREE, r.path);
    if r.head.Some? {
      ObjectIdOneLine(r.head.value);
      PrefixedLine(HEAD, r.head.value);
    }
    BranchGood(r);
    PrefixedLine("bare", "");
    assert "bare" + "" == "bare";
    NoteGood(r.locked, "locked", r.lockReason);
    NoteGood(r.prunable, "prunable", r.prunableReason);
    hide NoteLines, BranchLines, Blank, OneLine;
    assert forall i :: 0 <= i < |Print(r)| ==> GoodLine(Print(r)[i]);
  }

  lemma {:induction false} TrimKeeps(ls: seq<string>)
    requires forall i :: 0 <= i < |ls| ==> OneLine(ls[i])
    ensures TrimAll(ls) == ls
  {
  }

  lemma {:induction false} TextLines(rs: seq<Record>)
    requires forall i :: 0 <= i < |rs| ==> Printable(rs[i])
    ensures forall i :: 0 <= i < |Unblocks(PrintBlocks(rs))| ==> OneLine(Unblocks(PrintBlocks(rs))[i])
  {
    if |rs| > 0 {
      var t, r := rs[..|rs| - 1], rs[|rs| - 1];
      TextLines(t);
      PrintLines(r);
      assert PrintBlocks(rs)[..|rs| - 1] == PrintBlocks(t);
    }
  }

  /** Parsing the printed form of a listing returns it: the same records in the same order, each found by its
      path. */
  lemma {:induction false} ParseOfPrint(rs: seq<Record>)
    requires Listing(rs)
    ensures Meaning(Lines(PrintText(rs))) == Collect(rs)
    ensures Meaning(Lines(PrintText(rs))).available && Meaning(Lines(PrintText(rs))).records == rs
  {
    var blocks := PrintBlocks(rs);
    LinesOfText(rs);
    BlocksOfListing(rs);
    hide Print, ReadBlock, Unblocks, Printable, PrintText, Lines;
    BlankEnds(Unblocks(blocks), "");
    assert Blocks(Unblocks(blocks) + [""]) == blocks;
    RecordsOfListing(rs);
    CollectShape(rs);
  }

  lemma JoinedLines(ls: seq<string>)
    requires |ls| > 0 && forall i :: 0 <= i < |ls| ==> OneLine(ls[i])
    ensures Lines(JoinWith(ls, '\n')) == ls
  {
    SplitOfJoin(ls, '\n');
    TrimKeeps(ls);
  }

  lemma {:induction false} LinesOfText(rs: seq<Record>)
    requires forall i :: 0 <= i < |rs| ==> Printable(rs[i])
    ensures Lines(PrintText(rs)) == Unblocks(PrintBlocks(rs)) + [""]
  {
    TextLines(rs);
    assert OneLine("");
    hide OneLine, Unblocks, Printable, PrintBlocks, Lines, JoinWith;
    JoinedLines(Unblocks(PrintBlocks(rs)) + [""]);
  }

  lemma {:induction false} BlocksOfListing(rs: seq<Record>)
    requires forall i :: 0 <= i < |rs| ==> Printable(rs[i])
    ensures Blocks(Unblocks(PrintBlocks(rs))) == PrintBlocks(rs)
  {
    var blocks := PrintBlocks(rs);
    hide Print, Printable;
    forall i | 0 <= i < |blocks| ensures IsBlock(blocks[i]) { PrintLines(rs[i]); }
    BlocksOfText(blocks);
  }

  lemma {:induction false} RecordsOfListing(rs: seq<Record>)
    requires Listing(rs)
    ensures RecordsOf(PrintBlocks(rs)) == Some(rs)
  {
    var blocks := PrintBlocks(rs);
    forall i | 0 <= i < |blocks|
      ensures ReadBlock(blocks[i]) == Block(rs[i], false) && rs[i].path != ""
    {
      PrintReads(rs[i]);
      assert !Blank(rs[i].path);
    }
    hide Print, Printable, ReadBlock;
    assert AllGood(blocks);
    RecordsShape(blocks);
    hide AllGood, RecordsOf, Listing;
    assert RecordsOf(blocks).value == rs;
  }

  // ---------- excluding scratch worktrees ----------

  function Kept(rs: seq<Record>, scratch: set<string>): seq<Record> {
    if |rs| == 0 then []
    else Kept(rs[..|rs| - 1], scratch) + if rs[|rs| - 1].path in scratch then [] else [rs[|rs| - 1]]
  }

  lemma KeptStep(rs: seq<Record>, r: Record, scratch: set<string>)
    ensures Kept(rs + [r], scratch) == if r.path in scratch then Kept(rs, scratch) else Kept(rs, scratch) + [r]
  {
    assert (rs + [r])[..|rs|] == rs;
  }

  lemma NothingKept(scratch: set<string>)
    ensures Collect(Kept([], scratch)) == UNAVAILABLE.(available := true)
  {
  }

  /** The paths that count as scratch: blank ones name nothing. */
  function Active(scratch: seq<string>): set<string> {
    set p | p in scratch && !Blank(p)
  }

  lemma {:induction false} KeptAre(rs: seq<Record>, scratch: seq<string>)
    ensures forall r :: r in Kept(rs, Active(scratch)) <==> r in rs && (Blank(r.path) || r.path !in scratch)
  {
    hide Blank;
    if |rs| > 0 {
      KeptAre(rs[..|rs| - 1], scratch);
      assert rs == rs[..|rs| - 1] + [rs[|rs| - 1]];
    }
  }

  /** `excludeStatusReparentScratchWorktrees`. */
  method Exclude(inv: Inventory, scratch: seq<string>) returns (out: Inventory)
    ensures out == if !inv.available || scratch == [] then inv else Collect(Kept(inv.records, Active(scratch)))
    ensures inv.available && scratch != [] ==>
              && out.available && TablesAgree(out)
              && forall r :: r in out.records <==> r in inv.records && (Blank(r.path) || r.path !in scratch)
  {
    hide Kept, Collect, Active, TablesAgree, Blank;
    if !inv.available || scratch == [] { return inv; }
    out := UNAVAILABLE.(available := true);
    var active := Active(scratch);
    NothingKept(active);
    KeptAre(inv.records, scratch);
    CollectAgrees(Kept(inv.records, active));
    for i := 0 to |inv.records|
      invariant out == Collect(Kept(inv.records[..i], active))
    {
      var rec := inv.records[i];
      assert inv.records[..i + 1] == inv.records[..i] + [rec];
      KeptStep(inv.records[..i], rec, active);
      if rec.path in active { continue; }
      CollectMore(Kept(inv.records[..i], active), rec);
      out := out.(records := out.records + [rec], byPath := out.byPath[rec.path := rec]);
      if rec.branch.Some? {
        if rec.prunable {
          out := out.(prunable := out.prunable + {Short(rec.branch.value)});
        } else {
          out := out.(byBranch := out.byBranch[Short(rec.branch.value) := rec.path]);
        }
      }
    }
    assert inv.records[..|inv.records|] == inv.records;
  }

  function KeepBlocks(blocks: seq<seq<string>>, scratch: set<string>): seq<seq<string>> {
    if |blocks| == 0 then []
    else KeepBlocks(blocks[..|blocks| - 1], scratch)
         + if PathOf(blocks[|blocks| - 1]) in scratch then [] else [blocks[|blocks| - 1]]
  }

  lemma {:induction false} KeepsCommute(blocks: seq<seq<string>>, scratch: set<string>)
    requires RecordsOf(blocks).Some?
    ensures RecordsOf(KeepBlocks(blocks, scratch)) == Some(Kept(RecordsOf(blocks).value, scratch))
  {
    if |blocks| > 0 {
      var t, b := blocks[..|blocks| - 1], blocks[|blocks| - 1];
      hide ReadBlock, WellFormed;
      KeepsCommute(t, scratch);
      var rs := RecordsOf(t).value;
      KeptStep(rs, ReadBlock(b).rec, scratch);
      if PathOf(b) in scratch {
        assert KeepBlocks(blocks, scratch) == KeepBlocks(t, scratch);
      } else {
        KeptPaths(rs, scratch, PathOf(b));
        assert (KeepBlocks(t, scratch) + [b])[..|KeepBlocks(t, scratch)|] == KeepBlocks(t, scratch);
      }
    }
  }

  lemma {:induction false} KeptPaths(rs: seq<Record>, scratch: set<string>, path: string)
    requires !HasPath(rs, path)
    ensures !HasPath(Kept(rs, scratch), path)
  {
    if |rs| > 0 {
      var t := rs[..|rs| - 1];
      assert forall i :: 0 <= i < |t| ==> t[i] == rs[i];
      KeptPaths(t, scratch, path);
      assert rs[|rs| - 1].path != path;
    }
  }

  lemma {:induction false} KeptBlocksAreBlocks(blocks: seq<seq<string>>, scratch: set<string>)
    requires forall i :: 0 <= i < |blocks| ==> IsBlock(blocks[i])
    ensures forall i :: 0 <= i < |KeepBlocks(blocks, scratch)| ==> IsBlock(KeepBlocks(blocks, scratch)[i])
  {
    if |blocks| > 0 { KeptBlocksAreBlocks(blocks[..|blocks| - 1], scratch); }
  }

  /** Dropping scratch worktrees from a parsed inventory is the same as parsing the listing without them. */
  lemma ExcludeCommutes(lines: seq<string>, scratch: seq<string>)
    requires Meaning(lines).available
    ensures Collect(Kept(Meaning(lines).records, Active(scratch)))
            == Meaning(Unblocks(KeepBlocks(Blocks(lines), Active(scratch))))
  {
    var blocks, active := Blocks(lines), Active(scratch);
    BlocksAreBlocks(lines);
    assert forall i :: 0 <= i < |blocks| ==> IsBlock(blocks[i]);
    KeptBlocksAreBlocks(blocks, active);
    BlocksOfText(KeepBlocks(blocks, active));
    KeepsCommute(blocks, active);
    CollectShape(RecordsOf(blocks).value);
  }
}
