/** The status document: collecting runtime evidence and issues, rolling presence and attention upward, and
    narrowing the document to one feature. */
module StatusReport {
  import opened Options

  datatype Presence = Present | Unknown | Stale | NoRuntime
  datatype Attention = NeedsAttention | Active | Idle
  datatype Severity = Info | Warning | Error
  datatype Scope = WorkspaceScope | FeatureScope | EntryScope

  /** An issue is homed at a level: empty names mean none. */
  datatype Issue = Issue(scope: Scope, feature: string, name: string, severity: Severity)

  datatype Entry = Entry(
    feature: string, name: string, sessions: seq<Presence>, presence: Presence, attention: Attention)

  datatype Feature = Feature(
    name: string, entries: seq<Entry>, tmux: Option<Presence>, presence: Presence, attention: Attention)

  datatype Report = Report(
    features: seq<Feature>, session: Option<Presence>, presence: Presence, attention: Attention, issues: seq<Issue>)

  // ---------- rollups ----------

  function RollupPresence(values: seq<Presence>): Presence {
    if Present in values then Present
    else if Unknown in values then Unknown
    else if Stale in values then Stale
    else NoRuntime
  }

  /** A runtime nobody can vouch for. */
  predicate Unverifiable(p: Presence) { p == Unknown || p == Stale }

  predicate Warns(i: Issue) { i.severity == Warning || i.severity == Error }

  predicate HomedAt(i: Issue, scope: Scope, feature: string, name: string) {
    i.scope == scope && i.feature == feature && i.name == name
  }

  /** Some warning or error is homed at exactly this level. */
  predicate Warned(issues: seq<Issue>, scope: Scope, feature: string, name: string) {
    exists k :: 0 <= k < |issues| && HomedAt(issues[k], scope, feature, name) && Warns(issues[k])
  }

  function RollupAttention(p: Presence, warned: bool, child: bool): Attention {
    if child || warned then NeedsAttention else if p == Present then Active else Idle
  }

  function RollEntry(issues: seq<Issue>, e: Entry): Entry {
    var p := RollupPresence(e.sessions);
    e.(presence := p, attention := RollupAttention(p, Warned(issues, EntryScope, e.feature, e.name), false))
  }

  function RollEntries(issues: seq<Issue>, es: seq<Entry>): (r: seq<Entry>)
    ensures |r| == |es| && forall k :: 0 <= k < |es| ==> r[k] == RollEntry(issues, es[k])
  {
    if |es| == 0 then [] else RollEntries(issues, es[..|es| - 1]) + [RollEntry(issues, es[|es| - 1])]
  }

  function EntryPresences(es: seq<Entry>): (r: seq<Presence>)
    ensures |r| == |es| && forall k :: 0 <= k < |es| ==> r[k] == es[k].presence
  {
    if |es| == 0 then [] else EntryPresences(es[..|es| - 1]) + [es[|es| - 1].presence]
  }

  function Optional(p: Option<Presence>): seq<Presence> {
    if p.Some? then [p.value] else []
  }

  predicate AnyEntryNeeds(es: seq<Entry>) {
    exists k :: 0 <= k < |es| && es[k].attention == NeedsAttention
  }

  function RollFeature(issues: seq<Issue>, f: Feature): Feature {
    var es := RollEntries(issues, f.entries);
    var p := RollupPresence(EntryPresences(es) + Optional(f.tmux));
    f.(entries := es, presence := p,
       attention := RollupAttention(p, Warned(issues, FeatureScope, f.name, ""), AnyEntryNeeds(es)))
  }

  function RollFeatures(issues: seq<Issue>, fs: seq<Feature>): (r: seq<Feature>)
    ensures |r| == |fs|
  {
    if |fs| == 0 then [] else RollFeatures(issues, fs[..|fs| - 1]) + [RollFeature(issues, fs[|fs| - 1])]
  }

  lemma {:induction false} RollFeaturesAt(issues: seq<Issue>, fs: seq<Feature>, k: nat)
    requires k < |fs|
    ensures RollFeatures(issues, fs)[k] == RollFeature(issues, fs[k])
  {
    hide RollFeature;
    if k < |fs| - 1 { RollFeaturesAt(issues, fs[..|fs| - 1], k); }
  }

  lemma {:induction false} RollFeaturesMore(issues: seq<Issue>, fs: seq<Feature>, f: Feature)
    ensures RollFeatures(issues, fs + [f]) == RollFeatures(issues, fs) + [RollFeature(issues, f)]
  {
    assert (fs + [f])[..|fs|] == fs;
  }

  function FeaturePresences(fs: seq<Feature>): (r: seq<Presence>)
    ensures |r| == |fs| && forall k :: 0 <= k < |fs| ==> r[k] == fs[k].presence
  {
    if |fs| == 0 then [] else FeaturePresences(fs[..|fs| - 1]) + [fs[|fs| - 1].presence]
  }

  predicate AnyFeatureNeeds(fs: seq<Feature>) {
    exists k :: 0 <= k < |fs| && fs[k].attention == NeedsAttention
  }

  function RollReport(features: seq<Feature>, session: Option<Presence>, issues: seq<Issue>): Report {
    var fs := RollFeatures(issues, features);
    var p := RollupPresence(FeaturePresences(fs) + Optional(session));
    Report(fs, session, p, RollupAttention(p, Warned(issues, WorkspaceScope, "", ""), AnyFeatureNeeds(fs)), issues)
  }

  lemma {:induction false} OneMoreFeature(fs: seq<Feature>, f: Feature)
    ensures FeaturePresences(fs + [f]) == FeaturePresences(fs) + [f.presence]
    ensures AnyFeatureNeeds(fs + [f]) <==> AnyFeatureNeeds(fs) || f.attention == NeedsAttention
  {
    assert (fs + [f])[..|fs|] == fs;
    assert (fs + [f])[|fs|] == f;
    assert forall k :: 0 <= k < |fs| ==> (fs + [f])[k] == fs[k];
  }

  /** `recomputeAgentStatusRollups`. */
  method Recompute(features: seq<Feature>, session: Option<Presence>, issues: seq<Issue>) returns (r: Report)
    ensures r == RollReport(features, session, issues)
  {
    var fs, presences, anyNeeds := RecomputeFeatures(features, issues);
    if session.Some? { presences := presences + [session.value]; }
    assert presences == FeaturePresences(fs) + Optional(session);
    var p := RollupPresence(presences);
    r := Report(fs, session, p, RollupAttention(p, Warned(issues, WorkspaceScope, "", ""), anyNeeds), issues);
  }

  method RecomputeFeatures(features: seq<Feature>, issues: seq<Issue>)
    returns (fs: seq<Feature>, presences: seq<Presence>, anyNeeds: bool)
    ensures fs == RollFeatures(issues, features) && presences == FeaturePresences(fs)
    ensures anyNeeds <==> AnyFeatureNeeds(fs)
  {
    fs, presences, anyNeeds := [], [], false;
    NoFeatures(issues);
    hide RollFeature, RollFeatures, FeaturePresences, AnyFeatureNeeds;
    for i := 0 to |features|
      invariant fs == RollFeatures(issues, features[..i]) && presences == FeaturePresences(fs)
      invariant anyNeeds <==> AnyFeatureNeeds(fs)
    {
      assert features[..i + 1] == features[..i] + [features[i]];
      RollFeaturesMore(issues, features[..i], features[i]);
      var f := RecomputeFeature(issues, features[i]);
      OneMoreFeature(fs, f);
      fs := fs + [f];
      presences := presences + [f.presence];
      if f.attention == NeedsAttention { anyNeeds := true; }
    }
    assert features[..|features|] == features;
  }

  lemma {:induction false} NoFeatures(issues: seq<Issue>)
    ensures RollFeatures(issues, []) == [] && FeaturePresences([]) == [] && !AnyFeatureNeeds([])
  {
  }

  method RecomputeFeature(issues: seq<Issue>, f: Feature) returns (r: Feature)
    ensures r == RollFeature(issues, f)
  {
    var es, presences, anyNeeds := RecomputeEntries(issues, f.entries);
    hide RollEntries, Warned, RollupPresence, EntryPresences, AnyEntryNeeds;
    if f.tmux.Some? { presences := presences + [f.tmux.value]; }
    assert presences == EntryPresences(es) + Optional(f.tmux);
    var p := RollupPresence(presences);
    r := f.(entries := es, presence := p,
            attention := RollupAttention(p, Warned(issues, FeatureScope, f.name, ""), anyNeeds));
  }

  method RecomputeEntries(issues: seq<Issue>, entries: seq<Entry>)
    returns (es: seq<Entry>, presences: seq<Presence>, anyNeeds: bool)
    ensures es == RollEntries(issues, entries) && presences == EntryPresences(es)
    ensures anyNeeds <==> AnyEntryNeeds(es)
  {
    es, presences, anyNeeds := [], [], false;
    NoEntries(issues);
    hide RollEntry, RollEntries, EntryPresences, AnyEntryNeeds;
    for i := 0 to |entries|
      invariant es == RollEntries(issues, entries[..i]) && presences == EntryPresences(es)
      invariant anyNeeds <==> AnyEntryNeeds(es)
    {
      assert entries[..i + 1] == entries[..i] + [entries[i]];
      var e := RollEntry(issues, entries[i]);
      OneMoreEntry(issues, entries[..i], entries[i], es, e);
      es := es + [e];
      presences := presences + [e.presence];
      if e.attention == NeedsAttention { anyNeeds := true; }
    }
    assert entries[..|entries|] == entries;
  }

  lemma {:induction false} NoEntries(issues: seq<Issue>)
    ensures RollEntries(issues, []) == [] && EntryPresences([]) == [] && !AnyEntryNeeds([])
  {
  }

  lemma {:induction false} OneMoreEntry(issues: seq<Issue>, entries: seq<Entry>, entry: Entry, es: seq<Entry>, e: Entry)
    ensures RollEntries(issues, entries + [entry]) == RollEntries(issues, entries) + [RollEntry(issues, entry)]
    ensures EntryPresences(es + [e]) == EntryPresences(es) + [e.presence]
    ensures AnyEntryNeeds(es + [e]) <==> AnyEntryNeeds(es) || e.attention == NeedsAttention
  {
    assert (entries + [entry])[..|entries|] == entries;
    assert (es + [e])[..|es|] == es;
    assert (es + [e])[|es|] == e;
    assert forall k :: 0 <= k < |es| ==> (es + [e])[k] == es[k];
  }

  // ---------- every unverifiable observation is owned ----------

  /** An entry with an unverifiable session has a warning of its own. */
  ghost predicate EntryOwned(issues: seq<Issue>, e: Entry) {
    (exists k :: 0 <= k < |e.sessions| && Unverifiable(e.sessions[k])) ==> Warned(issues, EntryScope, e.feature, e.name)
  }

  ghost predicate FeatureOwned(issues: seq<Issue>, f: Feature) {
    && (forall k :: 0 <= k < |f.entries| ==> EntryOwned(issues, f.entries[k]))
    && (f.tmux.Some? && Unverifiable(f.tmux.value) ==> Warned(issues, FeatureScope, f.name, ""))
  }

  /** What the collected evidence must satisfy: the workspace's session is owned by the workspace, or sits on
      an entry that owns it. */
  ghost predicate AllOwned(features: seq<Feature>, session: Option<Presence>, issues: seq<Issue>) {
    && (forall k :: 0 <= k < |features| ==> FeatureOwned(issues, features[k]))
    && (session.Some? && Unverifiable(session.value) ==>
          || Warned(issues, WorkspaceScope, "", "")
          || exists i, j :: 0 <= i < |features| && 0 <= j < |features[i].entries|
               && Warned(issues, EntryScope, features[i].entries[j].feature, features[i].entries[j].name))
  }

  /** No level whose runtime is stale or unknown reads as anything but needing attention. */
  ghost predicate Honest(r: Report) {
    && (Unverifiable(r.presence) ==> r.attention == NeedsAttention)
    && (forall i :: 0 <= i < |r.features| ==> FeatureHonest(r.features[i]))
  }

  ghost predicate FeatureHonest(f: Feature) {
    && (Unverifiable(f.presence) ==> f.attention == NeedsAttention)
    && (forall j :: 0 <= j < |f.entries| && Unverifiable(f.entries[j].presence) ==>
          f.entries[j].attention == NeedsAttention)
  }

  lemma {:induction false} RollupComesFrom(values: seq<Presence>)
    ensures Unverifiable(RollupPresence(values)) ==>
              exists k :: 0 <= k < |values| && values[k] == RollupPresence(values)
  {
  }

  lemma {:induction false} FeatureRollupHonest(issues: seq<Issue>, f: Feature)
    requires FeatureOwned(issues, f)
    ensures FeatureHonest(RollFeature(issues, f))
    ensures (exists k :: 0 <= k < |f.entries| && Warned(issues, EntryScope, f.entries[k].feature, f.entries[k].name))
            ==> RollFeature(issues, f).attention == NeedsAttention
  {
    var r := RollFeature(issues, f);
    forall k | 0 <= k < |f.entries|
      ensures Unverifiable(r.entries[k].presence) ==> r.entries[k].attention == NeedsAttention
      ensures Warned(issues, EntryScope, f.entries[k].feature, f.entries[k].name)
              ==> r.entries[k].attention == NeedsAttention
    {
      EntryRollupHonest(issues, f.entries[k]);
    }
    var values := EntryPresences(r.entries) + Optional(f.tmux);
    RollupComesFrom(values);
    hide RollEntry, RollEntries, Warned, EntryOwned;
    if Unverifiable(r.presence) {
      var k :| 0 <= k < |values| && values[k] == RollupPresence(values);
      if k < |r.entries| { assert Unverifiable(r.entries[k].presence); }
    }
  }

  lemma {:induction false} EntryRollupHonest(issues: seq<Issue>, e: Entry)
    requires EntryOwned(issues, e)
    ensures Unverifiable(RollEntry(issues, e).presence) ==> RollEntry(issues, e).attention == NeedsAttention
    ensures Warned(issues, EntryScope, e.feature, e.name) ==> RollEntry(issues, e).attention == NeedsAttention
  {
    RollupComesFrom(e.sessions);
  }

  /** If every unverifiable observation is owned, the rolled-up document is honest at every level. */
  lemma {:induction false} OwnedIsHonest(features: seq<Feature>, session: Option<Presence>, issues: seq<Issue>)
    requires AllOwned(features, session, issues)
    ensures Honest(RollReport(features, session, issues))
  {
    var r := RollReport(features, session, issues);
    forall k | 0 <= k < |features|
      ensures FeatureHonest(r.features[k])
    {
      RollFeaturesAt(issues, features, k);
      FeatureRollupHonest(issues, features[k]);
    }
    if Unverifiable(r.presence) { WorkspaceNeeds(features, session, issues); }
  }

  lemma {:induction false} WorkspaceNeeds(features: seq<Feature>, session: Option<Presence>, issues: seq<Issue>)
    requires AllOwned(features, session, issues) && Unverifiable(RollReport(features, session, issues).presence)
    ensures RollReport(features, session, issues).attention == NeedsAttention
  {
    var fs := RollFeatures(issues, features);
    var values := FeaturePresences(fs) + Optional(session);
    RollupComesFrom(values);
    var k :| 0 <= k < |values| && values[k] == RollupPresence(values);
    if k < |fs| {
      RollFeaturesAt(issues, features, k);
      FeatureRollupHonest(issues, features[k]);
      hide RollFeature, FeatureOwned;
      assert fs[k].attention == NeedsAttention;
    } else if !Warned(issues, WorkspaceScope, "", "") {
      assert session == Some(values[k]);
      var i, j :| 0 <= i < |features| && 0 <= j < |features[i].entries|
        && Warned(issues, EntryScope, features[i].entries[j].feature, features[i].entries[j].name);
      RollFeaturesAt(issues, features, i);
      FeatureRollupHonest(issues, features[i]);
      hide RollFeature, FeatureOwned, Warned;
      assert fs[i].attention == NeedsAttention;
    }
  }

  // ---------- evidence ----------

  datatype Liveness = Live | Dead | Unsure

  /** One tmux snapshot; `panes` pairs a session with a pane's directory.  Without a server there are no panes, and
      that is no failure. */
  datatype Tmux = Tmux(
    available: bool, failed: bool, sessions: set<string>, panesAvailable: bool, panesFailed: bool,
    panes: seq<(string, string)>)

  predicate Usable(t: Tmux) { t.available && !t.failed }

  predicate Under(path: string, dir: string)
    ensures Under(path, dir) <==> At(path, dir)
  {
    assert dir + "/" <= path ==> path[..|dir|] == (dir + "/")[..|dir|] == dir && path[|dir|] == (dir + "/")[|dir|];
    path == dir || dir + "/" <= path
  }

  /** The path is the directory or lies below it. */
  ghost predicate At(path: string, dir: string) {
    path == dir || (|path| > |dir| && path[..|dir|] == dir && path[|dir|] == '/')
  }

  /** tmux answers, and runs a session of this name with a pane in the directory. */
  ghost predicate TmuxSeen(t: Tmux, name: string, dir: string) {
    && t.available && !t.failed && name in t.sessions && t.panesAvailable
    && exists k :: 0 <= k < |t.panes| && t.panes[k].0 == name && At(t.panes[k].1, dir)
  }

  /** tmux cannot tell: it failed, or it runs a session of this name and shows no pane of it in the directory. */
  ghost predicate TmuxUnsure(t: Tmux, name: string, dir: string) {
    t.available && (t.failed || (name in t.sessions && !TmuxSeen(t, name, dir)))
  }

  /** `verifyTmuxName`: nothing without evidence, otherwise a presence and whether it comes with an issue. */
  function VerifyTmuxName(t: Tmux, name: string, target: string): (r: Option<(Presence, bool)>)
    ensures r == Some((Present, false)) <==> TmuxSeen(t, name, target)
    ensures r == Some((Unknown, true)) <==> TmuxUnsure(t, name, target)
    ensures r == None <==> !TmuxSeen(t, name, target) && !TmuxUnsure(t, name, target)
  {
    if !t.available then None
    else if t.failed then Some((Unknown, true))
    else if name !in t.sessions then None
    else if !t.panesAvailable then Some((Unknown, true))
    else if exists k :: 0 <= k < |t.panes| && t.panes[k].0 == name && Under(t.panes[k].1, target)
      then Some((Present, false))
    else Some((Unknown, true))
  }

  /** A per-invocation record of a direct session. */
  datatype DirectRecord = Unsupported | Invalid | Readable(owner: Liveness)

  function LivenessPresence(l: Liveness): Presence {
    match l case Live => Present case Dead => Stale case Unsure => Unknown
  }

  function DirectPresence(r: DirectRecord): Presence {
    match r case Readable(owner) => LivenessPresence(owner) case _ => Unknown
  }

  function DirectPresences(rs: seq<DirectRecord>): (r: seq<Presence>)
    ensures |r| == |rs| && forall k :: 0 <= k < |rs| ==> r[k] == DirectPresence(rs[k])
  {
    if |rs| == 0 then [] else DirectPresences(rs[..|rs| - 1]) + [DirectPresence(rs[|rs| - 1])]
  }

  /** The checkout's one session record: absent, unparseable, of a newer schema, or read. */
  datatype SessionRecord =
    | NoRecord
    | Unparsed
    | Newer(tmuxMode: bool)
    | Parsed(tmuxMode: bool, feature: string, name: string, tmuxSession: string, owner: Liveness,
             stageKnown: bool, ours: bool)

  datatype Lock = NoLock | BadLock | GoodLock

  /** What a branch shows: its worktree, and its direct records unless they could not be read.  `others` are the
      issues of its materialisation and ancestry, whatever they are. */
  datatype Branch = Branch(
    name: string, tmuxName: string, worktree: Option<string>, direct: Option<seq<DirectRecord>>, others: seq<Issue>)

  datatype StackState = StackFine | StackMissing | StackInvalid

  /** `strays` counts the records in each directory that belongs to no branch, unless the record tree could not be
      read.  `sync` and `late` are the issues of the feature's synchronisation, whatever they are. */
  datatype FeatureEvidence = FeatureEvidence(
    name: string, path: string, tmuxName: string, branches: seq<Branch>, stack: StackState, sync: seq<Issue>,
    strays: Option<seq<nat>>, late: seq<Issue>)

  /** What else the document is built from: the issues of its header, whether the checkout is dirty, if known, and
      the issues raised last. */
  datatype Surroundings = Surroundings(header: seq<Issue>, dirty: Option<bool>, late: seq<Issue>)

  function TmuxPresence(t: Tmux, name: string, target: string): Option<Presence> {
    var v := VerifyTmuxName(t, name, target);
    if v.Some? then Some(v.value.0) else None
  }

  /** Everything a branch shows, in the order it is looked at.  Only external branches show anything themselves. */
  function SessionsOf(external: bool, t: Tmux, b: Branch): seq<Presence> {
    if !external then []
    else
      (if b.worktree.Some? then Optional(TmuxPresence(t, b.tmuxName, b.worktree.value)) else [])
      + DirectShown(b.direct)
  }

  function DirectShown(rs: Option<seq<DirectRecord>>): seq<Presence> {
    if rs.Some? then DirectPresences(rs.value) else []
  }

  /** What the session record says about the runtime. */
  function Projected(record: SessionRecord, t: Tmux): Option<Presence> {
    match record
    case NoRecord => None
    case Unparsed => Some(Unknown)
    case Newer(_) => Some(Unknown)
    case Parsed(tmuxMode, _, _, tmuxSession, owner, _, _) =>
      Some(if !tmuxMode then LivenessPresence(owner)
           else if !Usable(t) then Unknown
           else if tmuxSession != "" && tmuxSession in t.sessions then Present
           else Stale)
  }

  // ---------- the document the evidence calls for ----------

  const WORKSPACE_WARNING := Issue(WorkspaceScope, "", "", Warning)
  const WORKSPACE_NOTE := Issue(WorkspaceScope, "", "", Info)

  function BuiltEntry(external: bool, t: Tmux, feature: string, b: Branch): Entry {
    Entry(feature, b.name, SessionsOf(external, t, b), NoRuntime, Idle)
  }

  function BuiltEntries(external: bool, t: Tmux, feature: string, bs: seq<Branch>): seq<Entry> {
    if |bs| == 0 then []
    else BuiltEntries(external, t, feature, bs[..|bs| - 1]) + [BuiltEntry(external, t, feature, bs[|bs| - 1])]
  }

  function BuiltFeature(external: bool, t: Tmux, v: FeatureEvidence): Feature {
    Feature(v.name, BuiltEntries(external, t, v.name, v.branches),
            if external then TmuxPresence(t, v.tmuxName, v.path) else None, NoRuntime, Idle)
  }

  function BuiltFeatures(external: bool, t: Tmux, vs: seq<FeatureEvidence>): seq<Feature> {
    if |vs| == 0 then []
    else BuiltFeatures(external, t, vs[..|vs| - 1]) + [BuiltFeature(external, t, vs[|vs| - 1])]
  }

  /** The issue that owns a tmux observation. */
  function TmuxIssues(t: Tmux, name: string, target: string, home: Issue): seq<Issue> {
    var v := VerifyTmuxName(t, name, target);
    if v.Some? && v.value.1 then [home] else []
  }

  /** One issue for each record nobody can vouch for. */
  function DirectIssues(rs: seq<DirectRecord>, home: Issue): seq<Issue> {
    if |rs| == 0 then []
    else DirectIssues(rs[..|rs| - 1], home) + if DirectPresence(rs[|rs| - 1]) == Present then [] else [home]
  }

  function EntryIssues(external: bool, t: Tmux, feature: string, b: Branch): seq<Issue> {
    b.others + if external then RuntimeIssues(t, feature, b) else []
  }

  function RuntimeIssues(t: Tmux, feature: string, b: Branch): seq<Issue> {
    var home := Issue(EntryScope, feature, b.name, Warning);
    (if b.worktree.Some? then TmuxIssues(t, b.tmuxName, b.worktree.value, home) else [])
    + DirectRaised(b.direct, home)
  }

  /** Records that cannot be read are an issue themselves. */
  function DirectRaised(rs: Option<seq<DirectRecord>>, home: Issue): seq<Issue> {
    if rs.Some? then DirectIssues(rs.value, home) else [home]
  }

  function EntriesIssues(external: bool, t: Tmux, feature: string, bs: seq<Branch>): seq<Issue> {
    if |bs| == 0 then []
    else EntriesIssues(external, t, feature, bs[..|bs| - 1]) + EntryIssues(external, t, feature, bs[|bs| - 1])
  }

  function StackIssues(v: FeatureEvidence): seq<Issue> {
    match v.stack
    case StackFine => []
    case StackMissing => [Issue(FeatureScope, v.name, "", Info)]
    case StackInvalid => [Issue(FeatureScope, v.name, "", Warning)]
  }

  /** Silence about a record tree that cannot be read would understate the feature. */
  function TreeIssues(v: FeatureEvidence): seq<Issue> {
    if v.strays.Some? then [] else [Issue(FeatureScope, v.name, "", Warning)]
  }

  /** One issue for each directory that holds records of no branch; empty directories are no records. */
  function StrayIssues(strays: seq<nat>, home: Issue): seq<Issue> {
    if |strays| == 0 then []
    else StrayIssues(strays[..|strays| - 1], home) + if strays[|strays| - 1] > 0 then [home] else []
  }

  function FeatureIssues(external: bool, t: Tmux, v: FeatureEvidence): seq<Issue> {
    var home := Issue(FeatureScope, v.name, "", Warning);
    StackIssues(v) + v.sync
    + (if external then TreeIssues(v) + TmuxIssues(t, v.tmuxName, v.path, home) else [])
    + EntriesIssues(external, t, v.name, v.branches)
    + (if external && v.strays.Some? then StrayIssues(v.strays.value, home) else [])
    + v.late
  }

  function FeaturesIssues(external: bool, t: Tmux, vs: seq<FeatureEvidence>): seq<Issue> {
    if |vs| == 0 then []
    else FeaturesIssues(external, t, vs[..|vs| - 1]) + FeatureIssues(external, t, vs[|vs| - 1])
  }

  function LockIssues(lock: Lock): seq<Issue> {
    if lock == GoodLock then [] else [WORKSPACE_WARNING]
  }

  /** The issues of the session record and its lock themselves. */
  function SessionIssues(record: SessionRecord, lock: Lock): seq<Issue> {
    match record
    case NoRecord => if lock == NoLock then [] else [WORKSPACE_WARNING]
    case Parsed(_, _, _, _, _, stageKnown, ours) =>
      (if stageKnown then [] else [WORKSPACE_NOTE]) + (if ours then [] else [WORKSPACE_NOTE]) + LockIssues(lock)
    case _ => [WORKSPACE_WARNING] + LockIssues(lock)
  }

  /** A dirty checkout is a warning only while a session waits to be restored. */
  function DirtyIssues(dirty: Option<bool>, recorded: bool): seq<Issue> {
    if dirty != Some(true) then [] else [if recorded then WORKSPACE_WARNING else WORKSPACE_NOTE]
  }

  predicate TmuxMode(record: SessionRecord) {
    (record.Parsed? || record.Newer?) && record.tmuxMode
  }

  /** The evidence names a branch and can be trusted to. */
  predicate Attributable(record: SessionRecord, t: Tmux) {
    record.Parsed? && (record.tmuxMode ==> Usable(t))
  }

  function TmuxSummary(t: Tmux, relied: bool): seq<Issue> {
    if !t.available then [Issue(WorkspaceScope, "", "", if relied then Warning else Info)]
    else if t.failed || t.panesFailed then [WORKSPACE_WARNING]
    else []
  }

  /** The entries know their feature. */
  ghost predicate Named(f: Feature) {
    forall k :: 0 <= k < |f.entries| ==> f.entries[k].feature == f.name
  }

  lemma {:induction false} BuiltEntriesNamed(external: bool, t: Tmux, feature: string, bs: seq<Branch>)
    ensures forall k :: 0 <= k < |BuiltEntries(external, t, feature, bs)| ==>
              BuiltEntries(external, t, feature, bs)[k].feature == feature
  {
    if |bs| > 0 { BuiltEntriesNamed(external, t, feature, bs[..|bs| - 1]); }
  }

  lemma BuiltIsNamed(external: bool, t: Tmux, v: FeatureEvidence)
    ensures Named(BuiltFeature(external, t, v))
  {
    BuiltEntriesNamed(external, t, v.name, v.branches);
  }

  predicate Names(fs: seq<Feature>, feature: string, name: string, i: nat, j: nat) {
    i < |fs| && j < |fs[i].entries| && fs[i].name == feature && fs[i].entries[j].name == name
  }

  /** The first entry of that name, in document order. */
  ghost predicate NamesFirst(fs: seq<Feature>, feature: string, name: string, i: nat, j: nat) {
    && Names(fs, feature, name, i, j)
    && (forall k: nat, l: nat :: Names(fs, feature, name, k, l) ==> i < k || (i == k && j <= l))
  }

  function Attached(fs: seq<Feature>, i: nat, j: nat, p: Presence): seq<Feature>
    requires i < |fs| && j < |fs[i].entries|
  {
    var e := fs[i].entries[j];
    fs[i := fs[i].(entries := fs[i].entries[j := e.(sessions := e.sessions + [p])])]
  }

  /** Where a session that names `feature` and `name` goes, and what is reported about it. */
  ghost predicate Attribution(scoped: Option<string>, feature: string, name: string, p: Presence,
                              fs: seq<Feature>, issues: seq<Issue>, fs': seq<Feature>, issues': seq<Issue>) {
    if feature == "" || name == "" then
      fs' == fs && issues' == issues + [WORKSPACE_WARNING]
    else if scoped.Some? && scoped.value != feature then
      fs' == fs && issues' == issues + if Unverifiable(p) then [WORKSPACE_WARNING] else []
    else
      && (forall i: nat, j: nat :: NamesFirst(fs, feature, name, i, j) ==>
            && fs' == Attached(fs, i, j, p)
            && issues' == issues + if Unverifiable(p) then [Issue(EntryScope, feature, name, Warning)] else [])
      && ((forall i: nat, j: nat :: !Names(fs, feature, name, i, j)) ==>
            fs' == fs && issues' == issues + [WORKSPACE_WARNING])
  }

  /** The issues raised before any feature is looked at. */
  function Collected(external: bool, t: Tmux, record: SessionRecord, lock: Lock, rest: Surroundings): seq<Issue> {
    rest.header
    + if external then TmuxSummary(t, false)
      else SessionIssues(record, lock) + DirtyIssues(rest.dirty, Projected(record, t).Some?)
           + TmuxSummary(t, TmuxMode(record))
  }

  // ---------- what the evidence says, level by level ----------

  /** What the checkout's session record shows of the runtime: nothing without a record, otherwise the presence of its
      owner or of its tmux session, and `Unknown` where the record or tmux cannot be trusted. */
  ghost predicate SessionShows(record: SessionRecord, t: Tmux, p: Presence) {
    && !record.NoRecord?
    && match p
       case Present => && record.Parsed?
                       && if record.tmuxMode
                          then t.available && !t.failed && record.tmuxSession != "" && record.tmuxSession in t.sessions
                          else record.owner == Live
       case Unknown => record.Parsed? ==> if record.tmuxMode then !t.available || t.failed else record.owner == Unsure
       case Stale => && record.Parsed?
                     && if record.tmuxMode
                        then t.available && !t.failed && (record.tmuxSession == "" || record.tmuxSession !in t.sessions)
                        else record.owner == Dead
       case NoRuntime => false
  }

  /** The record was read, and its presence does not rest on a tmux that cannot answer. */
  ghost predicate Trusted(record: SessionRecord, t: Tmux) {
    record.Parsed? && (record.tmuxMode ==> t.available && !t.failed)
  }

  /** What a branch of an external workspace shows. */
  ghost predicate BranchShows(t: Tmux, b: Branch, p: Presence) {
    match p
    case Present => || (b.worktree.Some? && TmuxSeen(t, b.tmuxName, b.worktree.value))
                    || (b.direct.Some? && Readable(Live) in b.direct.value)
    case Unknown => || (b.worktree.Some? && TmuxUnsure(t, b.tmuxName, b.worktree.value))
                    || (b.direct.Some? && (|| Unsupported in b.direct.value || Invalid in b.direct.value
                                           || Readable(Unsure) in b.direct.value))
    case Stale => b.direct.Some? && Readable(Dead) in b.direct.value
    case NoRuntime => false
  }

  /** Something about a branch of an external workspace calls for a warning. */
  ghost predicate BranchCalls(t: Tmux, b: Branch) {
    || b.direct.None?
    || (exists k :: 0 <= k < |b.direct.value| && b.direct.value[k] != Readable(Live))
    || (b.worktree.Some? && TmuxUnsure(t, b.tmuxName, b.worktree.value))
  }

  ghost predicate EntryCalls(external: bool, t: Tmux, v: FeatureEvidence, x: Issue) {
    && external && x.scope == EntryScope && x.severity == Warning && x.feature == v.name
    && exists j :: 0 <= j < |v.branches| && v.branches[j].name == x.name && BranchCalls(t, v.branches[j])
  }

  /** What is wrong with a feature's own runtime: a record tree nobody can read, records of no branch, or a session
      tmux cannot vouch for. */
  ghost predicate RuntimeUnclear(t: Tmux, v: FeatureEvidence) {
    || v.strays.None? || TmuxUnsure(t, v.tmuxName, v.path)
    || exists k :: 0 <= k < |v.strays.value| && v.strays.value[k] > 0
  }

  ghost predicate FeatureCalls(external: bool, t: Tmux, v: FeatureEvidence, x: Issue) {
    && x.scope == FeatureScope && x.feature == v.name && x.name == ""
    && match x.severity
       case Info => v.stack == StackMissing
       case Warning => || v.stack == StackInvalid
                       || (external && RuntimeUnclear(t, v))
       case Error => false
  }

  /** What a feature and its branches call for. */
  ghost predicate Calls(external: bool, t: Tmux, v: FeatureEvidence, x: Issue) {
    FeatureCalls(external, t, v, x) || EntryCalls(external, t, v, x)
  }

  /** What the workspace itself calls for, before any session is attributed. */
  ghost predicate WorkspaceCalls(external: bool, t: Tmux, record: SessionRecord, lock: Lock, dirty: Option<bool>,
                                 x: Issue) {
    var relied := !external && (record.Newer? || record.Parsed?) && record.tmuxMode;
    && x.scope == WorkspaceScope && x.feature == "" && x.name == ""
    && match x.severity
       case Info => || (!t.available && !relied)
                    || (!external && (|| (record.Parsed? && (!record.stageKnown || !record.ours))
                                      || (dirty == Some(true) && record.NoRecord?)))
       case Warning => || (!t.available && relied) || (t.available && (t.failed || t.panesFailed))
                       || (!external && (|| record.Unparsed? || record.Newer?
                                         || (record.NoRecord? && lock != NoLock)
                                         || (!record.NoRecord? && lock != GoodLock)
                                         || (dirty == Some(true) && !record.NoRecord?)))
       case Error => false
  }

  ghost predicate HasBranchAt(vs: seq<FeatureEvidence>, feature: string, name: string, i: nat, j: nat) {
    i < |vs| && j < |vs[i].branches| && vs[i].name == feature && vs[i].branches[j].name == name
  }

  /** Some feature of this name has a branch of this name. */
  ghost predicate HasBranch(vs: seq<FeatureEvidence>, feature: string, name: string) {
    exists i: nat, j: nat :: HasBranchAt(vs, feature, name, i, j)
  }

  /** A trusted session that names no branch of the document calls for a workspace warning; one that is stale or
      unknown calls for a warning on the branch it names, or on the workspace if that is out of scope. */
  ghost predicate SessionCalls(scoped: Option<string>, t: Tmux, record: SessionRecord, vs: seq<FeatureEvidence>,
                               x: Issue) {
    && Trusted(record, t)
    && var unsure := SessionShows(record, t, Unknown) || SessionShows(record, t, Stale);
       if record.feature == "" || record.name == "" then x == Issue(WorkspaceScope, "", "", Warning)
       else if scoped.Some? && scoped.value != record.feature then x == Issue(WorkspaceScope, "", "", Warning) && unsure
       else if HasBranch(vs, record.feature, record.name)
         then x == Issue(EntryScope, record.feature, record.name, Warning) && unsure
       else x == Issue(WorkspaceScope, "", "", Warning)
  }

  /** Everything the evidence calls for. */
  ghost predicate CalledFor(external: bool, scoped: Option<string>, t: Tmux, record: SessionRecord, lock: Lock,
                            dirty: Option<bool>, vs: seq<FeatureEvidence>, x: Issue) {
    || WorkspaceCalls(external, t, record, lock, dirty, x)
    || (exists i :: 0 <= i < |vs| && Calls(external, t, vs[i], x))
    || (!external && SessionCalls(scoped, t, record, vs, x))
  }

  /** The issues handed to a feature from elsewhere. */
  ghost predicate Given(v: FeatureEvidence, x: Issue) {
    x in v.sync || x in v.late || exists j :: 0 <= j < |v.branches| && x in v.branches[j].others
  }

  ghost predicate GivenAnywhere(vs: seq<FeatureEvidence>, rest: Surroundings, x: Issue) {
    x in rest.header || x in rest.late || exists i :: 0 <= i < |vs| && Given(vs[i], x)
  }

  lemma TmuxIssuesAre(t: Tmux, name: string, target: string, home: Issue, x: Issue)
    ensures x in TmuxIssues(t, name, target, home) <==> x == home && TmuxUnsure(t, name, target)
  {
  }

  lemma {:induction false} DirectIssuesAre(rs: seq<DirectRecord>, home: Issue, x: Issue)
    ensures x in DirectIssues(rs, home) <==> x == home && exists k :: 0 <= k < |rs| && rs[k] != Readable(Live)
  {
    if |rs| > 0 {
      var s := rs[..|rs| - 1];
      DirectIssuesAre(s, home, x);
      assert forall k :: 0 <= k < |s| ==> s[k] == rs[k];
    }
  }

  lemma {:induction false} StrayIssuesAre(strays: seq<nat>, home: Issue, x: Issue)
    ensures x in StrayIssues(strays, home) <==> x == home && exists k :: 0 <= k < |strays| && strays[k] > 0
  {
    if |strays| > 0 {
      var s := strays[..|strays| - 1];
      StrayIssuesAre(s, home, x);
      assert forall k :: 0 <= k < |s| ==> s[k] == strays[k];
    }
  }

  lemma EntryIssuesAre(external: bool, t: Tmux, feature: string, b: Branch, x: Issue)
    ensures x in EntryIssues(external, t, feature, b) <==>
              x in b.others || (external && x == Issue(EntryScope, feature, b.name, Warning) && BranchCalls(t, b))
  {
    var home := Issue(EntryScope, feature, b.name, Warning);
    if b.worktree.Some? { TmuxIssuesAre(t, b.tmuxName, b.worktree.value, home, x); }
    if b.direct.Some? { DirectIssuesAre(b.direct.value, home, x); }
    hide TmuxIssues, DirectIssues, TmuxUnsure;
  }

  lemma {:induction false} EntriesIssuesAre(external: bool, t: Tmux, feature: string, bs: seq<Branch>, x: Issue)
    ensures x in EntriesIssues(external, t, feature, bs) <==>
              exists j :: 0 <= j < |bs| && x in EntryIssues(external, t, feature, bs[j])
  {
    hide EntryIssues;
    if |bs| > 0 {
      var s := bs[..|bs| - 1];
      EntriesIssuesAre(external, t, feature, s, x);
      assert forall j :: 0 <= j < |s| ==> s[j] == bs[j];
    }
  }

  lemma BranchesCall(external: bool, t: Tmux, v: FeatureEvidence, x: Issue)
    ensures x in EntriesIssues(external, t, v.name, v.branches) <==>
              || (exists j :: 0 <= j < |v.branches| && x in v.branches[j].others)
              || EntryCalls(external, t, v, x)
  {
    EntriesIssuesAre(external, t, v.name, v.branches, x);
    hide EntriesIssues, EntryIssues, BranchCalls;
    forall j | 0 <= j < |v.branches|
      ensures x in EntryIssues(external, t, v.name, v.branches[j]) <==>
                || x in v.branches[j].others
                || (&& external && x == Issue(EntryScope, v.name, v.branches[j].name, Warning)
                    && BranchCalls(t, v.branches[j]))
    {
      EntryIssuesAre(external, t, v.name, v.branches[j], x);
    }
  }

  lemma StackIssuesAre(v: FeatureEvidence, x: Issue)
    ensures x in StackIssues(v) <==>
              || (x == Issue(FeatureScope, v.name, "", Info) && v.stack == StackMissing)
              || (x == Issue(FeatureScope, v.name, "", Warning) && v.stack == StackInvalid)
  {
  }

  lemma RuntimeIssuesAre(t: Tmux, v: FeatureEvidence, x: Issue)
    ensures var home := Issue(FeatureScope, v.name, "", Warning);
            x in TreeIssues(v) + TmuxIssues(t, v.tmuxName, v.path, home)
                 + (if v.strays.Some? then StrayIssues(v.strays.value, home) else []) <==>
              x == home && RuntimeUnclear(t, v)
  {
    var home := Issue(FeatureScope, v.name, "", Warning);
    TmuxIssuesAre(t, v.tmuxName, v.path, home, x);
    if v.strays.Some? { StrayIssuesAre(v.strays.value, home, x); }
    hide TmuxIssues, StrayIssues, TmuxUnsure;
  }

  lemma FeatureIssuesAre(external: bool, t: Tmux, v: FeatureEvidence, x: Issue)
    ensures x in FeatureIssues(external, t, v) <==> Given(v, x) || Calls(external, t, v, x)
  {
    hide EntriesIssues, TmuxIssues, StrayIssues, StackIssues, TreeIssues, EntryCalls, TmuxUnsure;
    BranchesCall(external, t, v, x);
    StackIssuesAre(v, x);
    RuntimeIssuesAre(t, v, x);
  }

  lemma {:induction false} FeaturesIssuesAre(external: bool, t: Tmux, vs: seq<FeatureEvidence>, x: Issue)
    ensures x in FeaturesIssues(external, t, vs) <==>
              || (exists i :: 0 <= i < |vs| && Given(vs[i], x))
              || (exists i :: 0 <= i < |vs| && Calls(external, t, vs[i], x))
  {
    hide FeatureIssues, Given, Calls;
    if |vs| > 0 {
      var s := vs[..|vs| - 1];
      FeaturesIssuesAre(external, t, s, x);
      FeatureIssuesAre(external, t, vs[|vs| - 1], x);
      assert forall i :: 0 <= i < |s| ==> s[i] == vs[i];
    }
  }

  lemma SessionIssuesAre(record: SessionRecord, lock: Lock, x: Issue)
    ensures x in SessionIssues(record, lock) <==>
              || (x == Issue(WorkspaceScope, "", "", Info) && record.Parsed? && (!record.stageKnown || !record.ours))
              || (&& x == Issue(WorkspaceScope, "", "", Warning)
                  && (|| record.Unparsed? || record.Newer?
                      || (record.NoRecord? && lock != NoLock) || (!record.NoRecord? && lock != GoodLock)))
  {
  }

  lemma SummaryIs(t: Tmux, relied: bool, x: Issue)
    ensures x in TmuxSummary(t, relied) <==>
              || (x == Issue(WorkspaceScope, "", "", Info) && !t.available && !relied)
              || (&& x == Issue(WorkspaceScope, "", "", Warning)
                  && if t.available then t.failed || t.panesFailed else relied)
  {
  }

  lemma WorkspaceIssuesAre(external: bool, t: Tmux, record: SessionRecord, lock: Lock, rest: Surroundings, x: Issue)
    ensures x in Collected(external, t, record, lock, rest) <==>
              x in rest.header || WorkspaceCalls(external, t, record, lock, rest.dirty, x)
  {
    hide SessionIssues, TmuxSummary;
    SessionIssuesAre(record, lock, x);
    SummaryIs(t, !external && TmuxMode(record), x);
  }

  lemma ProjectedShows(record: SessionRecord, t: Tmux, p: Presence)
    ensures Projected(record, t) == Some(p) <==> SessionShows(record, t, p)
    ensures Attributable(record, t) <==> Trusted(record, t)
  {
  }

  // ---------- what a level reads ----------

  lemma DirectShows(rs: seq<DirectRecord>, p: Presence)
    ensures p in DirectPresences(rs) <==>
              match p
              case Present => Readable(Live) in rs
              case Unknown => Unsupported in rs || Invalid in rs || Readable(Unsure) in rs
              case Stale => Readable(Dead) in rs
              case NoRuntime => false
  {
    var ps := DirectPresences(rs);
    hide DirectPresences;
    assert forall k :: 0 <= k < |rs| ==> ps[k] == DirectPresence(rs[k]) && ps[k] in ps && rs[k] in rs;
  }

  lemma SessionsShow(external: bool, t: Tmux, b: Branch, p: Presence)
    ensures p in SessionsOf(external, t, b) <==> external && BranchShows(t, b, p)
  {
    hide TmuxSeen, TmuxUnsure, DirectPresences;
    if b.direct.Some? { DirectShows(b.direct.value, p); }
  }

  /** The attention of a level: needed exactly when a child needs it or a warning or an error is homed at this very
      level, otherwise active exactly when the level's presence is. */
  ghost predicate Reads(issues: seq<Issue>, scope: Scope, feature: string, name: string, p: Presence, a: Attention,
                        child: bool) {
    var needs := || child || Issue(scope, feature, name, Warning) in issues
                 || Issue(scope, feature, name, Error) in issues;
    && (a == NeedsAttention <==> needs) && (a == Active <==> !needs && p == Present)
  }

  /** The presence of a level: present before unknown before stale before none. */
  ghost predicate Strongest(p: Presence, present: bool, unknown: bool, stale: bool) {
    && (p == Present <==> present)
    && (p == Unknown <==> unknown && !present)
    && (p == Stale <==> stale && !unknown && !present)
  }

  ghost predicate EntryReads(issues: seq<Issue>, e: Entry) {
    && Strongest(e.presence, Present in e.sessions, Unknown in e.sessions, Stale in e.sessions)
    && Reads(issues, EntryScope, e.feature, e.name, e.presence, e.attention, false)
  }

  /** Some entry's presence, or the feature's own session, is this one. */
  ghost predicate Below(f: Feature, p: Presence) {
    f.tmux == Some(p) || exists j :: 0 <= j < |f.entries| && f.entries[j].presence == p
  }

  ghost predicate FeatureReads(issues: seq<Issue>, f: Feature) {
    && (forall j :: 0 <= j < |f.entries| ==> EntryReads(issues, f.entries[j]))
    && Strongest(f.presence, Below(f, Present), Below(f, Unknown), Below(f, Stale))
    && Reads(issues, FeatureScope, f.name, "", f.presence, f.attention,
             exists j :: 0 <= j < |f.entries| && f.entries[j].attention == NeedsAttention)
  }

  /** Some feature's presence, or the checkout's session, is this one. */
  ghost predicate Anywhere(r: Report, p: Presence) {
    r.session == Some(p) || exists i :: 0 <= i < |r.features| && r.features[i].presence == p
  }

  ghost predicate LevelsRead(r: Report) {
    && (forall i :: 0 <= i < |r.features| ==> FeatureReads(r.issues, r.features[i]))
    && Strongest(r.presence, Anywhere(r, Present), Anywhere(r, Unknown), Anywhere(r, Stale))
    && Reads(r.issues, WorkspaceScope, "", "", r.presence, r.attention,
             exists i :: 0 <= i < |r.features| && r.features[i].attention == NeedsAttention)
  }

  lemma WarnedIn(issues: seq<Issue>, scope: Scope, feature: string, name: string)
    ensures Warned(issues, scope, feature, name) <==>
              || Issue(scope, feature, name, Warning) in issues || Issue(scope, feature, name, Error) in issues
  {
  }

  lemma RollupStrongest(values: seq<Presence>)
    ensures Strongest(RollupPresence(values), Present in values, Unknown in values, Stale in values)
  {
  }

  lemma RolledEntryReads(issues: seq<Issue>, e: Entry)
    ensures EntryReads(issues, RollEntry(issues, e))
  {
    WarnedIn(issues, EntryScope, e.feature, e.name);
    RollupStrongest(e.sessions);
  }

  lemma RolledFeatureReads(issues: seq<Issue>, f: Feature)
    ensures FeatureReads(issues, RollFeature(issues, f))
  {
    RolledFeaturePresence(issues, f);
    RolledFeatureAttention(issues, f);
    hide Strongest, Below, Reads, RollEntry, EntryReads;
    var r := RollFeature(issues, f);
    forall j | 0 <= j < |r.entries| ensures EntryReads(issues, r.entries[j]) { RolledEntryReads(issues, f.entries[j]); }
    hide RollFeature;
  }

  lemma RolledFeaturePresence(issues: seq<Issue>, f: Feature)
    ensures var r := RollFeature(issues, f);
            Strongest(r.presence, Below(r, Present), Below(r, Unknown), Below(r, Stale))
  {
    hide RollEntry, RollEntries, Warned, RollupPresence, AnyEntryNeeds;
    var r := RollFeature(issues, f);
    RollupStrongest(EntryPresences(r.entries) + Optional(f.tmux));
    EntryPresencesAre(r.entries, f.tmux, Present);
    EntryPresencesAre(r.entries, f.tmux, Unknown);
    EntryPresencesAre(r.entries, f.tmux, Stale);
    hide EntryPresences;
  }

  lemma RolledFeatureAttention(issues: seq<Issue>, f: Feature)
    ensures var r := RollFeature(issues, f);
            Reads(issues, FeatureScope, r.name, "", r.presence, r.attention,
                  exists j :: 0 <= j < |r.entries| && r.entries[j].attention == NeedsAttention)
  {
    hide RollEntry, RollEntries, Warned, RollupPresence, EntryPresences;
    WarnedIn(issues, FeatureScope, f.name, "");
  }

  lemma EntryPresencesAre(es: seq<Entry>, tmux: Option<Presence>, p: Presence)
    ensures p in EntryPresences(es) + Optional(tmux) <==>
              tmux == Some(p) || exists j :: 0 <= j < |es| && es[j].presence == p
  {
    var values := EntryPresences(es);
    assert forall j :: 0 <= j < |es| ==> values[j] in values;
  }

  lemma FeaturePresencesAre(fs: seq<Feature>, session: Option<Presence>, p: Presence)
    ensures p in FeaturePresences(fs) + Optional(session) <==>
              session == Some(p) || exists i :: 0 <= i < |fs| && fs[i].presence == p
  {
    var values := FeaturePresences(fs);
    assert forall i :: 0 <= i < |fs| ==> values[i] in values;
  }

  /** Every level of a rolled-up document reads what its own issues and the levels below it say. */
  lemma RolledReads(features: seq<Feature>, session: Option<Presence>, issues: seq<Issue>)
    ensures LevelsRead(RollReport(features, session, issues))
  {
    RolledPresence(features, session, issues);
    RolledAttention(features, session, issues);
    hide FeatureReads, RollFeature, Strongest, Anywhere, Reads;
    var r := RollReport(features, session, issues);
    forall i | 0 <= i < |features| ensures FeatureReads(issues, r.features[i]) {
      RollFeaturesAt(issues, features, i);
      RolledFeatureReads(issues, features[i]);
    }
    hide RollReport;
  }

  lemma RolledPresence(features: seq<Feature>, session: Option<Presence>, issues: seq<Issue>)
    ensures var r := RollReport(features, session, issues);
            Strongest(r.presence, Anywhere(r, Present), Anywhere(r, Unknown), Anywhere(r, Stale))
  {
    hide RollFeatures, RollFeature, Warned, RollupPresence, AnyFeatureNeeds;
    var r := RollReport(features, session, issues);
    RollupStrongest(FeaturePresences(r.features) + Optional(session));
    FeaturePresencesAre(r.features, session, Present);
    FeaturePresencesAre(r.features, session, Unknown);
    FeaturePresencesAre(r.features, session, Stale);
    hide FeaturePresences;
  }

  lemma RolledAttention(features: seq<Feature>, session: Option<Presence>, issues: seq<Issue>)
    ensures var r := RollReport(features, session, issues);
            Reads(r.issues, WorkspaceScope, "", "", r.presence, r.attention,
                  exists i :: 0 <= i < |r.features| && r.features[i].attention == NeedsAttention)
  {
    hide RollFeatures, RollFeature, Warned, RollupPresence, FeaturePresences;
    WarnedIn(issues, WorkspaceScope, "", "");
  }

  // ---------- what the document shows ----------

  /** The checkout's session belongs to this branch: it is trusted, in scope, and names the branch before any other. */
  ghost predicate Attributed(scoped: Option<string>, t: Tmux, record: SessionRecord, vs: seq<FeatureEvidence>, i: nat,
                             j: nat) {
    && Trusted(record, t) && record.feature != "" && record.name != ""
    && (scoped.Some? ==> scoped.value == record.feature)
    && HasBranchAt(vs, record.feature, record.name, i, j)
    && forall k: nat, l: nat :: HasBranchAt(vs, record.feature, record.name, k, l) ==> i < k || (i == k && j <= l)
  }

  ghost predicate EntryShows(external: bool, scoped: Option<string>, t: Tmux, record: SessionRecord,
                             vs: seq<FeatureEvidence>, i: nat, j: nat, e: Entry)
    requires i < |vs| && j < |vs[i].branches|
  {
    && e.feature == vs[i].name && e.name == vs[i].branches[j].name
    && forall p :: p in e.sessions <==>
                     if external then BranchShows(t, vs[i].branches[j], p)
                     else SessionShows(record, t, p) && Attributed(scoped, t, record, vs, i, j)
  }

  ghost predicate FeatureShows(external: bool, scoped: Option<string>, t: Tmux, record: SessionRecord,
                               vs: seq<FeatureEvidence>, i: nat, f: Feature)
    requires i < |vs|
  {
    && f.name == vs[i].name && |f.entries| == |vs[i].branches|
    && (forall j :: 0 <= j < |f.entries| ==> EntryShows(external, scoped, t, record, vs, i, j, f.entries[j]))
    && (f.tmux == Some(Present) <==> external && TmuxSeen(t, vs[i].tmuxName, vs[i].path))
    && (f.tmux == Some(Unknown) <==> external && TmuxUnsure(t, vs[i].tmuxName, vs[i].path))
    && f.tmux != Some(Stale)
  }

  ghost predicate FeaturesShow(external: bool, scoped: Option<string>, t: Tmux, record: SessionRecord,
                               vs: seq<FeatureEvidence>, fs: seq<Feature>) {
    |fs| == |vs| && forall i :: 0 <= i < |fs| ==> FeatureShows(external, scoped, t, record, vs, i, fs[i])
  }

  lemma {:induction false} BuiltEntriesAt(external: bool, t: Tmux, feature: string, bs: seq<Branch>, j: nat)
    requires j < |bs|
    ensures |BuiltEntries(external, t, feature, bs)| == |bs|
    ensures BuiltEntries(external, t, feature, bs)[j] == BuiltEntry(external, t, feature, bs[j])
  {
    hide BuiltEntry;
    if |bs| > 1 { BuiltEntriesAt(external, t, feature, bs[..|bs| - 1], if j < |bs| - 1 then j else 0); }
  }

  lemma {:induction false} BuiltFeaturesAt(external: bool, t: Tmux, vs: seq<FeatureEvidence>, i: nat)
    requires i < |vs|
    ensures |BuiltFeatures(external, t, vs)| == |vs|
    ensures BuiltFeatures(external, t, vs)[i] == BuiltFeature(external, t, vs[i])
  {
    hide BuiltFeature;
    if |vs| > 1 { BuiltFeaturesAt(external, t, vs[..|vs| - 1], if i < |vs| - 1 then i else 0); }
  }

  /** A feature as it is built: an external one shows its evidence, and nothing is attributed to any other yet. */
  lemma BuiltShows(external: bool, scoped: Option<string>, t: Tmux, record: SessionRecord, vs: seq<FeatureEvidence>,
                   i: nat)
    requires i < |vs| && (external || !Trusted(record, t))
    ensures FeatureShows(external, scoped, t, record, vs, i, BuiltFeature(external, t, vs[i]))
  {
    hide TmuxSeen, TmuxUnsure, Trusted, BranchShows, SessionShows, SessionsOf;
    var v := vs[i];
    var es := BuiltEntries(external, t, v.name, v.branches);
    assert |v.branches| == 0 ==> es == [];
    if |v.branches| > 0 { BuiltEntriesAt(external, t, v.name, v.branches, 0); }
    hide BuiltEntries;
    forall j | 0 <= j < |v.branches| ensures EntryShows(external, scoped, t, record, vs, i, j, es[j]) {
      BuiltEntriesAt(external, t, v.name, v.branches, j);
      forall p ensures p in es[j].sessions <==> external && BranchShows(t, v.branches[j], p) {
        SessionsShow(external, t, v.branches[j], p);
      }
    }
  }

  lemma RolledFeatureShows(external: bool, scoped: Option<string>, t: Tmux, record: SessionRecord,
                           vs: seq<FeatureEvidence>, i: nat, f: Feature, issues: seq<Issue>)
    requires i < |vs| && FeatureShows(external, scoped, t, record, vs, i, f)
    ensures FeatureShows(external, scoped, t, record, vs, i, RollFeature(issues, f))
  {
    hide RollupPresence, Warned, TmuxSeen, TmuxUnsure, BranchShows, SessionShows, Attributed, AnyEntryNeeds;
    var r := RollFeature(issues, f);
    forall j | 0 <= j < |r.entries| ensures EntryShows(external, scoped, t, record, vs, i, j, r.entries[j]) {
      RolledEntryShows(external, scoped, t, record, vs, i, j, f.entries[j], issues);
    }
    hide EntryShows, RollEntry;
  }

  lemma RolledEntryShows(external: bool, scoped: Option<string>, t: Tmux, record: SessionRecord,
                         vs: seq<FeatureEvidence>, i: nat, j: nat, e: Entry, issues: seq<Issue>)
    requires i < |vs| && j < |vs[i].branches| && EntryShows(external, scoped, t, record, vs, i, j, e)
    ensures EntryShows(external, scoped, t, record, vs, i, j, RollEntry(issues, e))
  {
    hide RollupPresence, Warned, BranchShows, SessionShows, Attributed;
    assert RollEntry(issues, e).sessions == e.sessions;
  }

  /** Rolling up changes nothing that is shown. */
  lemma RolledShows(external: bool, scoped: Option<string>, t: Tmux, record: SessionRecord, vs: seq<FeatureEvidence>,
                    fs: seq<Feature>, issues: seq<Issue>)
    requires FeaturesShow(external, scoped, t, record, vs, fs)
    ensures FeaturesShow(external, scoped, t, record, vs, RollFeatures(issues, fs))
  {
    hide FeatureShows, RollFeature;
    forall i | 0 <= i < |fs|
      ensures FeatureShows(external, scoped, t, record, vs, i, RollFeatures(issues, fs)[i])
    {
      RollFeaturesAt(issues, fs, i);
      RolledFeatureShows(external, scoped, t, record, vs, i, fs[i], issues);
    }
  }

  // ---------- attributing the checkout's session ----------

  lemma BuiltNames(t: Tmux, vs: seq<FeatureEvidence>, feature: string, name: string, i: nat, j: nat)
    ensures Names(BuiltFeatures(false, t, vs), feature, name, i, j) <==> HasBranchAt(vs, feature, name, i, j)
  {
    var fs := BuiltFeatures(false, t, vs);
    assert |vs| == 0 ==> fs == [];
    if |vs| > 0 { BuiltFeaturesAt(false, t, vs, if i < |vs| then i else 0); }
    if i < |vs| {
      var bs := vs[i].branches;
      assert |bs| == 0 ==> fs[i].entries == [];
      if |bs| > 0 { BuiltEntriesAt(false, t, vs[i].name, bs, if j < |bs| then j else 0); }
    }
  }

  /** Where some entry has the names, one has them first. */
  lemma {:induction false} FirstNamed(fs: seq<Feature>, feature: string, name: string, i: nat, j: nat)
    returns (k: nat, l: nat)
    requires Names(fs, feature, name, i, j)
    ensures NamesFirst(fs, feature, name, k, l)
    decreases i, j
  {
    hide Names;
    if NamesFirst(fs, feature, name, i, j) {
      k, l := i, j;
    } else {
      var m: nat, n: nat :| Names(fs, feature, name, m, n) && !(i < m || (i == m && j <= n));
      k, l := FirstNamed(fs, feature, name, m, n);
    }
  }

  /** In a checkout no feature shows a session before one is attributed. */
  lemma BuiltBare(t: Tmux, vs: seq<FeatureEvidence>, i: nat)
    requires i < |vs|
    ensures var fs := BuiltFeatures(false, t, vs);
            && |fs| == |vs| && fs[i].name == vs[i].name && fs[i].tmux == None && |fs[i].entries| == |vs[i].branches|
            && forall j :: 0 <= j < |vs[i].branches| ==>
                 fs[i].entries[j] == Entry(vs[i].name, vs[i].branches[j].name, [], NoRuntime, Idle)
  {
    BuiltFeaturesAt(false, t, vs, i);
    var bs := vs[i].branches;
    assert |bs| == 0 ==> BuiltEntries(false, t, vs[i].name, bs) == [];
    if |bs| > 0 { BuiltEntriesAt(false, t, vs[i].name, bs, 0); }
    hide BuiltEntries;
    forall j | 0 <= j < |bs|
      ensures BuiltEntries(false, t, vs[i].name, bs)[j] == Entry(vs[i].name, bs[j].name, [], NoRuntime, Idle)
    {
      BuiltEntriesAt(false, t, vs[i].name, bs, j);
    }
  }

  lemma BareShows(scoped: Option<string>, t: Tmux, record: SessionRecord, vs: seq<FeatureEvidence>)
    requires forall k: nat, l: nat :: !Attributed(scoped, t, record, vs, k, l)
    ensures FeaturesShow(false, scoped, t, record, vs, BuiltFeatures(false, t, vs))
  {
    var fs := BuiltFeatures(false, t, vs);
    assert |vs| == 0 ==> fs == [];
    if |vs| > 0 { BuiltBare(t, vs, 0); }
    hide Attributed, SessionShows, TmuxSeen, TmuxUnsure, BranchShows, BuiltFeatures;
    forall i | 0 <= i < |fs| ensures FeatureShows(false, scoped, t, record, vs, i, fs[i]) { BuiltBare(t, vs, i); }
  }

  lemma AttachedShows(scoped: Option<string>, t: Tmux, record: SessionRecord, vs: seq<FeatureEvidence>, i: nat, j: nat,
                      p: Presence)
    requires Attributed(scoped, t, record, vs, i, j) && Projected(record, t) == Some(p)
    ensures var fs := BuiltFeatures(false, t, vs);
            && i < |fs| && j < |fs[i].entries|
            && FeaturesShow(false, scoped, t, record, vs, Attached(fs, i, j, p))
  {
    BuiltBare(t, vs, i);
    var fs := BuiltFeatures(false, t, vs);
    var gs := Attached(fs, i, j, p);
    assert [] + [p] == [p];
    forall q ensures SessionShows(record, t, q) <==> q == p { ProjectedShows(record, t, q); }
    assert forall k: nat, l: nat :: Attributed(scoped, t, record, vs, k, l) ==> k == i && l == j;
    hide Attributed, SessionShows, TmuxSeen, TmuxUnsure, BranchShows, BuiltFeatures, Projected;
    forall k | 0 <= k < |gs| ensures FeatureShows(false, scoped, t, record, vs, k, gs[k]) { BuiltBare(t, vs, k); }
  }

  /** What attribution does to the document is what the evidence says about the session. */
  lemma AttributionShows(scoped: Option<string>, t: Tmux, record: SessionRecord, vs: seq<FeatureEvidence>, p: Presence,
                         issues: seq<Issue>, fs: seq<Feature>, issues': seq<Issue>)
    requires Attributable(record, t) && Projected(record, t) == Some(p)
    requires Attribution(scoped, record.feature, record.name, p, BuiltFeatures(false, t, vs), issues, fs, issues')
    ensures FeaturesShow(false, scoped, t, record, vs, fs)
    ensures forall x :: x in issues' <==> x in issues || SessionCalls(scoped, t, record, vs, x)
  {
    var feature, name := record.feature, record.name;
    var built := BuiltFeatures(false, t, vs);
    forall q ensures SessionShows(record, t, q) <==> q == p { ProjectedShows(record, t, q); }
    ProjectedShows(record, t, p);
    assert Trusted(record, t);
    forall k: nat, l: nat ensures Names(built, feature, name, k, l) <==> HasBranchAt(vs, feature, name, k, l) {
      BuiltNames(t, vs, feature, name, k, l);
    }
    hide BuiltFeatures, Names, SessionShows, Projected, Attributable, FeaturesShow, Trusted, HasBranchAt, HasBranch;
    if feature == "" || name == "" || (scoped.Some? && scoped.value != feature) || !HasBranch(vs, feature, name) {
      BareShows(scoped, t, record, vs);
    } else {
      var k: nat, l: nat :| HasBranchAt(vs, feature, name, k, l);
      var i, j := FirstNamed(built, feature, name, k, l);
      AttachedShows(scoped, t, record, vs, i, j, p);
    }
  }

  // ---------- the whole document ----------

  /** How the builder leaves the features and the issues raised before the last ones. */
  ghost predicate Assembled(external: bool, scoped: Option<string>, t: Tmux, record: SessionRecord, lock: Lock,
                            vs: seq<FeatureEvidence>, rest: Surroundings, fs: seq<Feature>, early: seq<Issue>) {
    var built := BuiltFeatures(external, t, vs);
    var collected := Collected(external, t, record, lock, rest) + FeaturesIssues(external, t, vs);
    if !external && Attributable(record, t) then
      && Projected(record, t).Some?
      && Attribution(scoped, record.feature, record.name, Projected(record, t).value, built, collected, fs, early)
    else fs == built && early == collected
  }

  lemma CollectedAre(external: bool, t: Tmux, record: SessionRecord, lock: Lock, vs: seq<FeatureEvidence>,
                     rest: Surroundings, x: Issue)
    ensures x in Collected(external, t, record, lock, rest) + FeaturesIssues(external, t, vs) <==>
              || x in rest.header || WorkspaceCalls(external, t, record, lock, rest.dirty, x)
              || (exists i :: 0 <= i < |vs| && Given(vs[i], x))
              || (exists i :: 0 <= i < |vs| && Calls(external, t, vs[i], x))
  {
    WorkspaceIssuesAre(external, t, record, lock, rest, x);
    FeaturesIssuesAre(external, t, vs, x);
    hide Collected, FeaturesIssues, WorkspaceCalls, Given, Calls;
  }

  /** The features show their evidence. */
  lemma AssembledShows(external: bool, scoped: Option<string>, t: Tmux, record: SessionRecord, lock: Lock,
                       vs: seq<FeatureEvidence>, rest: Surroundings, fs: seq<Feature>, early: seq<Issue>)
    requires Assembled(external, scoped, t, record, lock, vs, rest, fs, early)
    ensures FeaturesShow(external, scoped, t, record, vs, fs)
  {
    ProjectedShows(record, t, Present);
    hide Collected, FeaturesIssues, Projected, Attributable, FeatureShows, Trusted;
    if !external && Attributable(record, t) {
      var collected := Collected(external, t, record, lock, rest) + FeaturesIssues(external, t, vs);
      AttributionShows(scoped, t, record, vs, Projected(record, t).value, collected, fs, early);
    } else {
      assert |vs| == 0 ==> fs == [];
      if |vs| > 0 { BuiltFeaturesAt(external, t, vs, 0); }
      hide BuiltFeatures;
      forall i | 0 <= i < |vs| ensures FeatureShows(external, scoped, t, record, vs, i, fs[i]) {
        BuiltFeaturesAt(external, t, vs, i);
        BuiltShows(external, scoped, t, record, vs, i);
      }
    }
  }

  /** An issue is raised exactly when it was handed in or the evidence calls for it. */
  lemma AssembledIssues(external: bool, scoped: Option<string>, t: Tmux, record: SessionRecord, lock: Lock,
                        vs: seq<FeatureEvidence>, rest: Surroundings, fs: seq<Feature>, early: seq<Issue>, x: Issue)
    requires Assembled(external, scoped, t, record, lock, vs, rest, fs, early)
    ensures x in early + rest.late <==>
              || GivenAnywhere(vs, rest, x)
              || CalledFor(external, scoped, t, record, lock, rest.dirty, vs, x)
  {
    CollectedAre(external, t, record, lock, vs, rest, x);
    ProjectedShows(record, t, Present);
    hide Collected, FeaturesIssues, Projected, Attributable, Given, Calls, WorkspaceCalls;
    if !external && Attributable(record, t) {
      var collected := Collected(external, t, record, lock, rest) + FeaturesIssues(external, t, vs);
      AttributionShows(scoped, t, record, vs, Projected(record, t).value, collected, fs, early);
    } else {
      assert !external ==> !SessionCalls(scoped, t, record, vs, x);
    }
    hide SessionCalls, Attribution, Trusted;
  }

  // ---------- the builder ----------

  lemma {:induction false} WarnedGrows(issues: seq<Issue>, more: seq<Issue>, scope: Scope, feature: string,
                                       name: string)
    requires issues <= more && Warned(issues, scope, feature, name)
    ensures Warned(more, scope, feature, name)
  {
    var k :| 0 <= k < |issues| && HomedAt(issues[k], scope, feature, name) && Warns(issues[k]);
    assert more[k] == issues[k];
  }

  lemma {:induction false} EntryOwnedGrows(issues: seq<Issue>, more: seq<Issue>, e: Entry)
    requires issues <= more && EntryOwned(issues, e)
    ensures EntryOwned(more, e)
  {
    if Warned(issues, EntryScope, e.feature, e.name) { WarnedGrows(issues, more, EntryScope, e.feature, e.name); }
  }

  lemma {:induction false} FeatureOwnedGrows(issues: seq<Issue>, more: seq<Issue>, f: Feature)
    requires issues <= more && FeatureOwned(issues, f)
    ensures FeatureOwned(more, f)
  {
    forall k | 0 <= k < |f.entries| ensures EntryOwned(more, f.entries[k]) {
      EntryOwnedGrows(issues, more, f.entries[k]);
    }
    if Warned(issues, FeatureScope, f.name, "") { WarnedGrows(issues, more, FeatureScope, f.name, ""); }
  }

  lemma {:induction false} AllOwnedGrows(features: seq<Feature>, session: Option<Presence>, issues: seq<Issue>,
                                         more: seq<Issue>)
    requires issues <= more && AllOwned(features, session, issues)
    ensures AllOwned(features, session, more)
  {
    forall k | 0 <= k < |features| ensures FeatureOwned(more, features[k]) {
      FeatureOwnedGrows(issues, more, features[k]);
    }
    hide FeatureOwned;
    if session.Some? && Unverifiable(session.value) {
      if Warned(issues, WorkspaceScope, "", "") {
        WarnedGrows(issues, more, WorkspaceScope, "", "");
      } else {
        var i, j :| 0 <= i < |features| && 0 <= j < |features[i].entries|
          && Warned(issues, EntryScope, features[i].entries[j].feature, features[i].entries[j].name);
        WarnedGrows(issues, more, EntryScope, features[i].entries[j].feature, features[i].entries[j].name);
      }
    }
  }

  class Builder {
    const external: bool
    const scoped: Option<string>
    const tmux: Tmux
    var issues: seq<Issue>
    var features: seq<Feature>
    var session: Option<Presence>
    // Carried from the projection of the checkout session to its attribution.
    var attributable: bool
    var pending: bool
    var sessionFeature: string
    var sessionName: string
    var tmuxRecordSeen: bool

    constructor (external: bool, scoped: Option<string>, tmux: Tmux)
      ensures this.external == external && this.scoped == scoped && this.tmux == tmux
      ensures issues == [] && features == [] && session == None && !attributable && !pending && !tmuxRecordSeen
    {
      this.external, this.scoped, this.tmux := external, scoped, tmux;
      issues, features, session := [], [], None;
      attributable, pending, sessionFeature, sessionName, tmuxRecordSeen := false, false, "", "", false;
    }

    method Raise(scope: Scope, feature: string, name: string, severity: Severity)
      modifies this`issues
      ensures issues == old(issues) + [Issue(scope, feature, name, severity)]
      ensures old(issues) <= issues
      ensures severity != Info ==> Warned(issues, scope, feature, name)
    {
      issues := issues + [Issue(scope, feature, name, severity)];
      assert HomedAt(issues[|issues| - 1], scope, feature, name);
    }

    /** Issues raised by collectors that look at no runtime. */
    method Add(more: seq<Issue>)
      modifies this`issues
      ensures issues == old(issues) + more
    {
      issues := issues + more;
    }

    // ---------- entries ----------

    method AppendBranchTmux(e: Entry, b: Branch) returns (r: Entry)
      requires EntryOwned(issues, e) && b.worktree.Some?
      modifies this`issues
      ensures EntryOwned(issues, r)
      ensures r == e.(sessions := e.sessions + Optional(TmuxPresence(tmux, b.tmuxName, b.worktree.value)))
      ensures var home := Issue(EntryScope, e.feature, e.name, Warning);
              issues == old(issues) + TmuxIssues(tmux, b.tmuxName, b.worktree.value, home)
    {
      var v := VerifyTmuxName(tmux, b.tmuxName, b.worktree.value);
      if v.None? {
        assert e.sessions + [] == e.sessions;
        return e;
      }
      if v.value.1 { Raise(EntryScope, e.feature, e.name, Warning); }
      EntryOwnedGrows(old(issues), issues, e);
      r := e.(sessions := e.sessions + [v.value.0]);
    }

    /** `appendDirectSessions`. */
    method AppendDirectSessions(e: Entry, records: Option<seq<DirectRecord>>) returns (r: Entry)
      requires EntryOwned(issues, e)
      modifies this`issues
      ensures EntryOwned(issues, r)
      ensures r == e.(sessions := e.sessions + DirectShown(records))
      ensures issues == old(issues) + DirectRaised(records, Issue(EntryScope, e.feature, e.name, Warning))
    {
      ghost var home := Issue(EntryScope, e.feature, e.name, Warning);
      if records.None? {
        Raise(EntryScope, e.feature, e.name, Warning);
        assert e.sessions + [] == e.sessions;
        return e;
      }
      r := e;
      var rs := records.value;
      assert e.sessions + [] == e.sessions && issues + [] == issues;
      for i := 0 to |rs|
        invariant EntryOwned(issues, r) && issues == old(issues) + DirectIssues(rs[..i], home)
        invariant r == e.(sessions := e.sessions + DirectPresences(rs[..i]))
      {
        assert rs[..i + 1][..i] == rs[..i];
        ghost var before := issues;
        var p := Unknown;
        match rs[i] {
          case Unsupported => Raise(EntryScope, e.feature, e.name, Warning);
          case Invalid => Raise(EntryScope, e.feature, e.name, Warning);
          case Readable(owner) =>
            p := LivenessPresence(owner);
            if p != Present { Raise(EntryScope, e.feature, e.name, Warning); }
        }
        assert issues == before + if p == Present then [] else [home];
        assert issues == old(issues) + DirectIssues(rs[..i + 1], home);
        EntryOwnedGrows(before, issues, r);
        assert e.sessions + DirectPresences(rs[..i]) + [p] == e.sessions + DirectPresences(rs[..i + 1]);
        r := r.(sessions := r.sessions + [p]);
      }
      assert rs[..|rs|] == rs;
    }

    method BuildEntry(feature: string, b: Branch) returns (e: Entry)
      modifies this`issues
      ensures EntryOwned(issues, e) && e == BuiltEntry(external, tmux, feature, b)
      ensures issues == old(issues) + EntryIssues(external, tmux, feature, b)
    {
      e := Entry(feature, b.name, [], NoRuntime, Idle);
      Add(b.others);
      assert EntryOwned(issues, e) && issues + [] == issues;
      hide EntryOwned, SessionsOf, RuntimeIssues;
      ghost var own := issues;
      if external { e := AppendSessions(e, b); }
      assert external ==> issues == own + RuntimeIssues(tmux, feature, b);
      assert e.sessions == SessionsOf(external, tmux, b) by { NoneUnlessExternal(b); }
    }

    lemma NoneUnlessExternal(b: Branch)
      ensures SessionsOf(false, tmux, b) == []
    {
    }

    /** What an external branch shows: its tmux session, then its direct records. */
    method AppendSessions(e: Entry, b: Branch) returns (r: Entry)
      requires EntryOwned(issues, e) && e == Entry(e.feature, b.name, [], NoRuntime, Idle)
      modifies this`issues
      ensures EntryOwned(issues, r) && r == e.(sessions := SessionsOf(true, tmux, b))
      ensures issues == old(issues) + RuntimeIssues(tmux, e.feature, b)
    {
      hide EntryOwned, TmuxPresence, TmuxIssues, DirectShown, DirectRaised, Optional;
      ghost var raised := [];
      r := e;
      if b.worktree.Some? {
        r := AppendBranchTmux(e, b);
        raised := TmuxIssues(tmux, b.tmuxName, b.worktree.value, Issue(EntryScope, e.feature, e.name, Warning));
      }
      assert issues == old(issues) + raised;
      r := AppendDirectSessions(r, b.direct);
      ghost var more := DirectRaised(b.direct, Issue(EntryScope, e.feature, e.name, Warning));
      assert old(issues) + raised + more == old(issues) + (raised + more);
    }

    method BuildFeatureTmux(v: FeatureEvidence) returns (p: Option<Presence>)
      modifies this`issues
      ensures p == TmuxPresence(tmux, v.tmuxName, v.path)
      ensures issues == old(issues) + TmuxIssues(tmux, v.tmuxName, v.path, Issue(FeatureScope, v.name, "", Warning))
      ensures p.Some? && Unverifiable(p.value) ==> Warned(issues, FeatureScope, v.name, "")
    {
      var t := VerifyTmuxName(tmux, v.tmuxName, v.path);
      if t.None? { return None; }
      if t.value.1 { Raise(FeatureScope, v.name, "", Warning); }
      return Some(t.value.0);
    }

    /** `buildFeature`. */
    method BuildFeature(v: FeatureEvidence) returns (f: Feature)
      modifies this`issues
      ensures FeatureOwned(issues, f) && f == BuiltFeature(external, tmux, v)
      ensures issues == old(issues) + FeatureIssues(external, tmux, v)
    {
      FeatureIssuesParts(v);
      hide *;
      RaiseStack(v);
      Add(v.sync);
      f := BuildRuntime(v);
      FinishFeature(v, f);
      Regroup(old(issues), StackIssues(v), v.sync, RuntimePart(v), EntriesIssues(external, tmux, v.name, v.branches),
              StrayPart(v), v.late);
    }

    ghost function StrayPart(v: FeatureEvidence): seq<Issue> {
      if external && v.strays.Some? then StrayIssues(v.strays.value, Issue(FeatureScope, v.name, "", Warning)) else []
    }

    lemma FeatureIssuesParts(v: FeatureEvidence)
      ensures FeatureIssues(external, tmux, v)
              == StackIssues(v) + v.sync + RuntimePart(v) + EntriesIssues(external, tmux, v.name, v.branches)
                 + StrayPart(v) + v.late
    {
      hide StackIssues, TreeIssues, TmuxIssues, EntriesIssues, StrayIssues;
    }

    method FinishFeature(v: FeatureEvidence, f: Feature)
      requires FeatureOwned(issues, f)
      modifies this`issues
      ensures FeatureOwned(issues, f) && issues == old(issues) + StrayPart(v) + v.late
    {
      hide FeatureOwned, StrayIssues;
      assert issues + [] == issues;
      if external && v.strays.Some? { RaiseStrays(v.strays.value, v.name); }
      Add(v.late);
      FeatureOwnedGrows(old(issues), issues, f);
    }

    /** The feature-level runtime evidence and what owns it. */
    ghost function RuntimePart(v: FeatureEvidence): seq<Issue> {
      if external then TreeIssues(v) + TmuxIssues(tmux, v.tmuxName, v.path, Issue(FeatureScope, v.name, "", Warning))
      else []
    }

    lemma Regroup(a: seq<Issue>, b: seq<Issue>, c: seq<Issue>, d: seq<Issue>, e: seq<Issue>, f: seq<Issue>,
                  g: seq<Issue>)
      ensures a + b + c + (d + e) + f + g == a + (b + c + d + e + f + g)
    {
    }

    method RaiseStack(v: FeatureEvidence)
      modifies this`issues
      ensures issues == old(issues) + StackIssues(v)
    {
      match v.stack
      case StackFine =>
      case StackMissing => Raise(FeatureScope, v.name, "", Info);
      case StackInvalid => Raise(FeatureScope, v.name, "", Warning);
    }

    method RaiseStrays(strays: seq<nat>, name: string)
      modifies this`issues
      ensures issues == old(issues) + StrayIssues(strays, Issue(FeatureScope, name, "", Warning))
    {
      ghost var home := Issue(FeatureScope, name, "", Warning);
      assert issues + [] == issues;
      for i := 0 to |strays|
        invariant issues == old(issues) + StrayIssues(strays[..i], home)
      {
        assert strays[..i + 1][..i] == strays[..i];
        if strays[i] > 0 { Raise(FeatureScope, name, "", Warning); }
      }
      assert strays[..|strays|] == strays;
    }

    /** The part of `buildFeature` that looks at runtimes. */
    method BuildRuntime(v: FeatureEvidence) returns (f: Feature)
      modifies this`issues
      ensures FeatureOwned(issues, f) && f == BuiltFeature(external, tmux, v)
      ensures issues == old(issues) + (RuntimePart(v) + EntriesIssues(external, tmux, v.name, v.branches))
    {
      hide BuiltEntries, TmuxPresence, TmuxIssues, EntriesIssues, EntryOwned, Warned;
      var runtime := None;
      assert issues + [] == issues;
      if external {
        if v.strays.None? { Raise(FeatureScope, v.name, "", Warning); }
        runtime := BuildFeatureTmux(v);
      }
      ghost var before := issues;
      assert before == old(issues) + RuntimePart(v);
      var es := BuildEntries(v);
      f := Feature(v.name, es, runtime, NoRuntime, Idle);
      if Warned(before, FeatureScope, v.name, "") { WarnedGrows(before, issues, FeatureScope, v.name, ""); }
    }

    method BuildEntries(v: FeatureEvidence) returns (es: seq<Entry>)
      modifies this`issues
      ensures es == BuiltEntries(external, tmux, v.name, v.branches)
      ensures issues == old(issues) + EntriesIssues(external, tmux, v.name, v.branches)
      ensures forall k :: 0 <= k < |es| ==> EntryOwned(issues, es[k])
    {
      hide BuiltEntry, EntryIssues, EntryOwned;
      es := [];
      assert issues + [] == issues;
      for i := 0 to |v.branches|
        invariant es == BuiltEntries(external, tmux, v.name, v.branches[..i])
        invariant issues == old(issues) + EntriesIssues(external, tmux, v.name, v.branches[..i])
        invariant forall k :: 0 <= k < |es| ==> EntryOwned(issues, es[k])
      {
        assert v.branches[..i + 1][..i] == v.branches[..i];
        ghost var before := issues;
        var e := BuildEntry(v.name, v.branches[i]);
        forall k | 0 <= k < |es| ensures EntryOwned(issues, es[k]) { EntryOwnedGrows(before, issues, es[k]); }
        es := es + [e];
      }
      assert v.branches[..|v.branches|] == v.branches;
    }

    // ---------- the checkout session ----------

    /** The workspace's session is owned, or waits to be attributed with its own issue. */
    ghost predicate SessionCovered()
      reads this
    {
      session.Some? && Unverifiable(session.value) ==>
        || Warned(issues, WorkspaceScope, "", "")
        || (attributable && pending)
        || (tmuxRecordSeen && !Usable(tmux))
    }

    method EvaluateLock(lock: Lock)
      modifies this`issues
      ensures issues == old(issues) + LockIssues(lock)
    {
      if lock != GoodLock { Raise(WorkspaceScope, "", "", Warning); }
    }

    /** `projectCheckoutSession`. */
    method ProjectSession(record: SessionRecord, lock: Lock)
      requires session == None && !attributable && !pending && !tmuxRecordSeen
      modifies this
      ensures issues == old(issues) + SessionIssues(record, lock) && features == old(features)
      ensures SessionCovered() && session == Projected(record, tmux)
      ensures attributable <==> Attributable(record, tmux)
      ensures attributable ==> session.Some? && (pending <==> Unverifiable(session.value))
      ensures record.Parsed? ==> sessionFeature == record.feature && sessionName == record.name
      ensures tmuxRecordSeen <==> TmuxMode(record)
    {
      hide Warned;
      match record
      case NoRecord =>
        if lock != NoLock { Raise(WorkspaceScope, "", "", Warning); }
      case Unparsed =>
        session := Some(Unknown);
        Raise(WorkspaceScope, "", "", Warning);
        ghost var before := issues;
        EvaluateLock(lock);
        WarnedGrows(before, issues, WorkspaceScope, "", "");
      case Newer(tmuxMode) =>
        tmuxRecordSeen := tmuxMode;
        session := Some(Unknown);
        Raise(WorkspaceScope, "", "", Warning);
        ghost var before := issues;
        EvaluateLock(lock);
        WarnedGrows(before, issues, WorkspaceScope, "", "");
      case Parsed(_, _, _, _, _, stageKnown, ours) =>
        ProjectParsed(record);
        NoteRecord(stageKnown, ours);
        ghost var before := issues;
        EvaluateLock(lock);
        if Warned(before, WorkspaceScope, "", "") { WarnedGrows(before, issues, WorkspaceScope, "", ""); }
    }

    /** The presence a trusted record gives. */
    method ProjectParsed(record: SessionRecord)
      requires record.Parsed? && !pending
      modifies this`tmuxRecordSeen, this`sessionFeature, this`sessionName, this`attributable, this`session, this`pending
      ensures SessionCovered() && session == Projected(record, tmux)
      ensures attributable <==> Attributable(record, tmux)
      ensures attributable ==> session.Some? && (pending <==> Unverifiable(session.value))
      ensures sessionFeature == record.feature && sessionName == record.name
      ensures tmuxRecordSeen <==> TmuxMode(record)
    {
      tmuxRecordSeen := record.tmuxMode;
      sessionFeature, sessionName, attributable := record.feature, record.name, true;
      if !record.tmuxMode {
        session := Some(LivenessPresence(record.owner));
        pending := record.owner != Live;
      } else if !Usable(tmux) {
        session := Some(Unknown);
        attributable := false;
      } else if record.tmuxSession != "" && record.tmuxSession in tmux.sessions {
        session := Some(Present);
      } else {
        session := Some(Stale);
        pending := true;
      }
    }

    method NoteRecord(stageKnown: bool, ours: bool)
      modifies this`issues
      ensures issues ==
              old(issues) + (if stageKnown then [] else [WORKSPACE_NOTE]) + if ours then [] else [WORKSPACE_NOTE]
    {
      if !stageKnown { Raise(WorkspaceScope, "", "", Info); }
      if !ours { Raise(WorkspaceScope, "", "", Info); }
    }

    /** `emitRepoDirtyIssue`. */
    method EmitDirty(dirty: Option<bool>)
      requires SessionCovered()
      modifies this`issues
      ensures SessionCovered() && issues == old(issues) + DirtyIssues(dirty, session.Some?)
    {
      ghost var before := issues;
      if dirty == Some(true) {
        Raise(WorkspaceScope, "", "", if session.Some? then Warning else Info);
      }
      if Warned(before, WorkspaceScope, "", "") { WarnedGrows(before, issues, WorkspaceScope, "", ""); }
    }

    /** `emitTmuxWorkspaceIssue`. */
    method EmitTmuxIssue()
      requires SessionCovered()
      modifies this`issues
      ensures issues == old(issues) + TmuxSummary(tmux, tmuxRecordSeen)
      ensures session.Some? && Unverifiable(session.value) ==>
                Warned(issues, WorkspaceScope, "", "") || (attributable && pending)
    {
      ghost var before := issues;
      if !tmux.available {
        Raise(WorkspaceScope, "", "", if tmuxRecordSeen then Warning else Info);
      } else if tmux.failed || tmux.panesFailed {
        Raise(WorkspaceScope, "", "", Warning);
      }
      if Warned(before, WorkspaceScope, "", "") { WarnedGrows(before, issues, WorkspaceScope, "", ""); }
    }

    ghost predicate FeaturesOwned()
      reads this
    {
      forall k :: 0 <= k < |features| ==> FeatureOwned(issues, features[k])
    }

    lemma FeaturesOwnedGrow(before: seq<Issue>)
      requires before <= issues && forall k :: 0 <= k < |features| ==> FeatureOwned(before, features[k])
      ensures FeaturesOwned()
    {
      forall k | 0 <= k < |features| ensures FeatureOwned(issues, features[k]) {
        FeatureOwnedGrows(before, issues, features[k]);
      }
    }

    /** The first entry the session names, if the report has it. */
    method FindEntry() returns (found: bool, i: nat, j: nat)
      ensures found ==> NamesFirst(features, sessionFeature, sessionName, i, j)
      ensures !found ==> forall k: nat, l: nat :: !Names(features, sessionFeature, sessionName, k, l)
    {
      i := 0;
      while i < |features|
        invariant i <= |features|
        invariant forall k: nat, l: nat :: k < i ==> !Names(features, sessionFeature, sessionName, k, l)
      {
        if features[i].name == sessionFeature {
          j := 0;
          while j < |features[i].entries|
            invariant j <= |features[i].entries|
            invariant forall l: nat :: l < j ==> !Names(features, sessionFeature, sessionName, i, l)
          {
            if features[i].entries[j].name == sessionName { return true, i, j; }
            j := j + 1;
          }
        }
        i := i + 1;
      }
      return false, 0, 0;
    }

    /** `attributeCheckoutSession`. */
    method AttributeSession()
      requires FeaturesOwned()
      requires forall k :: 0 <= k < |features| ==> Named(features[k])
      requires session.Some? && Unverifiable(session.value) ==>
                 Warned(issues, WorkspaceScope, "", "") || (attributable && pending)
      requires attributable ==> session.Some? && (pending <==> Unverifiable(session.value))
      modifies this`issues, this`features
      ensures AllOwned(features, session, issues)
      ensures !attributable ==> features == old(features) && issues == old(issues)
      ensures attributable ==>
                Attribution(scoped, sessionFeature, sessionName, session.value,
                            old(features), old(issues), features, issues)
    {
      ghost var before := issues;
      if session.None? || !attributable { return; }
      if sessionFeature == "" || sessionName == "" {
        Raise(WorkspaceScope, "", "", Warning);
        FeaturesOwnedGrow(before);
        return;
      }
      if scoped.Some? && sessionFeature != scoped.value {
        if pending {
          Raise(WorkspaceScope, "", "", Warning);
          FeaturesOwnedGrow(before);
        }
        return;
      }
      var found, i, j := FindEntry();
      if !found {
        Raise(WorkspaceScope, "", "", Warning);
        FeaturesOwnedGrow(before);
        return;
      }
      if pending { Raise(EntryScope, sessionFeature, sessionName, Warning); }
      FeaturesOwnedGrow(before);
      Attach(i, j);
    }

    /** Puts the session on the entry that names it. */
    method Attach(i: nat, j: nat)
      requires FeaturesOwned() && session.Some? && i < |features| && j < |features[i].entries|
      requires Unverifiable(session.value) ==>
                 Warned(issues, EntryScope, features[i].entries[j].feature, features[i].entries[j].name)
      modifies this`features
      ensures features == Attached(old(features), i, j, session.value)
      ensures AllOwned(features, session, issues)
    {
      var f := features[i];
      var e := f.entries[j];
      var attached := e.(sessions := e.sessions + [session.value]);
      assert EntryOwned(issues, e) && FeatureOwned(issues, f);
      assert EntryOwned(issues, attached);
      var g := f.(entries := f.entries[j := attached]);
      assert FeatureOwned(issues, g);
      features := features[i := g];
      assert features[i].entries[j].feature == e.feature && features[i].entries[j].name == e.name;
    }

    // ---------- the document ----------

    /** `buildAgentStatus`, from the evidence on: whatever was observed, no level whose runtime is stale or
        unknown reads as idle or active. */
    method Build(record: SessionRecord, lock: Lock, evidence: seq<FeatureEvidence>, rest: Surroundings)
      returns (r: Report)
      requires issues == [] && features == [] && session == None && !attributable && !pending && !tmuxRecordSeen
      modifies this
      ensures Honest(r) && LevelsRead(r) && r == RollReport(features, session, issues)
      ensures FeaturesShow(external, scoped, tmux, record, evidence, r.features)
      ensures r.session == session && (external ==> session == None)
      ensures forall p :: r.session == Some(p) <==> !external && SessionShows(record, tmux, p)
      ensures forall x :: x in r.issues <==>
                || GivenAnywhere(evidence, rest, x)
                || CalledFor(external, scoped, tmux, record, lock, rest.dirty, evidence, x)
      ensures |issues| >= |rest.late| && issues[|issues| - |rest.late|..] == rest.late
      ensures Assembled(external, scoped, tmux, record, lock, evidence, rest, features,
                        issues[..|issues| - |rest.late|])
    {
      OnlyParsedAttributed(record);
      hide *;
      ObserveWorkspace(record, lock, rest);
      BuildFeatures(evidence);
      if external { SessionlessOwned(); } else { AttributeSession(); }
      ghost var early := issues;
      Add(rest.late);
      assert issues[..|early|] == early && issues[|early|..] == rest.late;
      AllOwnedGrows(features, session, early, issues);
      OwnedIsHonest(features, session, issues);
      r := Recompute(features, session, issues);
      AssembledIsAttribution(record, lock, evidence, rest, early);
      assert issues == early + rest.late && issues[..|issues| - |rest.late|] == early;
      RolledReads(features, session, issues);
      AssembledShows(external, scoped, tmux, record, lock, evidence, rest, features, early);
      RolledShows(external, scoped, tmux, record, evidence, features, issues);
      forall x
        ensures x in issues <==>
                  || GivenAnywhere(evidence, rest, x)
                  || CalledFor(external, scoped, tmux, record, lock, rest.dirty, evidence, x)
      {
        AssembledIssues(external, scoped, tmux, record, lock, evidence, rest, features, early, x);
      }
      forall p ensures Projected(record, tmux) == Some(p) <==> SessionShows(record, tmux, p) {
        ProjectedShows(record, tmux, p);
      }
      RolledHolds(r);
    }

    /** What the document takes over unchanged. */
    lemma RolledHolds(r: Report)
      requires r == RollReport(features, session, issues)
      ensures r.features == RollFeatures(issues, features) && r.session == session && r.issues == issues
    {
    }

    lemma AssembledIsAttribution(record: SessionRecord, lock: Lock, evidence: seq<FeatureEvidence>, rest: Surroundings,
                                 early: seq<Issue>)
      requires session == if external then None else Projected(record, tmux)
      requires Attributable(record, tmux) && !external ==> session.Some?
      requires var fs := BuiltFeatures(external, tmux, evidence);
               var raised := FeaturesIssues(external, tmux, evidence);
               var collected := Collected(external, tmux, record, lock, rest) + raised;
               if !external && Attributable(record, tmux)
               then Attribution(scoped, record.feature, record.name, session.value, fs, collected, features, early)
               else features == fs && early == collected
      ensures Assembled(external, scoped, tmux, record, lock, evidence, rest, features, early)
    {
    }

    lemma OnlyParsedAttributed(record: SessionRecord)
      ensures Attributable(record, tmux) ==> record.Parsed?
    {
    }

    lemma SessionlessOwned()
      requires FeaturesOwned() && session.None?
      ensures AllOwned(features, session, issues)
    {
    }

    /** The checkout's session and the state of tmux, before any feature. */
    method ObserveWorkspace(record: SessionRecord, lock: Lock, rest: Surroundings)
      requires issues == [] && features == [] && session == None && !attributable && !pending && !tmuxRecordSeen
      modifies this
      ensures features == [] && issues == Collected(external, tmux, record, lock, rest)
      ensures session == if external then None else Projected(record, tmux)
      ensures session.Some? && Unverifiable(session.value) ==>
                Warned(issues, WorkspaceScope, "", "") || (attributable && pending)
      ensures attributable <==> !external && Attributable(record, tmux)
      ensures attributable ==> session.Some? && (pending <==> Unverifiable(session.value))
      ensures record.Parsed? && !external ==> sessionFeature == record.feature && sessionName == record.name
    {
      Add(rest.header);
      assert issues == rest.header;
      hide SessionIssues, Projected, Warned, DirtyIssues, TmuxSummary;
      if external {
        EmitTmuxIssue();
      } else {
        ObserveCheckout(record, lock, rest.dirty);
      }
      assert issues == Collected(external, tmux, record, lock, rest);
    }

    method ObserveCheckout(record: SessionRecord, lock: Lock, dirty: Option<bool>)
      requires features == [] && session == None && !attributable && !pending && !tmuxRecordSeen
      modifies this
      ensures features == [] && session == Projected(record, tmux)
      ensures issues == old(issues)
                + (SessionIssues(record, lock) + DirtyIssues(dirty, Projected(record, tmux).Some?)
                   + TmuxSummary(tmux, TmuxMode(record)))
      ensures session.Some? && Unverifiable(session.value) ==>
                Warned(issues, WorkspaceScope, "", "") || (attributable && pending)
      ensures attributable <==> Attributable(record, tmux)
      ensures attributable ==> session.Some? && (pending <==> Unverifiable(session.value))
      ensures record.Parsed? ==> sessionFeature == record.feature && sessionName == record.name
    {
      hide *;
      ProjectSession(record, lock);
      EmitDirty(dirty);
      EmitTmuxIssue();
    }

    method BuildFeatures(evidence: seq<FeatureEvidence>)
      requires features == []
      modifies this`issues, this`features
      ensures FeaturesOwned() && features == BuiltFeatures(external, tmux, evidence)
      ensures issues == old(issues) + FeaturesIssues(external, tmux, evidence)
      ensures old(Warned(issues, WorkspaceScope, "", "")) ==> Warned(issues, WorkspaceScope, "", "")
      ensures forall k :: 0 <= k < |features| ==> Named(features[k])
    {
      hide BuiltFeature, FeatureIssues, FeatureOwned, Warned;
      assert issues + [] == issues;
      for i := 0 to |evidence|
        invariant FeaturesOwned() && features == BuiltFeatures(external, tmux, evidence[..i])
        invariant issues == old(issues) + FeaturesIssues(external, tmux, evidence[..i])
        invariant forall k :: 0 <= k < |features| ==> Named(features[k])
      {
        assert evidence[..i + 1][..i] == evidence[..i];
        ghost var before := issues;
        var f := BuildFeature(evidence[i]);
        FeaturesOwnedGrow(before);
        BuiltIsNamed(external, tmux, evidence[i]);
        features := features + [f];
      }
      assert evidence[..|evidence|] == evidence;
      if old(Warned(issues, WorkspaceScope, "", "")) { WarnedGrows(old(issues), issues, WorkspaceScope, "", ""); }
    }
  }

  // ---------- narrowing to one feature ----------

  function KeptFeatures(fs: seq<Feature>, name: string): seq<Feature> {
    if |fs| == 0 then []
    else KeptFeatures(fs[..|fs| - 1], name) + if fs[|fs| - 1].name == name then [fs[|fs| - 1]] else []
  }

  function KeptIssues(issues: seq<Issue>, feature: string): seq<Issue> {
    if |issues| == 0 then []
    else
      var i := issues[|issues| - 1];
      KeptIssues(issues[..|issues| - 1], feature)
      + if i.scope == WorkspaceScope || i.feature == feature then [i] else []
  }

  /** `FilterFeature`: the kept features stay as they are, the workspace's presence too, and only its attention is
      rolled up again. */
  method FilterFeature(r: Report, feature: string) returns (out: Option<Report>)
    ensures out.None? <==> KeptFeatures(r.features, feature) == []
    ensures out.Some? ==> out.value == Filtered(r, feature)
    ensures out.None? <==> forall f :: f in r.features ==> f.name != feature
    ensures out.Some? ==>
              && (forall f :: f in out.value.features <==> f in r.features && f.name == feature)
              && (forall x :: x in out.value.issues <==>
                    x in r.issues && (x.scope == WorkspaceScope || x.feature == feature))
              && out.value.session == r.session && out.value.presence == r.presence && |out.value.features| > 0
              && Reads(out.value.issues, WorkspaceScope, "", "", r.presence, out.value.attention,
                       out.value.features[0].attention == NeedsAttention)
  {
    FilterKeeps(r.features, r.issues, feature);
    hide Reads;

    var kept: seq<Feature> := [];
    for i := 0 to |r.features|
      invariant kept == KeptFeatures(r.features[..i], feature)
    {
      assert r.features[..i + 1][..i] == r.features[..i];
      if r.features[i].name == feature { kept := kept + [r.features[i]]; }
    }
    assert r.features[..|r.features|] == r.features;
    if kept == [] { return None; }
    var issues: seq<Issue> := [];
    for i := 0 to |r.issues|
      invariant issues == KeptIssues(r.issues[..i], feature)
    {
      assert r.issues[..i + 1][..i] == r.issues[..i];
      if r.issues[i].scope == WorkspaceScope || r.issues[i].feature == feature { issues := issues + [r.issues[i]]; }
    }
    assert r.issues[..|r.issues|] == r.issues;
    out := Some(Report(kept, r.session, r.presence,
      RollupAttention(r.presence, Warned(issues, WorkspaceScope, "", ""), kept[0].attention == NeedsAttention),
      issues));
    AttentionReads(issues, r.presence, kept[0].attention == NeedsAttention);
  }

  lemma AttentionReads(issues: seq<Issue>, p: Presence, child: bool)
    ensures Reads(issues, WorkspaceScope, "", "", p,
                  RollupAttention(p, Warned(issues, WorkspaceScope, "", ""), child), child)
  {
    WarnedIn(issues, WorkspaceScope, "", "");
  }

  lemma FilterKeeps(fs: seq<Feature>, issues: seq<Issue>, feature: string)
    ensures forall f :: f in KeptFeatures(fs, feature) <==> f in fs && f.name == feature
    ensures KeptFeatures(fs, feature) == [] <==> forall f :: f in fs ==> f.name != feature
    ensures forall x :: x in KeptIssues(issues, feature) <==>
              x in issues && (x.scope == WorkspaceScope || x.feature == feature)
  {
    FeaturesKept(fs, feature);
    IssuesKept(issues, feature);
    hide KeptIssues;
    var kept := KeptFeatures(fs, feature);
    hide KeptFeatures;
    if kept != [] { assert kept[0] in kept; }
  }

  lemma {:induction false} FeaturesKept(fs: seq<Feature>, feature: string)
    ensures forall f :: f in KeptFeatures(fs, feature) <==> f in fs && f.name == feature
  {
    if |fs| > 0 {
      FeaturesKept(fs[..|fs| - 1], feature);
      assert fs == fs[..|fs| - 1] + [fs[|fs| - 1]];
    }
  }

  lemma {:induction false} IssuesKept(issues: seq<Issue>, feature: string)
    ensures forall x :: x in KeptIssues(issues, feature) <==>
              x in issues && (x.scope == WorkspaceScope || x.feature == feature)
  {
    if |issues| > 0 {
      IssuesKept(issues[..|issues| - 1], feature);
      assert issues == issues[..|issues| - 1] + [issues[|issues| - 1]];
    }
  }

  function Filtered(r: Report, feature: string): Report
    requires KeptFeatures(r.features, feature) != []
  {
    var kept, issues := KeptFeatures(r.features, feature), KeptIssues(r.issues, feature);
    Report(kept, r.session, r.presence,
           RollupAttention(r.presence, Warned(issues, WorkspaceScope, "", ""), kept[0].attention == NeedsAttention),
           issues)
  }

  lemma {:induction false} KeptWarned(issues: seq<Issue>, feature: string, scope: Scope, f: string, name: string)
    requires scope == WorkspaceScope || f == feature
    ensures Warned(KeptIssues(issues, feature), scope, f, name) <==> Warned(issues, scope, f, name)
  {
    if |issues| > 0 {
      var t, i := issues[..|issues| - 1], issues[|issues| - 1];
      KeptWarned(t, feature, scope, f, name);
      OneMoreIssue(t, i, scope, f, name);
      OneMoreIssue(KeptIssues(t, feature), i, scope, f, name);
      assert issues == t + [i];
      hide Warned;
      assert KeptIssues(t, feature) + [] == KeptIssues(t, feature);
    }
  }

  lemma {:induction false} OneMoreIssue(issues: seq<Issue>, i: Issue, scope: Scope, f: string, name: string)
    ensures Warned(issues + [i], scope, f, name)
            <==> Warned(issues, scope, f, name) || (HomedAt(i, scope, f, name) && Warns(i))
  {
    assert (issues + [i])[|issues|] == i;
    assert forall k :: 0 <= k < |issues| ==> (issues + [i])[k] == issues[k];
  }

  lemma {:induction false} RolledTwice(issues: seq<Issue>, f: Feature)
    requires Named(f)
    ensures RollFeature(KeptIssues(issues, f.name), RollFeature(issues, f)) == RollFeature(issues, f)
  {
    var kept, r := KeptIssues(issues, f.name), RollFeature(issues, f);
    KeptWarned(issues, f.name, FeatureScope, f.name, "");
    forall k | 0 <= k < |f.entries|
      ensures RollEntry(kept, r.entries[k]) == r.entries[k]
    {
      KeptWarned(issues, f.name, EntryScope, f.name, f.entries[k].name);
    }
    assert RollEntries(kept, r.entries) == r.entries;
  }

  lemma {:induction false} KeptAre(fs: seq<Feature>, name: string, k: nat) returns (i: nat)
    requires k < |KeptFeatures(fs, name)|
    ensures i < |fs| && fs[i].name == name && KeptFeatures(fs, name)[k] == fs[i]
  {
    var t := fs[..|fs| - 1];
    if k < |KeptFeatures(t, name)| {
      i := KeptAre(t, name, k);
    } else {
      i := |fs| - 1;
    }
  }

  /** Filtering keeps the kept feature's rollups: rolling it up again from the issues that are left changes
      nothing. */
  lemma {:induction false} FilterKeepsRollups(features: seq<Feature>, session: Option<Presence>, issues: seq<Issue>,
                                              feature: string, k: nat)
    requires forall i :: 0 <= i < |features| ==> Named(features[i])
    requires k < |KeptFeatures(RollReport(features, session, issues).features, feature)|
    ensures var out := Filtered(RollReport(features, session, issues), feature);
            RollFeature(out.issues, out.features[k]) == out.features[k]
  {
    var fs := RollFeatures(issues, features);
    var i := KeptAre(fs, feature, k);
    RollFeaturesAt(issues, features, i);
    RolledTwice(issues, features[i]);
  }

  /** After filtering, the workspace line stays honest exactly when nothing unverifiable was left out of sight: its
      presence still counts the features that were dropped, its attention no longer does. */
  lemma {:induction false} FilteredHonestExactly(r: Report, feature: string)
    requires Honest(r) && KeptFeatures(r.features, feature) != []
    ensures Honest(Filtered(r, feature)) <==>
              || !Unverifiable(r.presence)
              || Warned(r.issues, WorkspaceScope, "", "")
              || KeptFeatures(r.features, feature)[0].attention == NeedsAttention
  {
    var out := Filtered(r, feature);
    KeptWarned(r.issues, feature, WorkspaceScope, "", "");
    forall k | 0 <= k < |out.features|
      ensures FeatureHonest(out.features[k])
    {
      var i := KeptAre(r.features, feature, k);
    }
  }

  // A feature that shows nothing, and one whose only branch has a direct record of a dead process.
  const CALM := Tmux(true, false, {}, true, false, [])
  const QUIET_EVIDENCE := FeatureEvidence("quiet", "/quiet", "quiet", [], StackFine, [], Some([]), [])
  const DEAD_BRANCH := Branch("work", "busy-work", None, Some([Readable(Dead)]), [])
  const BUSY_EVIDENCE := FeatureEvidence("busy", "/busy", "busy", [DEAD_BRANCH], StackFine, [], Some([]), [])
  const QUIET := Feature("quiet", [], None, NoRuntime, Idle)
  const RAW := Feature("busy", [Entry("busy", "work", [Stale], NoRuntime, Idle)], None, NoRuntime, Idle)
  const WORK := Entry("busy", "work", [Stale], Stale, NeedsAttention)
  const BUSY := Feature("busy", [WORK], None, Stale, NeedsAttention)
  const WORK_ISSUES := [Issue(EntryScope, "busy", "work", Warning)]

  lemma {:induction false} ExampleBuilt()
    ensures BuiltFeature(true, CALM, QUIET_EVIDENCE) == QUIET && BuiltFeature(true, CALM, BUSY_EVIDENCE) == RAW
    ensures FeatureIssues(true, CALM, QUIET_EVIDENCE) == [] && FeatureIssues(true, CALM, BUSY_EVIDENCE) == WORK_ISSUES
  {
    var rs := [Readable(Dead)];
    assert rs[..0] == [];
    assert DirectPresences(rs) == [] + [Stale] == [Stale];
    assert DirectIssues(rs, WORK_ISSUES[0]) == [] + WORK_ISSUES == WORK_ISSUES;
    var bs := [DEAD_BRANCH];
    assert bs[..0] == [];
    assert BuiltEntries(true, CALM, "busy", bs) == [] + RAW.entries == RAW.entries;
    assert EntriesIssues(true, CALM, "busy", bs) == [] + EntryIssues(true, CALM, "busy", DEAD_BRANCH) == WORK_ISSUES;
  }

  lemma {:induction false} ExampleDocument()
    ensures BuiltFeatures(true, CALM, [QUIET_EVIDENCE, BUSY_EVIDENCE]) == [QUIET, RAW]
    ensures FeaturesIssues(true, CALM, [QUIET_EVIDENCE, BUSY_EVIDENCE]) == WORK_ISSUES
  {
    ExampleBuilt();
    hide BuiltFeature, FeatureIssues;
    var vs := [QUIET_EVIDENCE, BUSY_EVIDENCE];
    assert vs[..1] == [QUIET_EVIDENCE] && [QUIET_EVIDENCE][..0] == [];
    assert BuiltFeatures(true, CALM, [QUIET_EVIDENCE]) == [] + [QUIET];
    assert FeaturesIssues(true, CALM, [QUIET_EVIDENCE]) == [] + [];
  }

  lemma {:induction false} ExampleRolls()
    ensures RollFeature(WORK_ISSUES, QUIET) == QUIET && RollFeature(WORK_ISSUES, RAW) == BUSY
  {
    assert HomedAt(WORK_ISSUES[0], EntryScope, "busy", "work");
    assert RAW.entries[..0] == [];
    var es := RollEntries(WORK_ISSUES, RAW.entries);
    assert es[0] == WORK && es == [WORK];
    assert EntryPresences([WORK]) + Optional(None) == [Stale];
    assert EntryPresences([]) + Optional(None) == [];
  }

  lemma {:induction false} ExampleReport()
    ensures RollReport([QUIET, RAW], None, WORK_ISSUES)
            == Report([QUIET, BUSY], None, Stale, NeedsAttention, WORK_ISSUES)
  {
    ExampleRolls();
    hide RollFeature;
    RollFeaturesMore(WORK_ISSUES, [], QUIET);
    RollFeaturesMore(WORK_ISSUES, [QUIET], RAW);
    assert [] + [QUIET] == [QUIET] && [QUIET] + [RAW] == [QUIET, RAW] && [QUIET] + [BUSY] == [QUIET, BUSY];
    assert RollFeatures(WORK_ISSUES, [QUIET, RAW]) == [QUIET, BUSY];
    assert FeaturePresences([QUIET, BUSY]) + Optional(None) == [NoRuntime, Stale];
    assert [QUIET, BUSY][1].attention == NeedsAttention;
  }

  lemma {:induction false} ExampleFiltered()
    ensures var r := Report([QUIET, BUSY], None, Stale, NeedsAttention, WORK_ISSUES);
            && KeptFeatures(r.features, "quiet") == [QUIET]
            && Filtered(r, "quiet").presence == Stale && Filtered(r, "quiet").attention == Idle
  {
    var features := [QUIET, BUSY];
    assert features[..1] == [QUIET] && [QUIET][..0] == [];
    assert KeptFeatures([QUIET], "quiet") == [QUIET];
    assert KeptFeatures(features, "quiet") == [QUIET];
    KeptWarned(WORK_ISSUES, "quiet", WorkspaceScope, "", "");
  }

  /** The builder's document for these two features is honest; narrowed to the quiet one it calls a workspace with
      a stale runtime idle. */
  method FilteredCanReadIdle() returns (r: Report)
    ensures Honest(r) && r.presence == Stale && r.attention == NeedsAttention
    ensures KeptFeatures(r.features, "quiet") != []
    ensures Filtered(r, "quiet").presence == Stale && Filtered(r, "quiet").attention == Idle
  {
    r := BuildExample();
    ExampleReport();
    ExampleFiltered();
    hide *;
  }

  method BuildExample() returns (r: Report)
    ensures Honest(r) && r == RollReport([QUIET, RAW], None, WORK_ISSUES)
  {
    ExampleDocument();
    r := BuildExternal([QUIET_EVIDENCE, BUSY_EVIDENCE]);
    hide *;
  }

  lemma NothingCollected(rest: Surroundings)
    requires rest.header == []
    ensures Collected(true, CALM, NoRecord, NoLock, rest) == []
  {
  }

  lemma AssembledExternal(vs: seq<FeatureEvidence>, rest: Surroundings)
    ensures forall fs, early :: Assembled(true, None, CALM, NoRecord, NoLock, vs, rest, fs, early) ==>
              && fs == BuiltFeatures(true, CALM, vs)
              && early == Collected(true, CALM, NoRecord, NoLock, rest) + FeaturesIssues(true, CALM, vs)
  {
  }

  /** An external workspace in which nothing but the features has anything to report. */
  method BuildExternal(evidence: seq<FeatureEvidence>) returns (r: Report)
    ensures Honest(r)
    ensures r == RollReport(BuiltFeatures(true, CALM, evidence), None, FeaturesIssues(true, CALM, evidence))
  {
    hide *;
    var builder := new Builder(true, None, CALM);
    var rest := Surroundings([], None, []);
    NothingCollected(rest);
    AssembledExternal(evidence, rest);
    ghost var fs, raised := BuiltFeatures(true, CALM, evidence), FeaturesIssues(true, CALM, evidence);
    assert [] + raised == raised;
    r := builder.Build(NoRecord, NoLock, evidence, rest);
    assert builder.issues[..|builder.issues| - |rest.late|] == builder.issues;
    assert builder.features == fs && builder.issues == raised && builder.session == None;
  }
}
