/** The approval-scope identity of a rebase plan: which members the fingerprint binds,
    the exact bytes it hashes, and that those bytes determine every bound member. */
module PlanFingerprint {
  import opened Options
  import opened Tlv

  type Text = seq<byte>

  datatype ContextRef = ContextRef(contextId: Option<Text>, source: Text)
  datatype Head = Head(state: Option<Text>, sha: Option<Text>)
  datatype Base = Base(name: Option<Text>, ref: Option<Text>, decisionSha: Option<Text>)
  datatype Destination = Destination(
    sha: Option<Text>, snapshotSha: Option<Text>, deferred: bool, dependsOn: Option<Text>)
  datatype Cutoff = Cutoff(
    recordedSha: Option<Text>, state: Option<Text>, effectiveSha: Option<Text>, source: Text,
    validity: Option<Text>, reason: Option<Text>, resolvedSha: Option<Text>)
  datatype Replay = Replay(
    determinacy: Text, reason: Option<Text>, upstreamProvenance: Text, upstreamSha: Option<Text>,
    candidateCount: Option<int>, firstCandidate: Option<Text>, candidateDigest: Option<Text>)
  datatype Mutation = Mutation(willSwitchHead: bool, willLeaveHeadOn: Option<Text>, headRestoredByRun: bool)
  datatype Context = Context(
    dirty: Option<bool>, autostash: Option<bool>, autostashAppliesToThisArm: Option<bool>,
    rebaseInProgress: Option<bool>)
  datatype CollateralRef = CollateralRef(repo: Text, ref: Text, sha: Text, stackOwned: bool)

  datatype Entry = Entry(
    name: Text, gitBranch: Text, repo: Text, executionContext: ContextRef, role: Text, materialization: Text,
    head: Head, base: Base, destination: Destination, cutoff: Cutoff, replay: Replay, strategy: Text,
    argvAlternatives: Option<(seq<Text>, seq<Text>)>, effectiveBackend: Option<Text>, mutation: Mutation,
    context: Context, branchCheckedOutAt: Option<Text>, collateralMechanism: Option<Text>,
    collateralExposed: Option<bool>, baseContext: ContextRef, collateralRefs: Option<seq<CollateralRef>>)

  datatype ConfigSlot = ConfigSlot(status: Text, value: Option<Text>)
  datatype Repository = Repository(
    repo: Text, contextId: Text, updateRefs: ConfigSlot, rebaseMerges: ConfigSlot,
    rebaseMergesInterpretation: Text, backend: ConfigSlot, autoStash: ConfigSlot)

  datatype PushTarget = PushTarget(
    repo: Text, contextId: Option<Text>, gitBranch: Text, remote: Text, ref: Text, force: Text, scope: Text,
    leaseExpectation: Text, leaseExpectedRef: Option<Text>, leaseExpectedSha: Option<Text>)

  datatype Workspace = Workspace(mode: Text, stableId: Option<Text>, repoRoot: Text)
  datatype Policy = Policy(fetch: Text, propagation: Text, scopeKind: Text, selector: Option<Text>)
  datatype Limits = Limits(perEntry: Option<int>, total: Option<int>)
  datatype Intent = Intent(push: bool, validationApplies: bool, commandDigest: Option<Text>)
  datatype Restore = Restore(
    applies: bool, willSwitchHead: Option<bool>, targetBranch: Option<Text>, targetSha: Option<Text>,
    pushDropped: bool, executable: Option<bool>)

  /** A plan document.  `outcome` stands for everything decided after the token is minted:
      blockers, warnings, evaluation rows, the approval block itself. */
  datatype Plan<Outcome> = Plan(
    workspace: Workspace, feature: Text, route: Text, policy: Policy, limits: Limits, intent: Intent,
    restore: Restore, approvalScope: Text, repositories: seq<Repository>, pushTargets: seq<PushTarget>,
    pushExecutable: Option<bool>, entries: seq<Entry>, outcome: Outcome)

  // ---------- what is bound ----------

  function BoundEntry(e: Entry): Entry {
    e.(replay := e.replay.(firstCandidate := None), context := e.context.(rebaseInProgress := None))
  }

  function BoundEntries(es: seq<Entry>): (r: seq<Entry>)
    ensures |r| == |es|
    ensures forall k :: 0 <= k < |es| ==> r[k] == BoundEntry(es[k])
  {
    seq(|es|, k requires 0 <= k < |es| => BoundEntry(es[k]))
  }

  /** The plan with every member the fingerprint does not bind replaced by a fixed value. */
  function Bound<O>(p: Plan<O>): Plan<()> {
    Plan(p.workspace.(repoRoot := []), p.feature, p.route, p.policy, p.limits, p.intent,
         p.restore.(executable := None), p.approvalScope, p.repositories, p.pushTargets,
         None, BoundEntries(p.entries), ())
  }

  /** Counts are machine words. */
  ghost predicate MachineWord(o: Option<int>) {
    o.Some? ==> -TWO_TO_THE_63 <= o.value < TWO_TO_THE_63
  }

  ghost predicate MachineWords<O>(p: Plan<O>) {
    && MachineWord(p.limits.perEntry) && MachineWord(p.limits.total)
    && forall k :: 0 <= k < |p.entries| ==> MachineWord(p.entries[k].replay.candidateCount)
  }

  lemma FramedStruct(fs: seq<Field>)
    ensures Framed(TAG_STRUCT, Fields(fs)) == Element(Struct(fs))
  {
  }

  // ---------- repositories, push targets, collateral refs ----------

  function RepositoryFields(r: Repository): seq<Field> {
    [Field(1, Bytes(r.repo)), Field(2, Bytes(r.contextId)),
     Field(3, Bytes(r.updateRefs.status)), Field(4, BytesPtr(r.updateRefs.value)),
     Field(5, Bytes(r.rebaseMerges.status)), Field(6, BytesPtr(r.rebaseMerges.value)),
     Field(7, Bytes(r.rebaseMergesInterpretation)),
     Field(8, Bytes(r.backend.status)), Field(9, BytesPtr(r.backend.value)),
     Field(10, Bytes(r.autoStash.status)), Field(11, BytesPtr(r.autoStash.value))]
  }

  method EncodeRepository(r: Repository) returns (payload: seq<byte>)
    ensures payload == Fields(RepositoryFields(r))
  {
    hide Fields, BytesPtr;
    var e := new Encoder();
    e.WriteBytes(1, r.repo);
    e.WriteBytes(2, r.contextId);
    e.WriteBytes(3, r.updateRefs.status);
    e.WriteBytesPtr(4, r.updateRefs.value);
    assert e.members == RepositoryFields(r)[..4];
    e.WriteBytes(5, r.rebaseMerges.status);
    e.WriteBytesPtr(6, r.rebaseMerges.value);
    e.WriteBytes(7, r.rebaseMergesInterpretation);
    e.WriteBytes(8, r.backend.status);
    assert e.members == RepositoryFields(r)[..8];
    e.WriteBytesPtr(9, r.backend.value);
    e.WriteBytes(10, r.autoStash.status);
    e.WriteBytesPtr(11, r.autoStash.value);
    assert e.members == RepositoryFields(r);
    payload := e.buf;
  }

  function PushTargetFields(t: PushTarget): seq<Field> {
    [Field(1, Bytes(t.repo)), Field(2, BytesPtr(t.contextId)), Field(3, Bytes(t.gitBranch)),
     Field(4, Bytes(t.remote)), Field(5, Bytes(t.ref)), Field(6, Bytes(t.force)), Field(7, Bytes(t.scope)),
     Field(8, Bytes(t.leaseExpectation)), Field(9, BytesPtr(t.leaseExpectedRef)),
     Field(10, BytesPtr(t.leaseExpectedSha))]
  }

  method EncodePushTarget(t: PushTarget) returns (payload: seq<byte>)
    ensures payload == Fields(PushTargetFields(t))
  {
    hide Fields, BytesPtr;
    var e := new Encoder();
    e.WriteBytes(1, t.repo);
    e.WriteBytesPtr(2, t.contextId);
    e.WriteBytes(3, t.gitBranch);
    assert e.members == PushTargetFields(t)[..3];
    e.WriteBytes(4, t.remote);
    e.WriteBytes(5, t.ref);
    e.WriteBytes(6, t.force);
    e.WriteBytes(7, t.scope);
    assert e.members == PushTargetFields(t)[..7];
    e.WriteBytes(8, t.leaseExpectation);
    e.WriteBytesPtr(9, t.leaseExpectedRef);
    e.WriteBytesPtr(10, t.leaseExpectedSha);
    assert e.members == PushTargetFields(t);
    payload := e.buf;
  }

  function CollateralFields(c: CollateralRef): seq<Field> {
    [Field(1, Bytes(c.repo)), Field(2, Bytes(c.ref)), Field(3, Bytes(c.sha)), Field(4, Bool(c.stackOwned))]
  }

  method EncodeCollateralRef(c: CollateralRef) returns (payload: seq<byte>)
    ensures payload == Fields(CollateralFields(c))
  {
    var e := new Encoder();
    e.WriteBytes(1, c.repo);
    e.WriteBytes(2, c.ref);
    e.WriteBytes(3, c.sha);
    e.WriteBool(4, c.stackOwned);
    assert e.members == CollateralFields(c);
    payload := e.buf;
  }

  // ---------- arrays ----------

  function RepositoryItems(rs: seq<Repository>): seq<Value> {
    if |rs| == 0 then [] else RepositoryItems(rs[..|rs| - 1]) + [Struct(RepositoryFields(rs[|rs| - 1]))]
  }

  function PushTargetItems(ts: seq<PushTarget>): seq<Value> {
    if |ts| == 0 then [] else PushTargetItems(ts[..|ts| - 1]) + [Struct(PushTargetFields(ts[|ts| - 1]))]
  }

  function CollateralItems(cs: seq<CollateralRef>): seq<Value> {
    if |cs| == 0 then [] else CollateralItems(cs[..|cs| - 1]) + [Struct(CollateralFields(cs[|cs| - 1]))]
  }

  function TokenItems(ts: seq<Text>): seq<Value> {
    if |ts| == 0 then [] else TokenItems(ts[..|ts| - 1]) + [Bytes(ts[|ts| - 1])]
  }

  function CollateralValue(o: Option<seq<CollateralRef>>): Value {
    match o case None => Null case Some(cs) => Array(CollateralItems(cs))
  }

  function ArgvItems(v: (seq<Text>, seq<Text>)): seq<Value> {
    [Array(TokenItems(v.0)), Array(TokenItems(v.1))]
  }

  function ArgvValue(o: Option<(seq<Text>, seq<Text>)>): Value {
    match o case None => Null case Some(v) => Array(ArgvItems(v))
  }

  method EncodeTokens(ts: seq<Text>) returns (elements: seq<seq<byte>>)
    ensures Concat(elements) == Items(TokenItems(ts))
  {
    elements := [];
    for k := 0 to |ts|
      invariant Concat(elements) == Items(TokenItems(ts[..k]))
    {
      var el := Framed(TAG_BYTES, ts[k]);
      assert ts[..k + 1][..k] == ts[..k];
      ConcatSnoc(elements, el);
      ItemsSnoc(TokenItems(ts[..k]), Bytes(ts[k]));
      elements := elements + [el];
    }
    assert ts[..|ts|] == ts;
  }

  method EncodeArgv(o: Option<(seq<Text>, seq<Text>)>) returns (elements: seq<seq<byte>>)
    ensures o.Some? ==> Concat(elements) == Items(ArgvItems(o.value))
  {
    if o.None? { return []; }
    var first := EncodeTokens(o.value.0);
    var second := EncodeTokens(o.value.1);
    elements := [Framed(TAG_ARRAY, Concat(first))];
    ConcatSnoc([], elements[0]);
    assert [] + [elements[0]] == elements;
    ConcatSnoc(elements, Framed(TAG_ARRAY, Concat(second)));
    ItemsSnoc([], Array(TokenItems(o.value.0)));
    ItemsSnoc([] + [Array(TokenItems(o.value.0))], Array(TokenItems(o.value.1)));
    assert [] + [Array(TokenItems(o.value.0))] + [Array(TokenItems(o.value.1))] == ArgvItems(o.value);
    elements := elements + [Framed(TAG_ARRAY, Concat(second))];
  }

  method EncodeCollateral(o: Option<seq<CollateralRef>>) returns (elements: seq<seq<byte>>)
    ensures o.Some? ==> Concat(elements) == Items(CollateralItems(o.value))
  {
    elements := [];
    if o.None? { return; }
    var cs := o.value;
    for k := 0 to |cs|
      invariant Concat(elements) == Items(CollateralItems(cs[..k]))
    {
      var payload := EncodeCollateralRef(cs[k]);
      var el := Framed(TAG_STRUCT, payload);
      assert cs[..k + 1][..k] == cs[..k];
      ConcatSnoc(elements, el);
      ItemsSnoc(CollateralItems(cs[..k]), Struct(CollateralFields(cs[k])));
      elements := elements + [el];
    }
    assert cs[..|cs|] == cs;
  }

  method WriteArgv(enc: Encoder, id: nat, o: Option<(seq<Text>, seq<Text>)>)
    requires enc.Valid()
    modifies enc
    ensures enc.Valid() && enc.members == old(enc.members) + [Field(id, ArgvValue(o))]
  {
    var elements := EncodeArgv(o);
    enc.WriteArrayPtr(id, o.Some?, elements, if o.Some? then ArgvItems(o.value) else []);
  }

  method WriteCollateral(enc: Encoder, id: nat, o: Option<seq<CollateralRef>>)
    requires enc.Valid()
    modifies enc
    ensures enc.Valid() && enc.members == old(enc.members) + [Field(id, CollateralValue(o))]
  {
    var elements := EncodeCollateral(o);
    enc.WriteArrayPtr(id, o.Some?, elements, if o.Some? then CollateralItems(o.value) else []);
  }

  // ---------- entries ----------

  function EntryIdentity(e: Entry): (fs: seq<Field>) ensures |fs| == 9 {
    [Field(1, Bytes(e.name)), Field(2, Bytes(e.gitBranch)), Field(3, Bytes(e.repo)),
     Field(4, BytesPtr(e.executionContext.contextId)), Field(5, Bytes(e.executionContext.source)),
     Field(6, Bytes(e.role)), Field(7, Bytes(e.materialization)),
     Field(8, BytesPtr(e.head.state)), Field(9, BytesPtr(e.head.sha))]
  }

  function EntryTargets(e: Entry): (fs: seq<Field>) ensures |fs| == 8 {
    [Field(10, BytesPtr(e.base.name)), Field(11, BytesPtr(e.base.ref)),
     Field(12, BytesPtr(e.destination.sha)), Field(13, BytesPtr(e.destination.snapshotSha)),
     Field(14, Bool(e.destination.deferred)), Field(15, BytesPtr(e.destination.dependsOn)),
     Field(16, BytesPtr(e.cutoff.recordedSha)), Field(17, BytesPtr(e.cutoff.state))]
  }

  function EntryReplay(e: Entry): (fs: seq<Field>) ensures |fs| == 9 {
    [Field(18, Bytes(e.replay.determinacy)), Field(19, BytesPtr(e.replay.reason)),
     Field(20, Bytes(e.replay.upstreamProvenance)), Field(21, BytesPtr(e.replay.upstreamSha)),
     Field(22, UintPtr(e.replay.candidateCount)), Field(23, BytesPtr(e.replay.candidateDigest)),
     Field(24, Bytes(e.strategy)), Field(25, ArgvValue(e.argvAlternatives)),
     Field(26, BytesPtr(e.effectiveBackend))]
  }

  function EntryEffects(e: Entry): (fs: seq<Field>) ensures |fs| == 9 {
    [Field(27, Bool(e.mutation.willSwitchHead)), Field(28, BytesPtr(e.mutation.willLeaveHeadOn)),
     Field(29, Bool(e.mutation.headRestoredByRun)),
     Field(30, BoolPtr(e.context.dirty)), Field(31, BoolPtr(e.context.autostash)),
     Field(32, BoolPtr(e.context.autostashAppliesToThisArm)), Field(33, BytesPtr(e.branchCheckedOutAt)),
     Field(34, BytesPtr(e.collateralMechanism)), Field(35, BoolPtr(e.collateralExposed))]
  }

  function EntryEvidence(e: Entry): (fs: seq<Field>) ensures |fs| == 10 {
    [Field(36, BytesPtr(e.baseContext.contextId)), Field(37, Bytes(e.baseContext.source)),
     Field(38, BytesPtr(e.base.decisionSha)), Field(39, Bool(e.collateralRefs.Some?)),
     Field(40, CollateralValue(e.collateralRefs)),
     Field(41, BytesPtr(e.cutoff.effectiveSha)), Field(42, Bytes(e.cutoff.source)),
     Field(43, BytesPtr(e.cutoff.validity)), Field(44, BytesPtr(e.cutoff.reason)),
     Field(45, BytesPtr(e.cutoff.resolvedSha))]
  }

  function EntryFields(e: Entry): seq<Field> {
    EntryIdentity(e) + EntryTargets(e) + EntryReplay(e) + EntryEffects(e) + EntryEvidence(e)
  }

  method WriteIdentity(enc: Encoder, e: Entry)
    requires enc.Valid()
    modifies enc
    ensures enc.Valid() && enc.members == old(enc.members) + EntryIdentity(e)
  {
    hide Fields, BoolPtr, UintPtr, BytesPtr, ArgvValue, CollateralValue;
    enc.WriteBytes(1, e.name);
    enc.WriteBytes(2, e.gitBranch);
    enc.WriteBytes(3, e.repo);
    enc.WriteBytesPtr(4, e.executionContext.contextId);
    enc.WriteBytes(5, e.executionContext.source);
    enc.WriteBytes(6, e.role);
    enc.WriteBytes(7, e.materialization);
    enc.WriteBytesPtr(8, e.head.state);
    enc.WriteBytesPtr(9, e.head.sha);
  }

  method WriteTargets(enc: Encoder, e: Entry)
    requires enc.Valid()
    modifies enc
    ensures enc.Valid() && enc.members == old(enc.members) + EntryTargets(e)
  {
    hide Fields, BoolPtr, UintPtr, BytesPtr, ArgvValue, CollateralValue;
    enc.WriteBytesPtr(10, e.base.name);
    enc.WriteBytesPtr(11, e.base.ref);
    enc.WriteBytesPtr(12, e.destination.sha);
    enc.WriteBytesPtr(13, e.destination.snapshotSha);
    enc.WriteBool(14, e.destination.deferred);
    enc.WriteBytesPtr(15, e.destination.dependsOn);
    enc.WriteBytesPtr(16, e.cutoff.recordedSha);
    enc.WriteBytesPtr(17, e.cutoff.state);
  }

  method WriteReplay(enc: Encoder, e: Entry)
    requires enc.Valid()
    modifies enc
    ensures enc.Valid() && enc.members == old(enc.members) + EntryReplay(e)
  {
    hide Fields, BoolPtr, UintPtr, BytesPtr, ArgvValue, CollateralValue;
    enc.WriteBytes(18, e.replay.determinacy);
    enc.WriteBytesPtr(19, e.replay.reason);
    enc.WriteBytes(20, e.replay.upstreamProvenance);
    enc.WriteBytesPtr(21, e.replay.upstreamSha);
    enc.WriteUintPtr(22, e.replay.candidateCount);
    enc.WriteBytesPtr(23, e.replay.candidateDigest);
    enc.WriteBytes(24, e.strategy);
    WriteArgv(enc, 25, e.argvAlternatives);
    enc.WriteBytesPtr(26, e.effectiveBackend);
  }

  method WriteEffects(enc: Encoder, e: Entry)
    requires enc.Valid()
    modifies enc
    ensures enc.Valid() && enc.members == old(enc.members) + EntryEffects(e)
  {
    hide Fields, BoolPtr, UintPtr, BytesPtr, ArgvValue, CollateralValue;
    enc.WriteBool(27, e.mutation.willSwitchHead);
    enc.WriteBytesPtr(28, e.mutation.willLeaveHeadOn);
    enc.WriteBool(29, e.mutation.headRestoredByRun);
    enc.WriteBoolPtr(30, e.context.dirty);
    enc.WriteBoolPtr(31, e.context.autostash);
    enc.WriteBoolPtr(32, e.context.autostashAppliesToThisArm);
    enc.WriteBytesPtr(33, e.branchCheckedOutAt);
    enc.WriteBytesPtr(34, e.collateralMechanism);
    enc.WriteBoolPtr(35, e.collateralExposed);
  }

  method WriteEvidence(enc: Encoder, e: Entry)
    requires enc.Valid()
    modifies enc
    ensures enc.Valid() && enc.members == old(enc.members) + EntryEvidence(e)
  {
    hide Fields, BoolPtr, UintPtr, BytesPtr, ArgvValue, CollateralValue;
    enc.WriteBytesPtr(36, e.baseContext.contextId);
    enc.WriteBytes(37, e.baseContext.source);
    enc.WriteBytesPtr(38, e.base.decisionSha);
    enc.WriteBool(39, e.collateralRefs.Some?);
    WriteCollateral(enc, 40, e.collateralRefs);
    enc.WriteBytesPtr(41, e.cutoff.effectiveSha);
    enc.WriteBytes(42, e.cutoff.source);
    enc.WriteBytesPtr(43, e.cutoff.validity);
    enc.WriteBytesPtr(44, e.cutoff.reason);
    enc.WriteBytesPtr(45, e.cutoff.resolvedSha);
  }

  method EncodeEntry(e: Entry) returns (payload: seq<byte>)
    ensures payload == Fields(EntryFields(e))
  {
    var enc := new Encoder();
    WriteIdentity(enc, e);
    WriteTargets(enc, e);
    WriteReplay(enc, e);
    WriteEffects(enc, e);
    WriteEvidence(enc, e);
    assert enc.members == EntryFields(e);
    payload := enc.buf;
  }

  function EntryItems(es: seq<Entry>): seq<Value> {
    if |es| == 0 then [] else EntryItems(es[..|es| - 1]) + [Struct(EntryFields(es[|es| - 1]))]
  }

  // ---------- the document ----------

  function DocumentPolicy<O>(p: Plan<O>): (fs: seq<Field>) ensures |fs| == 11 {
    [Field(1, Bytes(p.workspace.mode)), Field(2, BytesPtr(p.workspace.stableId)), Field(3, Null),
     Field(4, Bytes(p.feature)), Field(5, Bytes(p.route)),
     Field(6, Bytes(p.policy.fetch)), Field(7, Bytes(p.policy.propagation)),
     Field(8, Bytes(p.policy.scopeKind)), Field(9, BytesPtr(p.policy.selector)),
     Field(10, UintPtr(p.limits.perEntry)), Field(11, UintPtr(p.limits.total))]
  }

  function DocumentIntent<O>(p: Plan<O>): (fs: seq<Field>) ensures |fs| == 9 {
    [Field(12, Bool(p.intent.push)), Field(13, Bool(p.intent.validationApplies)),
     Field(14, BytesPtr(p.intent.commandDigest)),
     Field(15, Bool(p.restore.applies)), Field(16, BoolPtr(p.restore.willSwitchHead)),
     Field(17, BytesPtr(p.restore.targetBranch)), Field(18, BytesPtr(p.restore.targetSha)),
     Field(19, Bool(p.restore.pushDropped)), Field(20, Bytes(p.approvalScope))]
  }

  function DocumentRows(rs: seq<Repository>, ts: seq<PushTarget>, es: seq<Entry>): (fs: seq<Field>)
    ensures |fs| == 3
  {
    [Field(21, Array(RepositoryItems(rs))), Field(22, Array(PushTargetItems(ts))), Field(23, Array(EntryItems(es)))]
  }

  function DocumentFields<O>(p: Plan<O>): seq<Field> {
    DocumentPolicy(p) + DocumentIntent(p) + DocumentRows(p.repositories, p.pushTargets, p.entries)
  }

  method WriteDocumentHead<O>(enc: Encoder, p: Plan<O>)
    requires enc.Valid()
    modifies enc
    ensures enc.Valid() && enc.members == old(enc.members) + DocumentPolicy(p)
  {
    hide Fields, BoolPtr, UintPtr, BytesPtr, ArgvValue, CollateralValue;
    enc.WriteBytes(1, p.workspace.mode);
    enc.WriteBytesPtr(2, p.workspace.stableId);
    enc.WriteNull(3);
    enc.WriteBytes(4, p.feature);
    enc.WriteBytes(5, p.route);
    enc.WriteBytes(6, p.policy.fetch);
    enc.WriteBytes(7, p.policy.propagation);
    enc.WriteBytes(8, p.policy.scopeKind);
    enc.WriteBytesPtr(9, p.policy.selector);
    enc.WriteUintPtr(10, p.limits.perEntry);
    enc.WriteUintPtr(11, p.limits.total);
  }

  method WriteDocumentIntent<O>(enc: Encoder, p: Plan<O>)
    requires enc.Valid()
    modifies enc
    ensures enc.Valid() && enc.members == old(enc.members) + DocumentIntent(p)
  {
    hide Fields, BoolPtr, UintPtr, BytesPtr, ArgvValue, CollateralValue;
    enc.WriteBool(12, p.intent.push);
    enc.WriteBool(13, p.intent.validationApplies);
    enc.WriteBytesPtr(14, p.intent.commandDigest);
    enc.WriteBool(15, p.restore.applies);
    enc.WriteBoolPtr(16, p.restore.willSwitchHead);
    enc.WriteBytesPtr(17, p.restore.targetBranch);
    enc.WriteBytesPtr(18, p.restore.targetSha);
    enc.WriteBool(19, p.restore.pushDropped);
    enc.WriteBytes(20, p.approvalScope);
  }

  method EncodeRepositories(rs: seq<Repository>) returns (elements: seq<seq<byte>>)
    ensures Concat(elements) == Items(RepositoryItems(rs))
  {
    elements := [];
    for k := 0 to |rs|
      invariant Concat(elements) == Items(RepositoryItems(rs[..k]))
    {
      var payload := EncodeRepository(rs[k]);
      var el := Framed(TAG_STRUCT, payload);
      assert rs[..k + 1][..k] == rs[..k];
      FramedStruct(RepositoryFields(rs[k]));
      ConcatSnoc(elements, el);
      ItemsSnoc(RepositoryItems(rs[..k]), Struct(RepositoryFields(rs[k])));
      elements := elements + [el];
    }
    assert rs[..|rs|] == rs;
  }

  method EncodePushTargets(ts: seq<PushTarget>) returns (elements: seq<seq<byte>>)
    ensures Concat(elements) == Items(PushTargetItems(ts))
  {
    elements := [];
    for k := 0 to |ts|
      invariant Concat(elements) == Items(PushTargetItems(ts[..k]))
    {
      var payload := EncodePushTarget(ts[k]);
      var el := Framed(TAG_STRUCT, payload);
      assert ts[..k + 1][..k] == ts[..k];
      FramedStruct(PushTargetFields(ts[k]));
      ConcatSnoc(elements, el);
      ItemsSnoc(PushTargetItems(ts[..k]), Struct(PushTargetFields(ts[k])));
      elements := elements + [el];
    }
    assert ts[..|ts|] == ts;
  }

  method EncodeEntries(es: seq<Entry>) returns (elements: seq<seq<byte>>)
    ensures Concat(elements) == Items(EntryItems(es))
  {
    elements := [];
    for k := 0 to |es|
      invariant Concat(elements) == Items(EntryItems(es[..k]))
    {
      var payload := EncodeEntry(es[k]);
      var el := Framed(TAG_STRUCT, payload);
      assert es[..k + 1][..k] == es[..k];
      FramedStruct(EntryFields(es[k]));
      ConcatSnoc(elements, el);
      ItemsSnoc(EntryItems(es[..k]), Struct(EntryFields(es[k])));
      elements := elements + [el];
    }
    assert es[..|es|] == es;
  }

  method WriteDocumentRows(enc: Encoder, rs: seq<Repository>, ts: seq<PushTarget>, es: seq<Entry>)
    requires enc.Valid()
    modifies enc
    ensures enc.Valid() && enc.members == old(enc.members) + DocumentRows(rs, ts, es)
  {
    hide Fields, Items, Concat, RepositoryItems, PushTargetItems, EntryItems;
    var repositories := EncodeRepositories(rs);
    enc.WriteArray(21, repositories, RepositoryItems(rs));
    var targets := EncodePushTargets(ts);
    enc.WriteArray(22, targets, PushTargetItems(ts));
    var entries := EncodeEntries(es);
    enc.WriteArray(23, entries, EntryItems(es));
  }

  method EncodeDocument<O>(p: Plan<O>) returns (payload: seq<byte>)
    ensures payload == Fields(DocumentFields(p))
  {
    var enc := new Encoder();
    WriteDocumentHead(enc, p);
    WriteDocumentIntent(enc, p);
    WriteDocumentRows(enc, p.repositories, p.pushTargets, p.entries);
    assert enc.members == DocumentFields(p);
    payload := enc.buf;
  }

  // "tws-plan-fp" and a NUL byte.
  const PREFIX: seq<byte> := [116, 119, 115, 45, 112, 108, 97, 110, 45, 102, 112, 0]
  const ENCODING_VERSION := 1
  const TUPLE_SCHEMA_VERSION := 4

  /** The bytes the fingerprint hashes. */
  function Preimage<O>(p: Plan<O>): seq<byte> {
    PREFIX + PutUint(2, ENCODING_VERSION) + PutUint(2, TUPLE_SCHEMA_VERSION) + Element(Struct(DocumentFields(p)))
  }

  method PlanFingerprintPreimage<O>(p: Plan<O>) returns (out: seq<byte>)
    ensures out == Preimage(p)
  {
    out := PREFIX;
    out := out + PutUint(2, ENCODING_VERSION);
    out := out + PutUint(2, TUPLE_SCHEMA_VERSION);
    var payload := EncodeDocument(p);
    FramedStruct(DocumentFields(p));
    out := out + Framed(TAG_STRUCT, payload);
  }

  // ---------- ranges ----------

  lemma {:induction false} FieldsInRangeAll(fs: seq<Field>)
    requires forall k :: 0 <= k < |fs| ==> FieldInRange(fs[k])
    ensures FieldsInRange(fs)
  {
    if |fs| > 0 {
      FieldsInRangeAll(fs[1..]);
    }
  }

  lemma {:induction false} ItemsInRangeAll(vs: seq<Value>)
    requires forall k :: 0 <= k < |vs| ==> InRange(vs[k])
    ensures ItemsInRange(vs)
  {
    if |vs| > 0 {
      ItemsInRangeAll(vs[1..]);
    }
  }

  lemma {:induction false} RepositoryItemsShape(rs: seq<Repository>)
    ensures |RepositoryItems(rs)| == |rs|
    ensures forall k :: 0 <= k < |rs| ==> RepositoryItems(rs)[k] == Struct(RepositoryFields(rs[k]))
  {
    if |rs| > 0 { RepositoryItemsShape(rs[..|rs| - 1]); }
  }

  lemma {:induction false} PushTargetItemsShape(ts: seq<PushTarget>)
    ensures |PushTargetItems(ts)| == |ts|
    ensures forall k :: 0 <= k < |ts| ==> PushTargetItems(ts)[k] == Struct(PushTargetFields(ts[k]))
  {
    if |ts| > 0 { PushTargetItemsShape(ts[..|ts| - 1]); }
  }

  lemma {:induction false} CollateralItemsShape(cs: seq<CollateralRef>)
    ensures |CollateralItems(cs)| == |cs|
    ensures forall k :: 0 <= k < |cs| ==> CollateralItems(cs)[k] == Struct(CollateralFields(cs[k]))
  {
    if |cs| > 0 { CollateralItemsShape(cs[..|cs| - 1]); }
  }

  lemma {:induction false} TokenItemsShape(ts: seq<Text>)
    ensures |TokenItems(ts)| == |ts|
    ensures forall k :: 0 <= k < |ts| ==> TokenItems(ts)[k] == Bytes(ts[k])
  {
    if |ts| > 0 { TokenItemsShape(ts[..|ts| - 1]); }
  }

  lemma {:induction false} EntryItemsShape(es: seq<Entry>)
    ensures |EntryItems(es)| == |es|
    ensures forall k :: 0 <= k < |es| ==> EntryItems(es)[k] == Struct(EntryFields(es[k]))
  {
    if |es| > 0 { EntryItemsShape(es[..|es| - 1]); }
  }

  lemma ArgvInRange(o: Option<(seq<Text>, seq<Text>)>)
    ensures InRange(ArgvValue(o))
  {
    if o.Some? {
      TokenItemsShape(o.value.0);
      TokenItemsShape(o.value.1);
      ItemsInRangeAll(TokenItems(o.value.0));
      ItemsInRangeAll(TokenItems(o.value.1));
      ItemsInRangeAll(ArgvItems(o.value));
    }
  }

  lemma CollateralInRange(o: Option<seq<CollateralRef>>)
    ensures InRange(CollateralValue(o))
  {
    if o.Some? {
      CollateralItemsShape(o.value);
      forall k | 0 <= k < |o.value| ensures InRange(CollateralItems(o.value)[k]) {
        FieldsInRangeAll(CollateralFields(o.value[k]));
      }
      ItemsInRangeAll(CollateralItems(o.value));
    }
  }

  lemma EntryInRange(e: Entry)
    requires MachineWord(e.replay.candidateCount)
    ensures FieldsInRange(EntryFields(e))
  {
    ArgvInRange(e.argvAlternatives);
    CollateralInRange(e.collateralRefs);
    assert forall k :: 0 <= k < 9 ==> FieldInRange(EntryIdentity(e)[k]);
    assert forall k :: 0 <= k < 8 ==> FieldInRange(EntryTargets(e)[k]);
    assert forall k :: 0 <= k < 9 ==> FieldInRange(EntryReplay(e)[k]);
    assert forall k :: 0 <= k < 9 ==> FieldInRange(EntryEffects(e)[k]);
    assert forall k :: 0 <= k < 10 ==> FieldInRange(EntryEvidence(e)[k]);
    FieldsInRangeAll(EntryFields(e));
  }

  lemma {:induction false} RepositoriesInRange(rs: seq<Repository>)
    ensures ItemsInRange(RepositoryItems(rs))
  {
    RepositoryItemsShape(rs);
    forall k | 0 <= k < |rs| ensures InRange(RepositoryItems(rs)[k]) { FieldsInRangeAll(RepositoryFields(rs[k])); }
    ItemsInRangeAll(RepositoryItems(rs));
  }

  lemma {:induction false} PushTargetsInRange(ts: seq<PushTarget>)
    ensures ItemsInRange(PushTargetItems(ts))
  {
    PushTargetItemsShape(ts);
    forall k | 0 <= k < |ts| ensures InRange(PushTargetItems(ts)[k]) { FieldsInRangeAll(PushTargetFields(ts[k])); }
    ItemsInRangeAll(PushTargetItems(ts));
  }

  lemma {:induction false} EntriesInRange(es: seq<Entry>)
    requires forall k :: 0 <= k < |es| ==> MachineWord(es[k].replay.candidateCount)
    ensures ItemsInRange(EntryItems(es))
  {
    EntryItemsShape(es);
    forall k | 0 <= k < |es|
      ensures InRange(EntryItems(es)[k])
    {
      EntryInRange(es[k]);
      assert EntryItems(es)[k] == Struct(EntryFields(es[k]));
    }
    ItemsInRangeAll(EntryItems(es));
  }

  lemma DocumentInRange<O>(p: Plan<O>)
    requires MachineWords(p)
    ensures FieldsInRange(DocumentFields(p))
  {
    assert forall k :: 0 <= k < 11 ==> FieldInRange(DocumentPolicy(p)[k]);
    assert forall k :: 0 <= k < 9 ==> FieldInRange(DocumentIntent(p)[k]);
    RepositoriesInRange(p.repositories);
    PushTargetsInRange(p.pushTargets);
    EntriesInRange(p.entries);
    assert forall k :: 0 <= k < 3 ==> FieldInRange(DocumentRows(p.repositories, p.pushTargets, p.entries)[k]);
    FieldsInRangeAll(DocumentFields(p));
  }

  // ---------- the members determine the bound part ----------

  lemma RepositoryItemsInjective(a: seq<Repository>, b: seq<Repository>)
    requires RepositoryItems(a) == RepositoryItems(b)
    ensures a == b
  {
    RepositoryItemsShape(a);
    RepositoryItemsShape(b);
    forall k | 0 <= k < |a| ensures a[k] == b[k] {
      RepositoryFieldsInjective(a[k], b[k]);
    }
  }

  lemma RepositoryFieldsInjective(a: Repository, b: Repository)
    requires RepositoryFields(a) == RepositoryFields(b)
    ensures a == b
  {
    assert forall k :: 0 <= k < 11 ==> RepositoryFields(a)[k].value == RepositoryFields(b)[k].value;
  }

  lemma PushTargetFieldsInjective(a: PushTarget, b: PushTarget)
    requires PushTargetFields(a) == PushTargetFields(b)
    ensures a == b
  {
    assert forall k :: 0 <= k < 10 ==> PushTargetFields(a)[k].value == PushTargetFields(b)[k].value;
  }

  lemma PushTargetItemsInjective(a: seq<PushTarget>, b: seq<PushTarget>)
    requires PushTargetItems(a) == PushTargetItems(b)
    ensures a == b
  {
    PushTargetItemsShape(a);
    PushTargetItemsShape(b);
    forall k | 0 <= k < |a| ensures a[k] == b[k] {
      PushTargetFieldsInjective(a[k], b[k]);
    }
  }

  lemma CollateralItemsInjective(a: seq<CollateralRef>, b: seq<CollateralRef>)
    requires CollateralItems(a) == CollateralItems(b)
    ensures a == b
  {
    CollateralItemsShape(a);
    CollateralItemsShape(b);
    forall k | 0 <= k < |a| ensures a[k] == b[k] {
      assert CollateralItems(a)[k] == CollateralItems(b)[k];
      assert forall j :: 0 <= j < 4 ==> CollateralFields(a[k])[j].value == CollateralFields(b[k])[j].value;
    }
  }

  lemma TokenItemsInjective(a: seq<Text>, b: seq<Text>)
    requires TokenItems(a) == TokenItems(b)
    ensures a == b
  {
    TokenItemsShape(a);
    TokenItemsShape(b);
    forall k | 0 <= k < |a| ensures a[k] == b[k] {
      assert TokenItems(a)[k] == TokenItems(b)[k];
    }
  }

  lemma CollateralValueInjective(a: Option<seq<CollateralRef>>, b: Option<seq<CollateralRef>>)
    requires CollateralValue(a) == CollateralValue(b)
    ensures a == b
  {
    if a.Some? && b.Some? { CollateralItemsInjective(a.value, b.value); }
  }

  lemma ArgvValueInjective(a: Option<(seq<Text>, seq<Text>)>, b: Option<(seq<Text>, seq<Text>)>)
    requires ArgvValue(a) == ArgvValue(b)
    ensures a == b
  {
    if a.Some? && b.Some? {
      assert ArgvItems(a.value)[0] == ArgvItems(b.value)[0] && ArgvItems(a.value)[1] == ArgvItems(b.value)[1];
      TokenItemsInjective(a.value.0, b.value.0);
      TokenItemsInjective(a.value.1, b.value.1);
    }
  }

  lemma EntryIdentityInjective(a: Entry, b: Entry)
    requires EntryIdentity(a) == EntryIdentity(b)
    ensures && a.name == b.name && a.gitBranch == b.gitBranch && a.repo == b.repo
            && a.executionContext == b.executionContext && a.role == b.role
            && a.materialization == b.materialization && a.head == b.head
  {
    assert forall k :: 0 <= k < 9 ==> EntryIdentity(a)[k].value == EntryIdentity(b)[k].value;
  }

  lemma EntryTargetsInjective(a: Entry, b: Entry)
    requires EntryTargets(a) == EntryTargets(b)
    ensures && a.base.name == b.base.name && a.base.ref == b.base.ref && a.destination == b.destination
            && a.cutoff.recordedSha == b.cutoff.recordedSha && a.cutoff.state == b.cutoff.state
  {
    assert forall k :: 0 <= k < 8 ==> EntryTargets(a)[k].value == EntryTargets(b)[k].value;
  }

  lemma EntryReplayInjective(a: Entry, b: Entry)
    requires EntryReplay(a) == EntryReplay(b)
    ensures && a.replay.(firstCandidate := None) == b.replay.(firstCandidate := None)
            && a.strategy == b.strategy && a.argvAlternatives == b.argvAlternatives
            && a.effectiveBackend == b.effectiveBackend
  {
    assert forall k :: 0 <= k < 9 ==> EntryReplay(a)[k].value == EntryReplay(b)[k].value;
    ArgvValueInjective(a.argvAlternatives, b.argvAlternatives);
  }

  lemma EntryEffectsInjective(a: Entry, b: Entry)
    requires EntryEffects(a) == EntryEffects(b)
    ensures && a.mutation == b.mutation
            && a.context.(rebaseInProgress := None) == b.context.(rebaseInProgress := None)
            && a.branchCheckedOutAt == b.branchCheckedOutAt && a.collateralMechanism == b.collateralMechanism
            && a.collateralExposed == b.collateralExposed
  {
    assert forall k :: 0 <= k < 9 ==> EntryEffects(a)[k].value == EntryEffects(b)[k].value;
  }

  lemma EntryEvidenceInjective(a: Entry, b: Entry)
    requires EntryEvidence(a) == EntryEvidence(b)
    ensures && a.baseContext == b.baseContext && a.base.decisionSha == b.base.decisionSha
            && a.collateralRefs == b.collateralRefs && a.cutoff.effectiveSha == b.cutoff.effectiveSha
            && a.cutoff.source == b.cutoff.source && a.cutoff.validity == b.cutoff.validity
            && a.cutoff.reason == b.cutoff.reason && a.cutoff.resolvedSha == b.cutoff.resolvedSha
  {
    assert forall k :: 0 <= k < 10 ==> EntryEvidence(a)[k].value == EntryEvidence(b)[k].value;
    CollateralValueInjective(a.collateralRefs, b.collateralRefs);
  }

  lemma EntryFieldsInjective(a: Entry, b: Entry)
    requires EntryFields(a) == EntryFields(b)
    ensures BoundEntry(a) == BoundEntry(b)
  {
    EntryParts(a);
    EntryParts(b);
    EntryIdentityInjective(a, b);
    EntryTargetsInjective(a, b);
    EntryReplayInjective(a, b);
    EntryEffectsInjective(a, b);
    EntryEvidenceInjective(a, b);
  }

  lemma EntryParts(e: Entry)
    ensures |EntryFields(e)| == 45
    ensures EntryFields(e)[..9] == EntryIdentity(e) && EntryFields(e)[9..17] == EntryTargets(e)
    ensures EntryFields(e)[17..26] == EntryReplay(e) && EntryFields(e)[26..35] == EntryEffects(e)
    ensures EntryFields(e)[35..] == EntryEvidence(e)
  {
  }

  lemma EntryItemsInjective(a: seq<Entry>, b: seq<Entry>)
    ensures EntryItems(a) == EntryItems(b) <==> BoundEntries(a) == BoundEntries(b)
  {
    EntryItemsShape(a);
    EntryItemsShape(b);
    if EntryItems(a) == EntryItems(b) {
      forall k | 0 <= k < |a| ensures BoundEntry(a[k]) == BoundEntry(b[k]) {
        assert EntryItems(a)[k] == EntryItems(b)[k];
        EntryFieldsInjective(a[k], b[k]);
      }
    }
    if BoundEntries(a) == BoundEntries(b) {
      assert |a| == |BoundEntries(a)| == |BoundEntries(b)| == |b|;
      forall k | 0 <= k < |a| ensures EntryFields(a[k]) == EntryFields(b[k]) {
        assert BoundEntries(a)[k] == BoundEntries(b)[k];
        EntryFieldsBound(a[k]);
        EntryFieldsBound(b[k]);
      }
    }
  }

  /** The members of an entry read only its bound part. */
  lemma EntryFieldsBound(e: Entry)
    ensures EntryFields(e) == EntryFields(BoundEntry(e))
  {
    var d := BoundEntry(e);
    assert EntryIdentity(e) == EntryIdentity(d);
    assert EntryTargets(e) == EntryTargets(d);
    assert EntryReplay(e) == EntryReplay(d);
    assert EntryEffects(e) == EntryEffects(d);
    assert EntryEvidence(e) == EntryEvidence(d);
  }

  lemma DocumentParts<O>(p: Plan<O>)
    ensures |DocumentFields(p)| == 23
    ensures DocumentFields(p)[..11] == DocumentPolicy(p) && DocumentFields(p)[11..20] == DocumentIntent(p)
    ensures DocumentFields(p)[20..] == DocumentRows(p.repositories, p.pushTargets, p.entries)
  {
  }

  lemma DocumentPolicyInjective<O, Q>(p: Plan<O>, q: Plan<Q>)
    requires DocumentPolicy(p) == DocumentPolicy(q)
    ensures && p.workspace.(repoRoot := []) == q.workspace.(repoRoot := []) && p.feature == q.feature
            && p.route == q.route && p.policy == q.policy && p.limits == q.limits
  {
    assert forall k :: 0 <= k < 11 ==> DocumentPolicy(p)[k].value == DocumentPolicy(q)[k].value;
  }

  lemma DocumentIntentInjective<O, Q>(p: Plan<O>, q: Plan<Q>)
    requires DocumentIntent(p) == DocumentIntent(q)
    ensures && p.intent == q.intent && p.restore.(executable := None) == q.restore.(executable := None)
            && p.approvalScope == q.approvalScope
  {
    assert forall k :: 0 <= k < 9 ==> DocumentIntent(p)[k].value == DocumentIntent(q)[k].value;
  }

  lemma DocumentRowsInjective<O, Q>(p: Plan<O>, q: Plan<Q>)
    requires DocumentRows(p.repositories, p.pushTargets, p.entries)
             == DocumentRows(q.repositories, q.pushTargets, q.entries)
    ensures && p.repositories == q.repositories && p.pushTargets == q.pushTargets
            && BoundEntries(p.entries) == BoundEntries(q.entries)
  {
    var a := DocumentRows(p.repositories, p.pushTargets, p.entries);
    var b := DocumentRows(q.repositories, q.pushTargets, q.entries);
    assert a[0].value == b[0].value && a[1].value == b[1].value && a[2].value == b[2].value;
    RepositoryItemsInjective(p.repositories, q.repositories);
    PushTargetItemsInjective(p.pushTargets, q.pushTargets);
    EntryItemsInjective(p.entries, q.entries);
  }

  /** Two documents have the same members exactly when they agree on everything bound. */
  lemma DocumentFieldsInjective<O, Q>(p: Plan<O>, q: Plan<Q>)
    ensures DocumentFields(p) == DocumentFields(q) <==> Bound(p) == Bound(q)
  {
    if DocumentFields(p) == DocumentFields(q) {
      DocumentParts(p);
      DocumentParts(q);
      DocumentPolicyInjective(p, q);
      DocumentIntentInjective(p, q);
      DocumentRowsInjective(p, q);
    }
    if Bound(p) == Bound(q) {
      EntryItemsInjective(p.entries, q.entries);
      assert DocumentPolicy(p) == DocumentPolicy(q);
      assert DocumentIntent(p) == DocumentIntent(q);
    }
  }

  // ---------- the bytes determine the members ----------

  /** The pre-image can be decoded: after its fixed sixteen bytes it is one structure
      holding exactly the document's members, and nothing follows it. */
  lemma PreimageDecodes<O>(p: Plan<O>)
    requires MachineWords(p) && |Fields(DocumentFields(p))| < TWO_TO_THE_32
    ensures |Preimage(p)| >= 16
    ensures ParseElement(Preimage(p)[16..]) == Some((Struct(DocumentFields(p)), []))
  {
    var v := Struct(DocumentFields(p));
    DocumentInRange(p);
    ParseElementInverse(v, []);
    assert Element(v) + [] == Element(v);
    assert Preimage(p)[16..] == Element(v);
  }

  /** The bytes the fingerprint hashes bind exactly the bound members: equal bytes mean
      agreement on every one of them, and members outside the bound part never matter. */
  lemma PreimageBindsExactly<O, Q>(p: Plan<O>, q: Plan<Q>)
    requires MachineWords(p) && MachineWords(q) && |Fields(DocumentFields(p))| < TWO_TO_THE_32
    ensures Preimage(p) == Preimage(q) <==> Bound(p) == Bound(q)
  {
    DocumentFieldsInjective(p, q);
    if Preimage(p) == Preimage(q) {
      PreimageLength(p);
      PreimageLength(q);
      PreimageDecodes(p);
      PreimageDecodes(q);
    }
  }

  lemma PreimageLength<O>(p: Plan<O>)
    ensures |Preimage(p)| == 21 + |Fields(DocumentFields(p))|
  {
    assert Payload(Struct(DocumentFields(p))) == Fields(DocumentFields(p));
  }

  // ---------- the revalidation digest ----------

  /** The Git facts of one entry that may drift between approval and execution. */
  datatype Facts = Facts(
    destination: Destination, head: Head, upstreamSha: Option<Text>, determinacy: Text, candidateCount: Option<int>,
    firstCandidate: Option<Text>, candidateDigest: Option<Text>, strategy: Text,
    argvAlternatives: Option<(seq<Text>, seq<Text>)>, collateralMechanism: Option<Text>,
    collateralExposed: Option<bool>, collateralRefs: Option<seq<CollateralRef>>, branchCheckedOutAt: Option<Text>,
    rebaseInProgress: Option<bool>)

  function FactsOf(e: Entry): Facts {
    Facts(e.destination, e.head, e.replay.upstreamSha, e.replay.determinacy, e.replay.candidateCount,
          e.replay.firstCandidate, e.replay.candidateDigest, e.strategy, e.argvAlternatives, e.collateralMechanism,
          e.collateralExposed, e.collateralRefs, e.branchCheckedOutAt, e.context.rebaseInProgress)
  }

  function RevalidationTargets(e: Entry): (fs: seq<Field>) ensures |fs| == 9 {
    [Field(1, BytesPtr(e.destination.sha)), Field(2, BytesPtr(e.destination.snapshotSha)),
     Field(3, Bool(e.destination.deferred)), Field(4, BytesPtr(e.destination.dependsOn)),
     Field(5, BytesPtr(e.head.state)), Field(6, BytesPtr(e.head.sha)), Field(7, BytesPtr(e.replay.upstreamSha)),
     Field(8, Bytes(e.replay.determinacy)), Field(9, UintPtr(e.replay.candidateCount))]
  }

  function RevalidationReplay(e: Entry): (fs: seq<Field>) ensures |fs| == 9 {
    [Field(10, BytesPtr(e.replay.firstCandidate)), Field(11, BytesPtr(e.replay.candidateDigest)),
     Field(12, Bytes(e.strategy)), Field(13, ArgvValue(e.argvAlternatives)),
     Field(14, BytesPtr(e.collateralMechanism)), Field(15, BoolPtr(e.collateralExposed)),
     Field(16, CollateralValue(e.collateralRefs)), Field(17, BytesPtr(e.branchCheckedOutAt)),
     Field(18, BoolPtr(e.context.rebaseInProgress))]
  }

  function RevalidationFields(e: Entry): seq<Field> {
    RevalidationTargets(e) + RevalidationReplay(e)
  }

  method WriteRevalidationTargets(enc: Encoder, e: Entry)
    requires enc.Valid()
    modifies enc
    ensures enc.Valid() && enc.members == old(enc.members) + RevalidationTargets(e)
  {
    hide Fields, BoolPtr, UintPtr, BytesPtr, ArgvValue, CollateralValue;
    enc.WriteBytesPtr(1, e.destination.sha);
    enc.WriteBytesPtr(2, e.destination.snapshotSha);
    enc.WriteBool(3, e.destination.deferred);
    enc.WriteBytesPtr(4, e.destination.dependsOn);
    enc.WriteBytesPtr(5, e.head.state);
    enc.WriteBytesPtr(6, e.head.sha);
    enc.WriteBytesPtr(7, e.replay.upstreamSha);
    enc.WriteBytes(8, e.replay.determinacy);
    enc.WriteUintPtr(9, e.replay.candidateCount);
  }

  method WriteRevalidationReplay(enc: Encoder, e: Entry)
    requires enc.Valid()
    modifies enc
    ensures enc.Valid() && enc.members == old(enc.members) + RevalidationReplay(e)
  {
    hide Fields, BoolPtr, UintPtr, BytesPtr, ArgvValue, CollateralValue;
    enc.WriteBytesPtr(10, e.replay.firstCandidate);
    enc.WriteBytesPtr(11, e.replay.candidateDigest);
    enc.WriteBytes(12, e.strategy);
    WriteArgv(enc, 13, e.argvAlternatives);
    enc.WriteBytesPtr(14, e.collateralMechanism);
    enc.WriteBoolPtr(15, e.collateralExposed);
    WriteCollateral(enc, 16, e.collateralRefs);
    enc.WriteBytesPtr(17, e.branchCheckedOutAt);
    enc.WriteBoolPtr(18, e.context.rebaseInProgress);
  }

  method EncodeRevalidationEntry(e: Entry) returns (payload: seq<byte>)
    ensures payload == Fields(RevalidationFields(e))
  {
    var enc := new Encoder();
    WriteRevalidationTargets(enc, e);
    WriteRevalidationReplay(enc, e);
    assert enc.members == RevalidationFields(e);
    payload := enc.buf;
  }

  lemma RevalidationInRange(e: Entry)
    requires MachineWord(e.replay.candidateCount)
    ensures FieldsInRange(RevalidationFields(e))
  {
    ArgvInRange(e.argvAlternatives);
    CollateralInRange(e.collateralRefs);
    assert forall k :: 0 <= k < 9 ==> FieldInRange(RevalidationTargets(e)[k]);
    assert forall k :: 0 <= k < 9 ==> FieldInRange(RevalidationReplay(e)[k]);
    FieldsInRangeAll(RevalidationFields(e));
  }

  lemma RevalidationFieldsInjective(a: Entry, b: Entry)
    ensures RevalidationFields(a) == RevalidationFields(b) <==> FactsOf(a) == FactsOf(b)
  {
    if RevalidationFields(a) == RevalidationFields(b) {
      assert RevalidationFields(a)[..9] == RevalidationTargets(a);
      assert RevalidationFields(a)[9..] == RevalidationReplay(a);
      assert RevalidationFields(b)[..9] == RevalidationTargets(b);
      assert RevalidationFields(b)[9..] == RevalidationReplay(b);
      assert forall k :: 0 <= k < 9 ==> RevalidationTargets(a)[k].value == RevalidationTargets(b)[k].value;
      assert forall k :: 0 <= k < 9 ==> RevalidationReplay(a)[k].value == RevalidationReplay(b)[k].value;
      ArgvValueInjective(a.argvAlternatives, b.argvAlternatives);
      CollateralValueInjective(a.collateralRefs, b.collateralRefs);
    }
  }

  /** The revalidation bytes change exactly when one of the drifting facts does. */
  lemma RevalidationBindsExactly(a: Entry, b: Entry)
    requires MachineWord(a.replay.candidateCount) && MachineWord(b.replay.candidateCount)
    requires |Fields(RevalidationFields(a))| < TWO_TO_THE_32
    ensures Fields(RevalidationFields(a)) == Fields(RevalidationFields(b)) <==> FactsOf(a) == FactsOf(b)
  {
    RevalidationFieldsInjective(a, b);
    if Fields(RevalidationFields(a)) == Fields(RevalidationFields(b)) {
      RevalidationInRange(a);
      RevalidationInRange(b);
      ParseFieldsInverse(RevalidationFields(a));
      ParseFieldsInverse(RevalidationFields(b));
    }
  }

  /** The two identities divide the work: a rebase starting in an entry's context, or another first
      candidate, leaves the approved token standing and is caught by that entry's revalidation. */
  lemma DriftIsCaughtByRevalidationOnly<O>(p: Plan<O>, i: nat, first: Option<Text>, busy: Option<bool>)
    requires i < |p.entries| && MachineWords(p)
    requires |Fields(RevalidationFields(p.entries[i]))| < TWO_TO_THE_32
    requires first != p.entries[i].replay.firstCandidate || busy != p.entries[i].context.rebaseInProgress
    ensures var e := p.entries[i];
            var d := e.(replay := e.replay.(firstCandidate := first), context := e.context.(rebaseInProgress := busy));
            && Preimage(p.(entries := p.entries[i := d])) == Preimage(p)
            && Fields(RevalidationFields(d)) != Fields(RevalidationFields(e))
  {
    var e := p.entries[i];
    var d := e.(replay := e.replay.(firstCandidate := first), context := e.context.(rebaseInProgress := busy));
    var q := p.(entries := p.entries[i := d]);
    assert BoundEntries(q.entries) == BoundEntries(p.entries);
    DocumentFieldsInjective(q, p);
    RevalidationBindsExactly(e, d);
  }
}
