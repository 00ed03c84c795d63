/** Reading the fingerprint's bytes: which member of the plan each numbered field holds once the bytes are decoded,
    and what the first bytes of every kind of value are. */
module PlanFingerprintReading {
  import opened Options
  import opened Tlv
  import opened PlanFingerprint

  // ---------- single values ----------

  /** Byte `i` of a written integer, counted from its end, is the digit of weight 256 to the `i`. */
  lemma {:induction false} PutUintDigits(k: nat, v: int, i: nat)
    requires i < k
    ensures PutUint(k, v)[k - 1 - i] == (v / Pow256(i)) % 256
  {
    if i == 0 {
      assert v / Pow256(0) == v;
    } else {
      PutUintDigits(k - 1, v / 256, i - 1);
      DivTwice(v, Pow256(i - 1));
    }
  }

  lemma DivTwice(v: int, m: int)
    requires m > 0
    ensures v / 256 / m == v / (256 * m)
  {
    var q, r := v / 256, v % 256;
    var q1, r1 := q / m, q % m;
    assert v == 256 * (m * q1 + r1) + r == (256 * m) * q1 + (256 * r1 + r);
    assert 0 <= 256 * r1 + r < 256 * m;
    DivModUnique(v, 256 * m, q1, 256 * r1 + r);
    assert (256 * m) * (v / (256 * m)) == (256 * m) * q1;
    MultipleIsFar(256 * m, v / (256 * m) - q1);
    assert (256 * m) * (v / (256 * m) - q1) == 0;
  }

  /** Every value starts with the byte of its kind and four bytes of length. */
  lemma ElementBytes(v: Value)
    ensures match v
            case Null => Element(v) == [0, 0, 0, 0, 0]
            case Bool(b) => Element(v) == [1, 0, 0, 0, 1] + (if b then [1] else [0])
            case Uint(n) => Element(v) == [2, 0, 0, 0, 8] + PutUint(8, n)
            case Bytes(s) => Element(v) == [3] + PutUint(4, |s|) + s
            case Struct(fs) => Element(v) == [4] + PutUint(4, |Fields(fs)|) + Fields(fs)
            case Array(vs) => Element(v) == [5] + PutUint(4, |Items(vs)|) + Items(vs)
  {
    SmallLength(0);
    SmallLength(1);
    SmallLength(8);
    hide PutUint;
  }

  lemma SmallLength(n: nat)
    requires n < 256
    ensures PutUint(4, n) == [0, 0, 0, n]
  {
    assert PutUint(4, n) == PutUint(3, 0) + [n];
    assert PutUint(3, 0) == PutUint(2, 0) + [0];
    assert PutUint(2, 0) == PutUint(1, 0) + [0];
    assert PutUint(1, 0) == PutUint(0, 0) + [0];
  }

  /** Fields and items follow each other in order, a field after the two bytes of its number. */
  lemma RowsOfBytes(id: nat, v: Value, fs: seq<Field>, vs: seq<Value>)
    ensures Fields([]) == [] && Items([]) == []
    ensures Fields([Field(id, v)] + fs) == [id / 256 % 256, id % 256] + Element(v) + Fields(fs)
    ensures Items([v] + vs) == Element(v) + Items(vs)
  {
    assert ([Field(id, v)] + fs)[1..] == fs && ([v] + vs)[1..] == vs;
    assert PutUint(2, id) == PutUint(1, id / 256) + [id % 256];
    assert PutUint(1, id / 256) == PutUint(0, id / 256 / 256) + [id / 256 % 256];
    hide PutUint, Element;
  }

  // ---------- what a decoded field holds ----------

  /** The fields are `n` and numbered one after the other. */
  ghost predicate Numbered(fs: seq<Field>, first: nat, n: nat) {
    |fs| == n && forall k :: 0 <= k < n ==> fs[k].id == first + k
  }

  ghost predicate Holds(v: Value, o: Option<Text>) {
    if o.Some? then v == Bytes(o.value) else v == Null
  }

  ghost predicate HoldsFlag(v: Value, o: Option<bool>) {
    if o.Some? then v == Bool(o.value) else v == Null
  }

  ghost predicate HoldsCount(v: Value, o: Option<int>) {
    if o.Some? then v == Uint(o.value) else v == Null
  }

  ghost predicate HoldsTokens(v: Value, ts: seq<Text>) {
    v.Array? && |v.items| == |ts| && forall k :: 0 <= k < |ts| ==> v.items[k] == Bytes(ts[k])
  }

  /** The argument vectors of the two ways a rebase may be run. */
  ghost predicate HoldsArgv(v: Value, o: Option<(seq<Text>, seq<Text>)>) {
    if o.None? then v == Null
    else v.Array? && |v.items| == 2 && HoldsTokens(v.items[0], o.value.0) && HoldsTokens(v.items[1], o.value.1)
  }

  ghost predicate CollateralRead(v: Value, c: CollateralRef) {
    && v.Struct? && Numbered(v.fields, 1, 4)
    && v.fields[0].value == Bytes(c.repo) && v.fields[1].value == Bytes(c.ref)
    && v.fields[2].value == Bytes(c.sha) && v.fields[3].value == Bool(c.stackOwned)
  }

  ghost predicate HoldsCollateral(v: Value, o: Option<seq<CollateralRef>>) {
    if o.None? then v == Null
    else
      && v.Array? && |v.items| == |o.value|
      && forall k :: 0 <= k < |o.value| ==> CollateralRead(v.items[k], o.value[k])
  }

  ghost predicate RepositoryRead(v: Value, r: Repository) {
    && v.Struct? && Numbered(v.fields, 1, 11)
    && v.fields[0].value == Bytes(r.repo) && v.fields[1].value == Bytes(r.contextId)
    && v.fields[2].value == Bytes(r.updateRefs.status) && Holds(v.fields[3].value, r.updateRefs.value)
    && v.fields[4].value == Bytes(r.rebaseMerges.status) && Holds(v.fields[5].value, r.rebaseMerges.value)
    && v.fields[6].value == Bytes(r.rebaseMergesInterpretation)
    && v.fields[7].value == Bytes(r.backend.status) && Holds(v.fields[8].value, r.backend.value)
    && v.fields[9].value == Bytes(r.autoStash.status) && Holds(v.fields[10].value, r.autoStash.value)
  }

  ghost predicate PushTargetRead(v: Value, t: PushTarget) {
    && v.Struct? && Numbered(v.fields, 1, 10)
    && v.fields[0].value == Bytes(t.repo) && Holds(v.fields[1].value, t.contextId)
    && v.fields[2].value == Bytes(t.gitBranch) && v.fields[3].value == Bytes(t.remote)
    && v.fields[4].value == Bytes(t.ref) && v.fields[5].value == Bytes(t.force)
    && v.fields[6].value == Bytes(t.scope) && v.fields[7].value == Bytes(t.leaseExpectation)
    && Holds(v.fields[8].value, t.leaseExpectedRef) && Holds(v.fields[9].value, t.leaseExpectedSha)
  }

  ghost predicate IdentityRead(fs: seq<Field>, e: Entry) {
    && Numbered(fs, 1, 9)
    && fs[0].value == Bytes(e.name) && fs[1].value == Bytes(e.gitBranch) && fs[2].value == Bytes(e.repo)
    && Holds(fs[3].value, e.executionContext.contextId) && fs[4].value == Bytes(e.executionContext.source)
    && fs[5].value == Bytes(e.role) && fs[6].value == Bytes(e.materialization)
    && Holds(fs[7].value, e.head.state) && Holds(fs[8].value, e.head.sha)
  }

  ghost predicate TargetsRead(fs: seq<Field>, e: Entry) {
    && Numbered(fs, 10, 8)
    && Holds(fs[0].value, e.base.name) && Holds(fs[1].value, e.base.ref)
    && Holds(fs[2].value, e.destination.sha) && Holds(fs[3].value, e.destination.snapshotSha)
    && fs[4].value == Bool(e.destination.deferred) && Holds(fs[5].value, e.destination.dependsOn)
    && Holds(fs[6].value, e.cutoff.recordedSha) && Holds(fs[7].value, e.cutoff.state)
  }

  ghost predicate ReplayRead(fs: seq<Field>, e: Entry) {
    && Numbered(fs, 18, 9)
    && fs[0].value == Bytes(e.replay.determinacy) && Holds(fs[1].value, e.replay.reason)
    && fs[2].value == Bytes(e.replay.upstreamProvenance) && Holds(fs[3].value, e.replay.upstreamSha)
    && HoldsCount(fs[4].value, e.replay.candidateCount) && Holds(fs[5].value, e.replay.candidateDigest)
    && fs[6].value == Bytes(e.strategy) && HoldsArgv(fs[7].value, e.argvAlternatives)
    && Holds(fs[8].value, e.effectiveBackend)
  }

  ghost predicate EffectsRead(fs: seq<Field>, e: Entry) {
    && Numbered(fs, 27, 9)
    && fs[0].value == Bool(e.mutation.willSwitchHead) && Holds(fs[1].value, e.mutation.willLeaveHeadOn)
    && fs[2].value == Bool(e.mutation.headRestoredByRun)
    && HoldsFlag(fs[3].value, e.context.dirty) && HoldsFlag(fs[4].value, e.context.autostash)
    && HoldsFlag(fs[5].value, e.context.autostashAppliesToThisArm)
    && Holds(fs[6].value, e.branchCheckedOutAt) && Holds(fs[7].value, e.collateralMechanism)
    && HoldsFlag(fs[8].value, e.collateralExposed)
  }

  ghost predicate EvidenceRead(fs: seq<Field>, e: Entry) {
    && Numbered(fs, 36, 10)
    && Holds(fs[0].value, e.baseContext.contextId) && fs[1].value == Bytes(e.baseContext.source)
    && Holds(fs[2].value, e.base.decisionSha)
    && fs[3].value == Bool(e.collateralRefs.Some?) && HoldsCollateral(fs[4].value, e.collateralRefs)
    && Holds(fs[5].value, e.cutoff.effectiveSha) && fs[6].value == Bytes(e.cutoff.source)
    && Holds(fs[7].value, e.cutoff.validity) && Holds(fs[8].value, e.cutoff.reason)
    && Holds(fs[9].value, e.cutoff.resolvedSha)
  }

  ghost predicate EntryRead(v: Value, e: Entry) {
    && v.Struct? && |v.fields| == 45
    && IdentityRead(v.fields[..9], e) && TargetsRead(v.fields[9..17], e) && ReplayRead(v.fields[17..26], e)
    && EffectsRead(v.fields[26..35], e) && EvidenceRead(v.fields[35..], e)
  }

  ghost predicate PolicyRead<O>(fs: seq<Field>, p: Plan<O>) {
    && Numbered(fs, 1, 11)
    && fs[0].value == Bytes(p.workspace.mode) && Holds(fs[1].value, p.workspace.stableId) && fs[2].value == Null
    && fs[3].value == Bytes(p.feature) && fs[4].value == Bytes(p.route)
    && fs[5].value == Bytes(p.policy.fetch) && fs[6].value == Bytes(p.policy.propagation)
    && fs[7].value == Bytes(p.policy.scopeKind) && Holds(fs[8].value, p.policy.selector)
    && HoldsCount(fs[9].value, p.limits.perEntry) && HoldsCount(fs[10].value, p.limits.total)
  }

  ghost predicate IntentRead<O>(fs: seq<Field>, p: Plan<O>) {
    && Numbered(fs, 12, 9)
    && fs[0].value == Bool(p.intent.push) && fs[1].value == Bool(p.intent.validationApplies)
    && Holds(fs[2].value, p.intent.commandDigest)
    && fs[3].value == Bool(p.restore.applies) && HoldsFlag(fs[4].value, p.restore.willSwitchHead)
    && Holds(fs[5].value, p.restore.targetBranch) && Holds(fs[6].value, p.restore.targetSha)
    && fs[7].value == Bool(p.restore.pushDropped) && fs[8].value == Bytes(p.approvalScope)
  }

  ghost predicate RowsRead<O>(fs: seq<Field>, p: Plan<O>) {
    && Numbered(fs, 21, 3) && fs[0].value.Array? && fs[1].value.Array? && fs[2].value.Array?
    && var repositories, targets, entries := fs[0].value.items, fs[1].value.items, fs[2].value.items;
       && |repositories| == |p.repositories| && |targets| == |p.pushTargets| && |entries| == |p.entries|
       && (forall k :: 0 <= k < |p.repositories| ==> RepositoryRead(repositories[k], p.repositories[k]))
       && (forall k :: 0 <= k < |p.pushTargets| ==> PushTargetRead(targets[k], p.pushTargets[k]))
       && (forall k :: 0 <= k < |p.entries| ==> EntryRead(entries[k], p.entries[k]))
  }

  ghost predicate DocumentRead<O>(v: Value, p: Plan<O>) {
    && v.Struct? && |v.fields| == 23
    && PolicyRead(v.fields[..11], p) && IntentRead(v.fields[11..20], p) && RowsRead(v.fields[20..], p)
  }

  ghost predicate RevalidationTargetsRead(fs: seq<Field>, e: Entry) {
    && Numbered(fs, 1, 9)
    && Holds(fs[0].value, e.destination.sha) && Holds(fs[1].value, e.destination.snapshotSha)
    && fs[2].value == Bool(e.destination.deferred) && Holds(fs[3].value, e.destination.dependsOn)
    && Holds(fs[4].value, e.head.state) && Holds(fs[5].value, e.head.sha)
    && Holds(fs[6].value, e.replay.upstreamSha) && fs[7].value == Bytes(e.replay.determinacy)
    && HoldsCount(fs[8].value, e.replay.candidateCount)
  }

  ghost predicate RevalidationReplayRead(fs: seq<Field>, e: Entry) {
    && Numbered(fs, 10, 9)
    && Holds(fs[0].value, e.replay.firstCandidate) && Holds(fs[1].value, e.replay.candidateDigest)
    && fs[2].value == Bytes(e.strategy) && HoldsArgv(fs[3].value, e.argvAlternatives)
    && Holds(fs[4].value, e.collateralMechanism) && HoldsFlag(fs[5].value, e.collateralExposed)
    && HoldsCollateral(fs[6].value, e.collateralRefs) && Holds(fs[7].value, e.branchCheckedOutAt)
    && HoldsFlag(fs[8].value, e.context.rebaseInProgress)
  }

  // ---------- the bytes read as those members ----------

  lemma ArgvHeld(o: Option<(seq<Text>, seq<Text>)>)
    ensures HoldsArgv(ArgvValue(o), o)
  {
    if o.Some? {
      TokenItemsShape(o.value.0);
      TokenItemsShape(o.value.1);
    }
  }

  lemma CollateralHeld(o: Option<seq<CollateralRef>>)
    ensures HoldsCollateral(CollateralValue(o), o)
  {
    if o.Some? { CollateralItemsShape(o.value); }
  }

  lemma EntryHeld(e: Entry)
    ensures EntryRead(Struct(EntryFields(e)), e)
  {
    hide EntryFields, IdentityRead, TargetsRead, ReplayRead, EffectsRead, EvidenceRead;
    EntryParts(e);
    IdentityHeld(e);
    TargetsHeld(e);
    ReplayHeld(e);
    EffectsHeld(e);
    EvidenceHeld(e);
  }

  lemma IdentityHeld(e: Entry)
    ensures IdentityRead(EntryIdentity(e), e)
  {
  }

  lemma TargetsHeld(e: Entry)
    ensures TargetsRead(EntryTargets(e), e)
  {
  }

  lemma EffectsHeld(e: Entry)
    ensures EffectsRead(EntryEffects(e), e)
  {
  }

  lemma ReplayHeld(e: Entry)
    ensures ReplayRead(EntryReplay(e), e)
  {
    ArgvHeld(e.argvAlternatives);
    hide HoldsArgv, ArgvValue;
  }

  lemma EvidenceHeld(e: Entry)
    ensures EvidenceRead(EntryEvidence(e), e)
  {
    CollateralHeld(e.collateralRefs);
    hide HoldsCollateral, CollateralValue;
  }

  lemma RowsHeld<O>(p: Plan<O>)
    ensures RowsRead(DocumentRows(p.repositories, p.pushTargets, p.entries), p)
  {
    hide EntryRead, EntryFields, RepositoryRead, RepositoryFields, PushTargetRead, PushTargetFields;
    RepositoryItemsShape(p.repositories);
    PushTargetItemsShape(p.pushTargets);
    EntryItemsShape(p.entries);
    forall k | 0 <= k < |p.repositories|
      ensures RepositoryRead(RepositoryItems(p.repositories)[k], p.repositories[k])
    {
      RepositoryHeld(p.repositories[k]);
    }
    forall k | 0 <= k < |p.pushTargets| ensures PushTargetRead(PushTargetItems(p.pushTargets)[k], p.pushTargets[k]) {
      PushTargetHeld(p.pushTargets[k]);
    }
    forall k | 0 <= k < |p.entries| ensures EntryRead(EntryItems(p.entries)[k], p.entries[k]) {
      EntryHeld(p.entries[k]);
    }
    hide RepositoryItems, PushTargetItems, EntryItems;
  }

  lemma RepositoryHeld(r: Repository)
    ensures RepositoryRead(Struct(RepositoryFields(r)), r)
  {
  }

  lemma PushTargetHeld(t: PushTarget)
    ensures PushTargetRead(Struct(PushTargetFields(t)), t)
  {
  }

  lemma DocumentHeld<O>(p: Plan<O>)
    ensures DocumentRead(Struct(DocumentFields(p)), p)
  {
    RowsHeld(p);
    DocumentParts(p);
    PolicyHeld(p);
    IntentHeld(p);
    hide DocumentFields, RowsRead, DocumentRows, PolicyRead, IntentRead;
  }

  lemma PolicyHeld<O>(p: Plan<O>)
    ensures PolicyRead(DocumentPolicy(p), p)
  {
  }

  lemma IntentHeld<O>(p: Plan<O>)
    ensures IntentRead(DocumentIntent(p), p)
  {
  }

  /** After the twelve bytes of the prefix, the encoding version 1 and the tuple schema version 4, the pre-image decodes
      to one structure whose numbered fields hold exactly these members of the plan. */
  lemma PreimageReads<O>(p: Plan<O>)
    requires MachineWords(p) && |Fields(DocumentFields(p))| < TWO_TO_THE_32
    ensures |Preimage(p)| >= 16
    ensures Preimage(p)[..16] == [116, 119, 115, 45, 112, 108, 97, 110, 45, 102, 112, 0, 0, 1, 0, 4]
    ensures ParseElement(Preimage(p)[16..]).Some? && ParseElement(Preimage(p)[16..]).value.1 == []
    ensures DocumentRead(ParseElement(Preimage(p)[16..]).value.0, p)
  {
    hide DocumentRead, Element, ParseElement, DocumentFields, PutUint;
    PreimageDecodes(p);
    DocumentHeld(p);
    Versions();
    assert Preimage(p)[..16] == PREFIX + PutUint(2, 1) + PutUint(2, 4);
  }

  lemma Versions()
    ensures PutUint(2, 1) == [0, 1] && PutUint(2, 4) == [0, 4]
  {
    assert PutUint(2, 1) == PutUint(1, 0) + [1] && PutUint(2, 4) == PutUint(1, 0) + [4];
    assert PutUint(1, 0) == PutUint(0, 0) + [0] == [0];
  }

  /** The bytes of an entry's revalidation decode to fields that hold exactly these facts. */
  lemma RevalidationReads(e: Entry)
    requires MachineWord(e.replay.candidateCount) && |Fields(RevalidationFields(e))| < TWO_TO_THE_32
    ensures ParseFields(Fields(RevalidationFields(e))).Some?
    ensures var fs := ParseFields(Fields(RevalidationFields(e))).value;
            |fs| == 18 && RevalidationTargetsRead(fs[..9], e) && RevalidationReplayRead(fs[9..], e)
  {
    RevalidationInRange(e);
    ParseFieldsInverse(RevalidationFields(e));
    RevalidationTargetsHeld(e);
    RevalidationReplayHeld(e);
    hide RevalidationTargetsRead, RevalidationReplayRead, Fields, ParseFields, RevalidationTargets, RevalidationReplay;
    var fs := RevalidationFields(e);
    assert fs[..9] == RevalidationTargets(e) && fs[9..] == RevalidationReplay(e);
  }

  lemma RevalidationTargetsHeld(e: Entry)
    ensures RevalidationTargetsRead(RevalidationTargets(e), e)
  {
  }

  lemma RevalidationReplayHeld(e: Entry)
    ensures RevalidationReplayRead(RevalidationReplay(e), e)
  {
    ArgvHeld(e.argvAlternatives);
    CollateralHeld(e.collateralRefs);
    hide HoldsArgv, HoldsCollateral, ArgvValue, CollateralValue;
  }
}
