/** What every run of the substrate registry keeps: epochs, canonical states and ancestor chains. */
module RegistryLaws {
  import opened Registry

  datatype Op =
    | Register(d: Descriptor, parent: string, now: string)
    | Update(id: string, change: Change, instants: Instants)
    | Apply(id: string, s: Signal, now: string)
    | Emit(s: Signal, now: string)
    | EmitFor(id: string, local: State, scope: string, issuedAt: string, now: string)

  function Outcome(hash: Hash, k: Kernel, op: Op): Result<Kernel> {
    match op
    case Register(d, parent, now) => var r :- AfterRegister(hash, k.reg, d, parent, now); Ok(Kernel(r, k.emitted))
    case Update(id, change, instants) =>
      var r :- AfterUpdate(hash, k.reg, id, change, instants); Ok(Kernel(r, k.emitted))
    case Apply(id, s, now) => var r :- AfterApply(hash, k.reg, id, s, now); Ok(Kernel(r, k.emitted))
    case Emit(s, now) => var r :- AfterEmit(hash, k.reg, s, now); Ok(Kernel(r, k.emitted))
    case EmitFor(id, local, scope, issuedAt, now) => AfterEmitFor(hash, k, id, local, scope, issuedAt, now)
  }

  /** A step that raises changes nothing. */
  function After(hash: Hash, k: Kernel, op: Op): Kernel {
    var r := Outcome(hash, k, op);
    if r.Ok? then r.value else k
  }

  const FRESH := Kernel(Reg(map[], map[], map[], map[], [], []), [])

  predicate StepAt(hash: Hash, ops: seq<Op>, ks: seq<Kernel>, i: nat)
    requires i < |ops| < |ks|
  {
    ks[i + 1] == After(hash, ks[i], ops[i])
  }

  /** `ks` are the states the operations lead through, from an empty engine. */
  ghost predicate Run(hash: Hash, ops: seq<Op>, ks: seq<Kernel>) {
    && |ks| == |ops| + 1
    && ks[0] == FRESH
    && forall i: nat {:trigger StepAt(hash, ops, ks, i)} | i < |ops| :: StepAt(hash, ops, ks, i)
  }

  /** There is a run for every list of operations. */
  lemma {:induction false} RunOf(hash: Hash, ops: seq<Op>) returns (ks: seq<Kernel>)
    ensures Run(hash, ops, ks)
  {
    if ops == [] {
      ks := [FRESH];
    } else {
      var n := |ops| - 1;
      var most := RunOf(hash, ops[..n]);
      ks := most + [After(hash, most[n], ops[n])];
      forall i: nat | i < |ops|
        ensures StepAt(hash, ops, ks, i)
      {
        if i < n { assert StepAt(hash, ops[..n], most, i); }
      }
    }
  }

  // ---- what every reachable registry satisfies ----

  predicate TidyDescriptor(d: Descriptor) {
    && Bare(d.substrateId)
    && d.substrateType in SUBSTRATE_TYPES
    && Bare(d.version) && d.version != ""
    && Tidy(d.capabilities)
    && Bare(d.authorityDomain)
  }

  predicate OwnRecords(id: string, d: Descriptor, s: Status, b: Binding) {
    && d.substrateId == id && TidyDescriptor(d)
    && s.substrateId == id
    && b.substrateId == id && b.canonicalState.substrateId == id
    && s.lastEpochSeen == b.canonicalState.replayEpoch
  }

  /** A chain mentions registered substrates only, and ends in the recorded parent. */
  predicate OwnLineage(id: string, l: Lineage, known: map<string, Descriptor>) {
    && l.substrateId == id
    && l.parentId == (if l.ancestorChain == [] then "" else l.ancestorChain[|l.ancestorChain| - 1])
    && forall k | 0 <= k < |l.ancestorChain| :: l.ancestorChain[k] in known
  }

  predicate Own(r: Reg, id: string)
    requires id in r.descriptors && id in r.statuses && id in r.lineage && id in r.bindings
  {
    OwnRecords(id, r.descriptors[id], r.statuses[id], r.bindings[id]) && OwnLineage(id, r.lineage[id], r.descriptors)
  }

  predicate Numbered(hash: Hash, events: seq<Event>) {
    forall k | 0 <= k < |events| :: events[k].eventId == hash(EventIdentity(events[k].payload, k + 1))
  }

  ghost predicate Sound(hash: Hash, r: Reg) {
    && SharedKeys(r)
    && (forall id {:trigger Own(r, id)} | id in r.descriptors :: Own(r, id))
    && Numbered(hash, r.events)
  }

  /** One substrate gets new records, the others keep theirs. */
  lemma SoundWith(hash: Hash, r: Reg, next: Reg, id: string, d: Descriptor, s: Status, l: Lineage, b: Binding)
    requires Sound(hash, r) && Numbered(hash, next.events)
    requires next.descriptors == r.descriptors[id := d] && next.statuses == r.statuses[id := s]
    requires next.lineage == r.lineage[id := l] && next.bindings == r.bindings[id := b]
    requires OwnRecords(id, d, s, b) && OwnLineage(id, l, next.descriptors)
    ensures Sound(hash, next)
  {
    assert SharedKeys(next);
    forall other | other in next.descriptors
      ensures Own(next, other)
    {
      if other != id { assert Own(r, other); }
    }
  }

  lemma InheritedKnown(hash: Hash, r: Reg, parent: string, known: map<string, Descriptor>)
    requires Sound(hash, r) && r.descriptors.Keys <= known.Keys
    ensures forall k | 0 <= k < |Inherited(r, parent)| :: Inherited(r, parent)[k] in known
  {
    if parent in r.descriptors { assert Own(r, parent); }
  }

  lemma SoundRegister(hash: Hash, r: Reg, d: Descriptor, parent: string, now: string)
    requires Sound(hash, r) && AfterRegister(hash, r, d, parent, now).Ok?
    ensures Sound(hash, AfterRegister(hash, r, d, parent, now).value)
  {
    var next := AfterRegister(hash, r, d, parent, now).value;
    var id := Normalize(d, now).value.substrateId;
    RegisteredRecords(hash, r, d, parent, now);
    RegisteredLineage(hash, r, d, parent, now);
    SoundWith(hash, r, next, id, next.descriptors[id], next.statuses[id], next.lineage[id], next.bindings[id]);
  }

  lemma RegisteredRecords(hash: Hash, r: Reg, d: Descriptor, parent: string, now: string)
    requires AfterRegister(hash, r, d, parent, now).Ok?
    ensures var next, id := AfterRegister(hash, r, d, parent, now).value, Normalize(d, now).value.substrateId;
      OwnRecords(id, next.descriptors[id], next.statuses[id], next.bindings[id])
  {
    NormalTidy(d, now);
  }

  lemma RegisteredLineage(hash: Hash, r: Reg, d: Descriptor, parent: string, now: string)
    requires Sound(hash, r) && AfterRegister(hash, r, d, parent, now).Ok?
    ensures var next, id := AfterRegister(hash, r, d, parent, now).value, Normalize(d, now).value.substrateId;
      OwnLineage(id, next.lineage[id], next.descriptors)
  {
    InheritedKnown(hash, r, parent, AfterRegister(hash, r, d, parent, now).value.descriptors);
  }

  lemma NormalTidy(d: Descriptor, now: string)
    requires Normalize(d, now).Ok?
    ensures TidyDescriptor(Normalize(d, now).value)
  {
    BareVersion(Strip(d.version));
  }

  lemma BareVersion(version: string)
    requires Bare(version)
    ensures Bare(OrElse(version, "0.1.0")) && OrElse(version, "0.1.0") != ""
  {
  }

  lemma SoundUpdate(hash: Hash, r: Reg, id: string, c: Change, now: Instants)
    requires Sound(hash, r) && id in r.descriptors
    ensures Sound(hash, AfterUpdate(hash, r, id, c, now).value)
  {
    var next := AfterUpdate(hash, r, id, c, now).value;
    assert Own(r, id);
    SoundWith(hash, r, next, id, next.descriptors[id], next.statuses[id], next.lineage[id], next.bindings[id]);
  }

  lemma SoundApply(hash: Hash, r: Reg, id: string, s: Signal, now: string)
    requires Sound(hash, r) && AfterApply(hash, r, id, s, now).Ok?
    ensures Sound(hash, AfterApply(hash, r, id, s, now).value)
  {
    var next := AfterApply(hash, r, id, s, now).value;
    assert Own(r, id);
    SoundWith(hash, r, next, id, r.descriptors[id], next.statuses[id], r.lineage[id], next.bindings[id]);
  }

  lemma SoundEmit(hash: Hash, r: Reg, s: Signal, now: string)
    requires Sound(hash, r) && AfterEmit(hash, r, s, now).Ok?
    ensures Sound(hash, AfterEmit(hash, r, s, now).value)
  {
    SoundSame(hash, r, AfterEmit(hash, r, s, now).value);
  }

  lemma SoundSame(hash: Hash, r: Reg, next: Reg)
    requires Sound(hash, r) && Numbered(hash, next.events)
    requires next == r.(events := next.events, signals := next.signals)
    ensures Sound(hash, next)
  {
    assert SharedKeys(next);
    forall id | id in next.descriptors
      ensures Own(next, id)
    {
      assert Own(r, id);
    }
  }

  lemma SoundAfter(hash: Hash, k: Kernel, op: Op)
    requires Sound(hash, k.reg)
    ensures Sound(hash, After(hash, k, op).reg)
  {
    if Outcome(hash, k, op).Ok? {
      match op
      case Register(d, parent, now) => SoundRegister(hash, k.reg, d, parent, now);
      case Update(id, change, instants) => SoundUpdate(hash, k.reg, id, change, instants);
      case Apply(id, s, now) => SoundApply(hash, k.reg, id, s, now);
      case Emit(s, now) => SoundEmit(hash, k.reg, s, now);
      case EmitFor(id, local, scope, issuedAt, now) => SoundEmit(hash, k.reg, Emission(hash, k, op).value, now);
    }
  }

  lemma {:induction false} SoundAlways(hash: Hash, ops: seq<Op>, ks: seq<Kernel>, n: nat)
    requires Run(hash, ops, ks) && n <= |ops|
    ensures Sound(hash, ks[n].reg)
  {
    if n > 0 {
      SoundAlways(hash, ops, ks, n - 1);
      assert StepAt(hash, ops, ks, n - 1);
      SoundAfter(hash, ks[n - 1], ops[n - 1]);
    }
  }

  /** An injective hash gives every event of a run its own identity. */
  lemma EventIdsDistinct(hash: Hash, ops: seq<Op>, ks: seq<Kernel>, n: nat, i: nat, j: nat)
    requires Run(hash, ops, ks) && n <= |ops| && i < |ks[n].reg.events| && j < |ks[n].reg.events|
    requires forall p, q :: hash(p) == hash(q) ==> p == q
    ensures ks[n].reg.events[i].eventId == ks[n].reg.events[j].eventId ==> i == j
  {
    SoundAlways(hash, ops, ks, n);
    var events := ks[n].reg.events;
    assert events[i].eventId == hash(EventIdentity(events[i].payload, i + 1));
    assert events[j].eventId == hash(EventIdentity(events[j].payload, j + 1));
  }

  // ---- epochs ----

  /** The event registered or updated this substrate. */
  predicate Shapes(e: Event, id: string) {
    (e.payload.Registered? || e.payload.Updated?) && e.payload.substrateId == id
  }

  /** The one-based place of the last event that shaped the substrate, zero when there is none. */
  function LastShaped(events: seq<Event>, id: string): (n: nat)
    ensures n <= |events|
    ensures n > 0 ==> Shapes(events[n - 1], id)
    ensures forall j | n <= j < |events| :: !Shapes(events[j], id)
  {
    if events == [] then 0
    else if Shapes(events[|events| - 1], id) then |events|
    else LastShaped(events[..|events| - 1], id)
  }

  predicate Timely(r: Reg, id: string)
    requires id in r.bindings
  {
    r.bindings[id].canonicalState.replayEpoch == LastShaped(r.events, id) > 0
  }

  predicate Epochs(r: Reg) {
    forall id | id in r.bindings :: Timely(r, id)
  }

  /** The operation sets a replay epoch to something else than what it is. */
  predicate MovesEpoch(k: Kernel, op: Op) {
    && op.Apply? && op.s.kind == "TemporalSync" && op.id in k.reg.bindings
    && op.s.payload.targetReplayEpoch.Some? && op.s.payload.targetReplayEpoch.value.Epoch?
    && op.s.payload.targetReplayEpoch.value.epoch != k.reg.bindings[op.id].canonicalState.replayEpoch
  }

  lemma RecordedShapes(hash: Hash, events: seq<Event>, payload: EventPayload, timestamp: string, id: string)
    ensures LastShaped(Recorded(hash, events, payload, timestamp), id) ==
              if Shapes(Event("", payload, ""), id) then |events| + 1 else LastShaped(events, id)
  {
    var next := Recorded(hash, events, payload, timestamp);
    assert next[..|next| - 1] == events;
  }

  lemma EpochsShaped(hash: Hash, r: Reg, next: Reg, payload: EventPayload, timestamp: string, id: string)
    requires Epochs(r) && next.events == Recorded(hash, r.events, payload, timestamp)
    requires Shapes(Event("", payload, ""), id)
    requires id in next.bindings && next.bindings == r.bindings[id := next.bindings[id]]
    requires next.bindings[id].canonicalState.replayEpoch == |r.events| + 1
    ensures Epochs(next)
  {
    forall other | other in next.bindings
      ensures Timely(next, other)
    {
      RecordedShapes(hash, r.events, payload, timestamp, other);
      if other != id { assert Timely(r, other); }
    }
  }

  /** One substrate gets a new binding by an event that shapes none. */
  lemma EpochsBound(hash: Hash, r: Reg, next: Reg, payload: EventPayload, timestamp: string, id: string, b: Binding)
    requires Epochs(r) && id in r.bindings && next.bindings == r.bindings[id := b]
    requires next.events == Recorded(hash, r.events, payload, timestamp) && !payload.Registered? && !payload.Updated?
    ensures Epochs(next) <==> b.canonicalState.replayEpoch == r.bindings[id].canonicalState.replayEpoch
  {
    assert Timely(r, id);
    RecordedShapes(hash, r.events, payload, timestamp, id);
    forall other | other in next.bindings && other != id
      ensures Timely(next, other)
    {
      RecordedShapes(hash, r.events, payload, timestamp, other);
      assert Timely(r, other);
    }
    assert Timely(next, id) <==> b.canonicalState.replayEpoch == r.bindings[id].canonicalState.replayEpoch;
  }

  lemma EpochsApplied(hash: Hash, r: Reg, id: string, s: Signal, now: string)
    requires Epochs(r) && AfterApply(hash, r, id, s, now).Ok?
    ensures Epochs(AfterApply(hash, r, id, s, now).value) <==> !MovesEpoch(Kernel(r, []), Apply(id, s, now))
  {
    var next := AfterApply(hash, r, id, s, now).value;
    EpochsBound(hash, r, next, Applied(id, s.signalId, s.kind, s.scope, s.issuedAt), now, id, next.bindings[id]);
  }

  lemma EpochsEmitted(hash: Hash, r: Reg, s: Signal, now: string)
    requires Epochs(r) && AfterEmit(hash, r, s, now).Ok?
    ensures Epochs(AfterEmit(hash, r, s, now).value)
  {
    var next := AfterEmit(hash, r, s, now).value;
    forall id | id in next.bindings
      ensures Timely(next, id)
    {
      RecordedShapes(hash, r.events, Emitted(s.signalId, s.kind, s.scope, s.issuedAt), now, id);
      assert Timely(r, id);
    }
  }

  lemma EpochsRegistered(hash: Hash, r: Reg, d: Descriptor, parent: string, now: string)
    requires Epochs(r) && AfterRegister(hash, r, d, parent, now).Ok?
    ensures Epochs(AfterRegister(hash, r, d, parent, now).value)
  {
    var next, n := AfterRegister(hash, r, d, parent, now).value, Normalize(d, now).value;
    EpochsShaped(hash, r, next, next.events[|r.events|].payload, n.registeredAt, n.substrateId);
  }

  lemma EpochsUpdated(hash: Hash, r: Reg, id: string, c: Change, now: Instants)
    requires Sound(hash, r) && Epochs(r) && id in r.descriptors
    ensures Epochs(AfterUpdate(hash, r, id, c, now).value)
  {
    assert Own(r, id);
    var next := AfterUpdate(hash, r, id, c, now).value;
    EpochsShaped(hash, r, next, next.events[|r.events|].payload, now.recorded, id);
  }

  /** A step keeps the epochs exactly when it is not a temporal sync to some other epoch. */
  lemma EpochsAfter(hash: Hash, k: Kernel, op: Op)
    requires Sound(hash, k.reg) && Epochs(k.reg)
    ensures Epochs(After(hash, k, op).reg) <==> !MovesEpoch(k, op)
  {
    match op
    case Register(d, parent, now) =>
      if AfterRegister(hash, k.reg, d, parent, now).Ok? { EpochsRegistered(hash, k.reg, d, parent, now); }
    case Update(id, change, instants) =>
      if id in k.reg.descriptors { EpochsUpdated(hash, k.reg, id, change, instants); }
    case Apply(id, s, now) => EpochsAfterApply(hash, k, id, s, now);
    case Emit(s, now) => if AfterEmit(hash, k.reg, s, now).Ok? { EpochsEmitted(hash, k.reg, s, now); }
    case EmitFor(_, _, _, _, _) => EpochsAfterEmitFor(hash, k, op);
  }

  lemma EpochsAfterApply(hash: Hash, k: Kernel, id: string, s: Signal, now: string)
    requires Epochs(k.reg)
    ensures Epochs(After(hash, k, Apply(id, s, now)).reg) <==> !MovesEpoch(k, Apply(id, s, now))
  {
    if AfterApply(hash, k.reg, id, s, now).Ok? { EpochsApplied(hash, k.reg, id, s, now); }
  }

  lemma EpochsAfterEmitFor(hash: Hash, k: Kernel, op: Op)
    requires op.EmitFor? && Epochs(k.reg)
    ensures Epochs(After(hash, k, op).reg)
  {
    var s := Emission(hash, k, op);
    if s.Ok? && AfterEmit(hash, k.reg, s.value, op.now).Ok? { EpochsEmitted(hash, k.reg, s.value, op.now); }
  }

  predicate EpochsAt(ks: seq<Kernel>, i: nat) {
    i < |ks| && Epochs(ks[i].reg)
  }

  predicate MovesAt(ops: seq<Op>, ks: seq<Kernel>, i: nat) {
    i < |ops| && i < |ks| && MovesEpoch(ks[i], ops[i])
  }

  /** The epochs are right all through a run exactly when no step of it moves one. */
  lemma {:induction false} EpochsIff(hash: Hash, ops: seq<Op>, ks: seq<Kernel>, n: nat)
    requires Run(hash, ops, ks) && n <= |ops|
    ensures (forall i: nat | i <= n :: EpochsAt(ks, i)) <==> (forall i: nat | i < n :: !MovesAt(ops, ks, i))
  {
    if n == 0 {
      assert EpochsAt(ks, 0);
    } else {
      EpochsIff(hash, ops, ks, n - 1);
      if EpochsAt(ks, n - 1) { EpochsStep(hash, ops, ks, n - 1); }
    }
  }

  lemma EpochsStep(hash: Hash, ops: seq<Op>, ks: seq<Kernel>, n: nat)
    requires Run(hash, ops, ks) && n < |ops| && EpochsAt(ks, n)
    ensures EpochsAt(ks, n + 1) <==> !MovesAt(ops, ks, n)
  {
    SoundAlways(hash, ops, ks, n);
    assert StepAt(hash, ops, ks, n);
    EpochsAfter(hash, ks[n], ops[n]);
  }

  /** The signal is one that `derive_harmonic_signal` can return. */
  ghost predicate Derived(hash: Hash, s: Signal) {
    exists delta, scope, at :: Derive(hash, delta, scope, at) == Ok(s)
  }

  predicate PunctualOne(r: Reg, id: string)
    requires id in r.statuses && id in r.bindings
  {
    r.statuses[id].lastEpochSeen == r.bindings[id].canonicalState.replayEpoch == LastShaped(r.events, id) > 0
  }

  /** The maps share their keys; each replay epoch is the last seen epoch and the place of the event that registered
      or last updated that substrate; no two substrates share one. */
  ghost predicate Punctual(r: Reg) {
    && SharedKeys(r)
    && (forall id {:trigger PunctualOne(r, id)} | id in r.descriptors :: PunctualOne(r, id))
    && (forall a, b | a in r.descriptors && b in r.descriptors && a != b ::
          r.statuses[a].lastEpochSeen != r.statuses[b].lastEpochSeen)
  }

  /** In every run whose applied signals are all derived ones. */
  lemma RegistryEpochs(hash: Hash, ops: seq<Op>, ks: seq<Kernel>, n: nat)
    requires Run(hash, ops, ks) && n <= |ops|
    requires forall i | 0 <= i < n && ops[i].Apply? :: Derived(hash, ops[i].s)
    ensures Punctual(ks[n].reg)
  {
    forall i: nat | i < n
      ensures !MovesAt(ops, ks, i)
    {
      if ops[i].Apply? { DerivedHasNoTarget(hash, ops[i].s); }
    }
    EpochsIff(hash, ops, ks, n);
    assert EpochsAt(ks, n);
    SoundAlways(hash, ops, ks, n);
    EpochsMean(hash, ks[n].reg);
  }

  lemma DerivedHasNoTarget(hash: Hash, s: Signal)
    requires Derived(hash, s)
    ensures s.payload.targetReplayEpoch.None?
  {
    var delta, scope, at :| Derive(hash, delta, scope, at) == Ok(s);
  }

  lemma EpochsMean(hash: Hash, r: Reg)
    requires Sound(hash, r) && Epochs(r)
    ensures Punctual(r)
  {
    forall id | id in r.descriptors
      ensures PunctualOne(r, id)
    {
      assert Own(r, id) && Timely(r, id);
    }
    forall a, b | a in r.descriptors && b in r.descriptors && a != b
      ensures r.statuses[a].lastEpochSeen != r.statuses[b].lastEpochSeen
    {
      Apart(r, a, b);
    }
  }

  lemma Apart(r: Reg, a: string, b: string)
    requires a in r.statuses && a in r.bindings && b in r.statuses && b in r.bindings && a != b
    requires PunctualOne(r, a) && PunctualOne(r, b)
    ensures r.statuses[a].lastEpochSeen != r.statuses[b].lastEpochSeen
  {
    var n := LastShaped(r.events, a);
    assert Shapes(r.events[n - 1], a);
  }

  /** An update always leaves a delta to reconcile: the former state lies behind by the events since the substrate was
      last shaped. */
  lemma UpdateDrift(hash: Hash, r: Reg, id: string, c: Change, now: Instants)
    requires Sound(hash, r) && Epochs(r) && id in r.descriptors
    ensures var next := AfterUpdate(hash, r, id, c, now);
      && next.Ok? && id in next.value.bindings
      && var delta := next.value.bindings[id].lastDelta;
      && delta.requiresReconciliation && delta.temporalDrift == LastShaped(r.events, id) - (|r.events| + 1) < 0
  {
    assert Own(r, id) && Timely(r, id);
  }

  /** A delta and the local state it was computed from determine the canonical epoch and hashes. */
  lemma DeltaDetermines(canonical: State, local: State)
    ensures var delta := ComputeDelta(canonical, local);
      && canonical.replayEpoch == local.replayEpoch - delta.temporalDrift
      && canonical.evidenceGraphHash ==
           (if delta.evidenceConflicts == [] then local.evidenceGraphHash else delta.evidenceConflicts[0].canonicalHash)
      && canonical.authorityGraphHash ==
           (if delta.authorityConflicts == [] then local.authorityGraphHash
            else delta.authorityConflicts[0].canonicalHash)
      && (forall c | c in delta.evidenceConflicts :: c.localHash == local.evidenceGraphHash)
      && (forall c | c in delta.authorityConflicts :: c.localHash == local.authorityGraphHash)
  {
  }

  // ---- canonical states ----

  /** The signal an `emit_for` returns. */
  function Emission(hash: Hash, k: Kernel, op: Op): Result<Signal>
    requires op.EmitFor?
  {
    var delta :- Sensed(k.reg, op.id, op.local);
    Derive(hash, delta, op.scope, OrElse(op.issuedAt, op.now))
  }

  /** A signal derived from one canonical state leaves another alone exactly when the hash it carries, if any, is the
      other's too. */
  lemma DerivedMovesIff(hash: Hash, from: State, local: State, scope: string, at: string, canonical: State)
    requires Derive(hash, ComputeDelta(from, local), scope, at).Ok?
    ensures Synced(canonical, Derive(hash, ComputeDelta(from, local), scope, at).value) == canonical <==>
              if local.evidenceGraphHash != from.evidenceGraphHash then
                canonical.evidenceGraphHash == from.evidenceGraphHash
              else local.authorityGraphHash != from.authorityGraphHash ==>
                  canonical.authorityGraphHash == from.authorityGraphHash
  {
    var s := Derive(hash, ComputeDelta(from, local), scope, at).value;
    assert s.kind == "EvidenceSync" ==> Synced(canonical, s) == canonical.(evidenceGraphHash := from.evidenceGraphHash);
    assert s.kind == "AuthoritySync" ==>
        Synced(canonical, s) == canonical.(authorityGraphHash := from.authorityGraphHash);
  }

  /** `s` was returned by an `emit_for` on the substrate between two points of the run. */
  ghost predicate EmittedBetween(hash: Hash, ops: seq<Op>, ks: seq<Kernel>, m: nat, n: nat, id: string, s: Signal)
    requires n <= |ops| && n < |ks|
  {
    exists i: nat | m <= i < n :: ops[i].EmitFor? && ops[i].id == id && Emission(hash, ks[i], ops[i]) == Ok(s)
  }

  /** The step does not update the substrate, and applies to it only what `emit_for` returned for it since step `m`. */
  ghost predicate OwnAt(hash: Hash, ops: seq<Op>, ks: seq<Kernel>, m: nat, j: nat, id: string)
    requires j < |ops| < |ks|
  {
    && !(ops[j].Update? && ops[j].id == id)
    && (ops[j].Apply? && ops[j].id == id ==> EmittedBetween(hash, ops, ks, m, j, id, ops[j].s))
  }

  /** So it is between two points of the run.  Anything may happen to other substrates. */
  ghost predicate OwnSignalsOnly(hash: Hash, ops: seq<Op>, ks: seq<Kernel>, m: nat, n: nat, id: string)
    requires m <= n <= |ops| < |ks|
  {
    forall j: nat {:trigger OwnAt(hash, ops, ks, m, j, id)} | m <= j < n :: OwnAt(hash, ops, ks, m, j, id)
  }

  predicate Settled(b: Binding) {
    b.lastDelta == Delta(b.canonicalState.substrateId, 0, [], [], false)
  }

  /** The step applies a signal to the substrate that it can read. */
  predicate Syncs(op: Op, id: string) {
    op.Apply? && op.id == id && op.s.kind in HARMONIC_TYPES && !Unreadable(op.s)
  }

  /** What one step that does not update a substrate does to its binding. */
  lemma BindingAfter(hash: Hash, k: Kernel, op: Op, id: string)
    requires Sound(hash, k.reg) && id in k.reg.bindings && !(op.Update? && op.id == id)
    ensures id in After(hash, k, op).reg.bindings
    ensures var b, next := k.reg.bindings[id], After(hash, k, op).reg.bindings[id];
      if Syncs(op, id) then
        next.canonicalState == Synced(b.canonicalState, op.s) && Settled(next)
      else next == b
  {
    assert Own(k.reg, id);
  }

  lemma BindingStep(hash: Hash, ops: seq<Op>, ks: seq<Kernel>, n: nat, id: string)
    requires Run(hash, ops, ks) && n < |ops| && id in ks[n].reg.bindings && !(ops[n].Update? && ops[n].id == id)
    ensures id in ks[n + 1].reg.bindings
    ensures var b, next := ks[n].reg.bindings[id], ks[n + 1].reg.bindings[id];
      if Syncs(ops[n], id) then
        next.canonicalState == Synced(b.canonicalState, ops[n].s) && Settled(next)
      else next == b
  {
    SoundAlways(hash, ops, ks, n);
    assert StepAt(hash, ops, ks, n);
    BindingAfter(hash, ks[n], ops[n], id);
  }

  /** A binding is applied one of its own signals. */
  lemma OwnSignalSettles(hash: Hash, ops: seq<Op>, ks: seq<Kernel>, i: nat, n: nat, id: string)
    requires Run(hash, ops, ks) && i < n < |ops| && id in ks[i].reg.bindings && id in ks[n].reg.bindings
    requires ops[i].EmitFor? && ops[i].id == id
    requires ops[n].Apply? && ops[n].id == id && Emission(hash, ks[i], ops[i]) == Ok(ops[n].s)
    requires ks[i].reg.bindings[id].canonicalState == ks[n].reg.bindings[id].canonicalState
    ensures id in ks[n + 1].reg.bindings
    ensures ks[n + 1].reg.bindings[id].canonicalState == ks[n].reg.bindings[id].canonicalState
    ensures Settled(ks[n + 1].reg.bindings[id])
  {
    var canonical := ks[n].reg.bindings[id].canonicalState;
    DerivedMovesIff(hash, canonical, ops[i].local, ops[i].scope, OrElse(ops[i].issuedAt, ops[i].now), canonical);
    BindingStep(hash, ops, ks, n, id);
  }

  /** The canonical state is what it was at step `m`. */
  predicate FixedAt(ks: seq<Kernel>, m: nat, i: nat, id: string)
    requires m < |ks| && i < |ks| && id in ks[m].reg.bindings
  {
    id in ks[i].reg.bindings && ks[i].reg.bindings[id].canonicalState == ks[m].reg.bindings[id].canonicalState
  }

  lemma OwnStep(hash: Hash, ops: seq<Op>, ks: seq<Kernel>, m: nat, n: nat, id: string)
    requires Run(hash, ops, ks) && m <= n < |ops| && id in ks[m].reg.bindings && OwnAt(hash, ops, ks, m, n, id)
    requires forall i: nat {:trigger FixedAt(ks, m, i, id)} | m <= i <= n :: FixedAt(ks, m, i, id)
    ensures FixedAt(ks, m, n + 1, id)
    ensures ops[n].Apply? && ops[n].id == id ==> Settled(ks[n + 1].reg.bindings[id])
    ensures !(ops[n].Apply? && ops[n].id == id) ==>
        id in ks[n].reg.bindings && ks[n + 1].reg.bindings[id] == ks[n].reg.bindings[id]
  {
    assert FixedAt(ks, m, n, id);
    if ops[n].Apply? && ops[n].id == id {
      var i: nat :| m <= i < n && ops[i].EmitFor? && ops[i].id == id && Emission(hash, ks[i], ops[i]) == Ok(ops[n].s);
      assert FixedAt(ks, m, i, id);
      OwnSignalSettles(hash, ops, ks, i, n, id);
    } else {
      BindingStep(hash, ops, ks, n, id);
    }
  }

  /** Its own signals leave the canonical state of a substrate where it was. */
  lemma {:induction false} CanonicalFixed(hash: Hash, ops: seq<Op>, ks: seq<Kernel>, m: nat, n: nat, id: string)
    requires Run(hash, ops, ks) && m <= n <= |ops| && id in ks[m].reg.bindings
        && OwnSignalsOnly(hash, ops, ks, m, n, id)
    ensures forall i: nat {:trigger FixedAt(ks, m, i, id)} | m <= i <= n :: FixedAt(ks, m, i, id)
    decreases n
  {
    if m < n {
      CanonicalFixed(hash, ops, ks, m, n - 1, id);
      assert OwnAt(hash, ops, ks, m, n - 1, id);
      OwnStep(hash, ops, ks, m, n - 1, id);
    }
  }

  /** Once one of them was applied, the stored delta is zero. */
  lemma {:induction false} AppliedSettles(hash: Hash, ops: seq<Op>, ks: seq<Kernel>, m: nat, j: nat, n: nat, id: string)
    requires Run(hash, ops, ks) && m <= j < n <= |ops| && id in ks[m].reg.bindings
        && OwnSignalsOnly(hash, ops, ks, m, n, id)
    requires ops[j].Apply? && ops[j].id == id
    ensures id in ks[n].reg.bindings && Settled(ks[n].reg.bindings[id])
    decreases n
  {
    CanonicalFixed(hash, ops, ks, m, n - 1, id);
    assert OwnAt(hash, ops, ks, m, n - 1, id);
    OwnStep(hash, ops, ks, m, n - 1, id);
    if j < n - 1 { AppliedSettles(hash, ops, ks, m, j, n - 1, id); }
  }

  // ---- ancestor chains ----

  function Chain(k: Kernel, id: string): seq<string>
    requires id in k.reg.lineage
  {
    k.reg.lineage[id].ancestorChain
  }

  function Updates(ops: seq<Op>, m: nat, n: nat, id: string): nat
    requires m <= n <= |ops|
  {
    if m == n then 0 else Updates(ops, m, n - 1, id) + if ops[n - 1].Update? && ops[n - 1].id == id then 1 else 0
  }

  function Times(id: string, count: nat): seq<string> { seq(count, _ => id) }

  lemma ChainAfter(hash: Hash, k: Kernel, op: Op, id: string)
    requires Sound(hash, k.reg) && id in k.reg.lineage
    ensures id in After(hash, k, op).reg.lineage
    ensures Chain(After(hash, k, op), id) == Chain(k, id) + if op.Update? && op.id == id then [id] else []
  {
    assert Own(k.reg, id);
  }

  lemma ChainStep(hash: Hash, ops: seq<Op>, ks: seq<Kernel>, n: nat, id: string)
    requires Run(hash, ops, ks) && n < |ops| && id in ks[n].reg.lineage
    ensures id in ks[n + 1].reg.lineage
    ensures Chain(ks[n + 1], id) == Chain(ks[n], id) + if ops[n].Update? && ops[n].id == id then [id] else []
  {
    SoundAlways(hash, ops, ks, n);
    assert StepAt(hash, ops, ks, n);
    ChainAfter(hash, ks[n], ops[n], id);
  }

  lemma {:induction false} ChainGrows(hash: Hash, ops: seq<Op>, ks: seq<Kernel>, m: nat, n: nat, id: string)
    requires Run(hash, ops, ks) && m <= n <= |ops| && id in ks[m].reg.lineage
    ensures id in ks[n].reg.lineage
    ensures Chain(ks[n], id) == Chain(ks[m], id) + Times(id, Updates(ops, m, n, id))
    decreases n
  {
    if m < n {
      ChainGrows(hash, ops, ks, m, n - 1, id);
      ChainStep(hash, ops, ks, n - 1, id);
      var c := Updates(ops, m, n - 1, id);
      assert Times(id, c + 1) == Times(id, c) + [id];
    }
  }

  /** Every registered substrate was registered at one point `i` of the run; its chain is what it inherited from its
      parent there, then its own name once for every later update of it. */
  lemma {:induction false} AncestorChains(hash: Hash, ops: seq<Op>, ks: seq<Kernel>, n: nat,
                                          id: string) returns (i: nat)
    requires Run(hash, ops, ks) && n <= |ops| && id in ks[n].reg.lineage
    ensures i < n && ops[i].Register? && Strip(ops[i].d.substrateId) == id
    ensures id !in ks[i].reg.lineage && id in ks[i + 1].reg.lineage
    ensures var parent := ops[i].parent;
            Chain(ks[n], id) ==
              (if parent in ks[i].reg.lineage then Chain(ks[i], parent) + [parent] else [])
              + Times(id, Updates(ops, i + 1, n, id))
  {
    i := FirstSeen(hash, ops, ks, n, id);
    ChainGrows(hash, ops, ks, i + 1, n, id);
  }

  lemma ChainsKnown(hash: Hash, ops: seq<Op>, ks: seq<Kernel>, n: nat, id: string)
    requires Run(hash, ops, ks) && n <= |ops| && id in ks[n].reg.lineage
    ensures ChainKnown(ks[n], id)
  {
    SoundAlways(hash, ops, ks, n);
    KnownInSound(hash, ks[n], id);
  }

  lemma KnownInSound(hash: Hash, k: Kernel, id: string)
    requires Sound(hash, k.reg) && id in k.reg.lineage
    ensures ChainKnown(k, id)
  {
    assert Own(k.reg, id);
  }

  /** The chain mentions registered substrates only, and the recorded parent is its last. */
  predicate ChainKnown(k: Kernel, id: string)
    requires id in k.reg.lineage
  {
    && (forall x | x in Chain(k, id) :: x in k.reg.descriptors)
    && k.reg.lineage[id].parentId == (if Chain(k, id) == [] then "" else Chain(k, id)[|Chain(k, id)| - 1])
  }

  /** A step that makes a substrate known is its registration. */
  lemma NewAfter(hash: Hash, k: Kernel, op: Op, next: Kernel, id: string)
    requires Sound(hash, k.reg) && next == After(hash, k, op)
    requires id !in k.reg.lineage && id in next.reg.lineage
    ensures op.Register? && Strip(op.d.substrateId) == id && Chain(next, id) == Inherited(k.reg, op.parent)
  {
  }

  lemma NewAt(hash: Hash, ops: seq<Op>, ks: seq<Kernel>, i: nat, id: string)
    requires Run(hash, ops, ks) && i < |ops| && id !in ks[i].reg.lineage && id in ks[i + 1].reg.lineage
    ensures ops[i].Register? && Strip(ops[i].d.substrateId) == id
        && Chain(ks[i + 1], id) == Inherited(ks[i].reg, ops[i].parent)
  {
    SoundAlways(hash, ops, ks, i);
    assert StepAt(hash, ops, ks, i);
    NewAfter(hash, ks[i], ops[i], ks[i + 1], id);
  }

  lemma {:induction false} FirstSeen(hash: Hash, ops: seq<Op>, ks: seq<Kernel>, n: nat, id: string) returns (i: nat)
    requires Run(hash, ops, ks) && n <= |ops| && id in ks[n].reg.lineage
    ensures i < n && ops[i].Register? && Strip(ops[i].d.substrateId) == id
    ensures id !in ks[i].reg.lineage && id in ks[i + 1].reg.lineage
    ensures Chain(ks[i + 1], id) == Inherited(ks[i].reg, ops[i].parent)
  {
    assert n > 0;
    if id in ks[n - 1].reg.lineage {
      i := FirstSeen(hash, ops, ks, n - 1, id);
    } else {
      i := n - 1;
      NewAt(hash, ops, ks, i, id);
    }
  }
}
