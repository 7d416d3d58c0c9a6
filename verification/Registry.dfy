/** The substrate registry and the harmonic engine over it.  The hash is a parameter, every clock reading an argument,
    and a call that raises leaves the registry as it was. */
module Registry {
  import opened Wrappers

  datatype Result<T> = Ok(value: T) | ContinuityFailure {
    predicate IsFailure() { ContinuityFailure? }
    function PropagateFailure<U>(): Result<U> requires IsFailure() { ContinuityFailure }
    function Extract(): T requires Ok? { value }
  }

  datatype Descriptor = Descriptor(
    substrateId: string, substrateType: string, version: string, capabilities: seq<string>, authorityDomain: string,
    registeredAt: string
  )

  datatype State = State(
    substrateId: string, timelineId: string, replayEpoch: int, evidenceGraphHash: string, authorityGraphHash: string,
    evolutionPhase: string, capturedAt: string
  )

  /** `chain` is the `chainId` of an evidence conflict, the `authorityId` of an authority conflict. */
  datatype Conflict = Conflict(chain: string, localHash: string, canonicalHash: string)

  datatype Delta = Delta(
    substrateId: string, temporalDrift: int, evidenceConflicts: seq<Conflict>, authorityConflicts: seq<Conflict>,
    requiresReconciliation: bool
  )

  datatype Status = Status(
    substrateId: string, healthy: bool, healthReason: string, continuityPhase: string, lastEpochSeen: int,
    lastUpdate: string
  )

  datatype Lineage = Lineage(
    substrateId: string, parentId: string, ancestorChain: seq<string>, evolutionPhase: string, lastEvolvedAt: string
  )

  datatype Binding = Binding(substrateId: string, canonicalState: State, lastDelta: Delta, lastHarmonicApplied: string)

  /** What a payload gives as its target epoch: something `int` reads, or something it raises on. */
  datatype Target = Epoch(epoch: int) | NoNumber

  /** The entries a signal's payload may hold; `None` and `[]` stand for an absent key. */
  datatype SignalPayload = SignalPayload(
    substrateId: Option<string>, temporalDrift: Option<int>, evidenceConflicts: seq<Conflict>,
    authorityConflicts: seq<Conflict>, targetReplayEpoch: Option<Target>,
    canonicalEvidenceGraphHash: Option<string>, canonicalAuthorityGraphHash: Option<string>
  )

  /** `kind` is the source's `type`. */
  datatype Signal = Signal(signalId: string, kind: string, scope: string, payload: SignalPayload, issuedAt: string)

  datatype EventPayload =
    | Registered(substrateId: string, substrateType: string, parentId: string, version: string, timestamp: string)
    | Updated(substrateId: string, version: string, capabilities: seq<string>, authorityDomain: string,
        timestamp: string)
    | Applied(substrateId: string, signalId: string, kind: string, scope: string, issuedAt: string)
    | Emitted(signalId: string, kind: string, scope: string, issuedAt: string)

  /** The constructor of the payload is the event's kind. */
  datatype Event = Event(eventId: string, payload: EventPayload, timestamp: string)

  datatype Preimage =
    | EvidenceGraph(substrateId: string, capabilities: seq<string>, version: string)
    | AuthorityGraph(substrateId: string, authorityDomain: string, substrateType: string, parentId: string,
        phase: string)
    | EventIdentity(event: EventPayload, index: nat)
    | SignalIdentity(substrateId: string, scope: string, payload: SignalPayload)

  type Hash = Preimage -> string

  datatype Reg = Reg(
    descriptors: map<string, Descriptor>, statuses: map<string, Status>, lineage: map<string, Lineage>,
    bindings: map<string, Binding>, events: seq<Event>, signals: seq<Signal>
  )

  datatype Kernel = Kernel(reg: Reg, emitted: seq<Signal>)

  const HARMONIC_TYPES: set<string> := {"TemporalSync", "EvidenceSync", "AuthoritySync"}
  const HARMONIC_SCOPES: set<string> := {"Substrate", "Agent", "Realm"}
  const SUBSTRATE_TYPES: set<string> := {"ULX", "IDE", "URG", "Router", "DirectX", "Vielthorn", "SovereignOS", "custom"}

  // ---- normalising ----

  predicate Bare(s: string) {
    s == "" || (!Space(s[0]) && !Space(s[|s| - 1]))
  }

  function Strip(s: string): (t: string)
    ensures Bare(t)
    ensures Bare(s) ==> t == s
  {
    if s == "" then s
    else if Space(s[0]) then Strip(s[1..])
    else if Space(s[|s| - 1]) then Strip(s[..|s| - 1])
    else s
  }

  predicate Tidy(names: seq<string>) {
    forall k | 0 <= k < |names| :: Bare(names[k]) && names[k] != ""
  }

  function StripAll(names: seq<string>): (r: seq<string>)
    ensures Tidy(r)
    ensures Tidy(names) ==> r == names
  {
    if names == [] then []
    else
      var name := Strip(names[0]);
      (if name == "" then [] else [name]) + StripAll(names[1..])
  }

  function OrElse(s: string, other: string): string { if s == "" then other else s }

  function Normalize(d: Descriptor, now: string): Result<Descriptor> {
    var substrateType := Strip(d.substrateType);
    if substrateType !in SUBSTRATE_TYPES then ContinuityFailure
    else Ok(Descriptor(Strip(d.substrateId), substrateType, OrElse(Strip(d.version), "0.1.0"), StripAll(d.capabilities),
                       Strip(d.authorityDomain), OrElse(d.registeredAt, now)))
  }

  // ---- continuity ----

  function CanonicalState(hash: Hash, d: Descriptor, epoch: nat, parent: string, phase: string): State {
    State(d.substrateId, "timeline::" + d.substrateId, epoch,
        hash(EvidenceGraph(d.substrateId, d.capabilities, d.version)),
          hash(AuthorityGraph(d.substrateId, d.authorityDomain, d.substrateType, parent, phase)), phase, d.registeredAt)
  }

  predicate Agree(a: State, b: State) {
    a.replayEpoch == b.replayEpoch && a.evidenceGraphHash == b.evidenceGraphHash
        && a.authorityGraphHash == b.authorityGraphHash
  }

  function ComputeDelta(canonical: State, local: State): (delta: Delta)
    ensures delta.requiresReconciliation <==> !Agree(canonical, local)
  {
    var evidence := if canonical.evidenceGraphHash == local.evidenceGraphHash then []
                    else [Conflict("evidence::" + canonical.substrateId, local.evidenceGraphHash,
                        canonical.evidenceGraphHash)];
    var authority := if canonical.authorityGraphHash == local.authorityGraphHash then []
                     else [Conflict("authority::" + canonical.substrateId, local.authorityGraphHash,
                         canonical.authorityGraphHash)];
    var drift := local.replayEpoch - canonical.replayEpoch;
    Delta(canonical.substrateId, drift, evidence, authority, drift != 0 || evidence != [] || authority != [])
  }

  function Derive(hash: Hash, delta: Delta, scope: string, issuedAt: string): Result<Signal> {
    if scope !in HARMONIC_SCOPES then ContinuityFailure
    else
      var bare := SignalPayload(Some(delta.substrateId), Some(delta.temporalDrift), [], [], None, None, None);
      var kind := if delta.evidenceConflicts != [] then "EvidenceSync"
                  else if delta.authorityConflicts != [] then "AuthoritySync" else "TemporalSync";
      var payload := if delta.evidenceConflicts != [] then
                       bare.(evidenceConflicts := delta.evidenceConflicts,
                             canonicalEvidenceGraphHash := Some(delta.evidenceConflicts[0].canonicalHash))
                     else if delta.authorityConflicts != [] then
                       bare.(authorityConflicts := delta.authorityConflicts,
                             canonicalAuthorityGraphHash := Some(delta.authorityConflicts[0].canonicalHash))
                     else bare;
      Ok(Signal(hash(SignalIdentity(delta.substrateId, scope, payload)), kind, scope, payload, issuedAt))
  }

  // ---- the registry's steps ----

  function Recorded(hash: Hash, events: seq<Event>, payload: EventPayload, timestamp: string): seq<Event> {
    events + [Event(hash(EventIdentity(payload, |events| + 1)), payload, timestamp)]
  }

  /** What a new substrate inherits from the parent named at its registration. */
  function Inherited(r: Reg, parent: string): seq<string> {
    if parent in r.lineage then r.lineage[parent].ancestorChain + [parent] else []
  }

  /** The four maps have the same keys. */
  ghost predicate SharedKeys(r: Reg) {
    forall id :: (id in r.descriptors <==> id in r.statuses) && (id in r.descriptors <==> id in r.lineage)
                 && (id in r.descriptors <==> id in r.bindings)
  }

  function AfterRegister(hash: Hash, r: Reg, d: Descriptor, parent: string, now: string): Result<Reg> {
    var n :- Normalize(d, now);
    var id := n.substrateId;
    if id in r.descriptors then ContinuityFailure
    else
      var parentId := if parent in r.descriptors then parent else "";
      var canonical := CanonicalState(hash, n, |r.events| + 1, parentId, "baseline");
      Ok(Reg(
        r.descriptors[id := n],
        r.statuses[id := Status(id, true, "registered", "baseline", canonical.replayEpoch, n.registeredAt)],
        r.lineage[id := Lineage(id, parentId, Inherited(r, parent), "creation", n.registeredAt)],
        r.bindings[id := Binding(id, canonical, ComputeDelta(canonical, canonical), "")],
        Recorded(hash, r.events, Registered(id, n.substrateType, parentId, n.version, n.registeredAt), n.registeredAt),
        r.signals))
  }

  /** The arguments of an update; an absent one, or a blank text, keeps what is there. */
  datatype Change = Change(capabilities: Option<seq<string>>, version: Option<string>, authorityDomain: Option<string>)

  /** The three clock readings of an update, in the order they are taken. */
  datatype Instants = Instants(evolved: string, updated: string, recorded: string)

  function Amended(current: string, given: Option<string>): string {
    if given.None? then current else OrElse(Strip(given.value), current)
  }

  function Changed(d: Descriptor, c: Change): Descriptor {
    d.(version := Amended(d.version, c.version),
       capabilities := StripAll(if c.capabilities.Some? then c.capabilities.value else d.capabilities),
       authorityDomain := Amended(d.authorityDomain, c.authorityDomain))
  }

  /** Every registry a run reaches shares its keys, so it is `descriptors` that decides. */
  function AfterUpdate(hash: Hash, r: Reg, id: string, c: Change, now: Instants): Result<Reg> {
    if id !in r.descriptors || id !in r.lineage || id !in r.bindings then ContinuityFailure
    else
      var d := Changed(r.descriptors[id], c);
      var was := r.lineage[id];
      var canonical := CanonicalState(hash, d, |r.events| + 1, was.substrateId, "evolution");
      Ok(Reg(
        r.descriptors[id := d],
        r.statuses[id := Status(id, true, "evolved", "evolution", canonical.replayEpoch, now.updated)],
        r.lineage[id := Lineage(id, was.substrateId, was.ancestorChain + [was.substrateId], "evolution", now.evolved)],
        r.bindings[id := Binding(id, canonical, ComputeDelta(canonical, r.bindings[id].canonicalState), "")],
        Recorded(hash, r.events, Updated(id, d.version, d.capabilities, d.authorityDomain, now.recorded), now.recorded),
        r.signals))
  }

  function Reset<T>(given: Option<T>, current: T): T { if given.Some? then given.value else current }

  /** The signal's target epoch is read, and cannot be. */
  predicate Unreadable(s: Signal) {
    s.kind == "TemporalSync" && s.payload.targetReplayEpoch == Some(NoNumber)
  }

  /** The canonical state a signal asks for. */
  function Synced(canonical: State, s: Signal): State
    requires !Unreadable(s)
  {
    if s.kind == "TemporalSync" then
      if s.payload.targetReplayEpoch.None? then canonical
      else canonical.(replayEpoch := s.payload.targetReplayEpoch.value.epoch)
    else if s.kind == "EvidenceSync" then
      canonical.(evidenceGraphHash := Reset(s.payload.canonicalEvidenceGraphHash, canonical.evidenceGraphHash))
    else canonical.(authorityGraphHash := Reset(s.payload.canonicalAuthorityGraphHash, canonical.authorityGraphHash))
  }

  function AfterApply(hash: Hash, r: Reg, id: string, s: Signal, now: string): Result<Reg> {
    if s.kind !in HARMONIC_TYPES || id !in r.bindings || Unreadable(s) then ContinuityFailure
    else
      var canonical := Synced(r.bindings[id].canonicalState, s);
      Ok(r.(
        bindings := r.bindings[id := Binding(id, canonical, ComputeDelta(canonical, canonical), s.signalId)],
        statuses := r.statuses[id :=
            Status(id, true, "harmonic-applied", canonical.evolutionPhase, canonical.replayEpoch, s.issuedAt)],
        signals := r.signals + [s],
        events := Recorded(hash, r.events, Applied(id, s.signalId, s.kind, s.scope, s.issuedAt), now)))
  }

  function AfterEmit(hash: Hash, r: Reg, s: Signal, now: string): Result<Reg> {
    if s.kind !in HARMONIC_TYPES || s.scope !in HARMONIC_SCOPES then ContinuityFailure
    else
      var payload := Emitted(s.signalId, s.kind, s.scope, s.issuedAt);
      Ok(r.(signals := r.signals + [s], events := Recorded(hash, r.events, payload, now)))
  }

  function Sensed(r: Reg, id: string, local: State): Result<Delta> {
    if id !in r.bindings then ContinuityFailure else Ok(ComputeDelta(r.bindings[id].canonicalState, local))
  }

  /** `issuedAt` falls back on the clock when it is blank. */
  function AfterEmitFor(hash: Hash, k: Kernel, id: string, local: State, scope: string, issuedAt: string,
                        now: string): Result<Kernel> {
    var delta :- Sensed(k.reg, id, local);
    var s :- Derive(hash, delta, scope, OrElse(issuedAt, now));
    var reg :- AfterEmit(hash, k.reg, s, now);
    Ok(Kernel(reg, k.emitted + [s]))
  }

  // ---- the objects ----

  class SubstrateRegistry {
    const hash: Hash
    var descriptors: map<string, Descriptor>
    var statuses: map<string, Status>
    var lineage: map<string, Lineage>
    var bindings: map<string, Binding>
    var eventLog: seq<Event>
    var signalLog: seq<Signal>

    ghost function Now(): Reg
      reads this
    {
      Reg(descriptors, statuses, lineage, bindings, eventLog, signalLog)
    }

    constructor (hash: Hash)
      ensures this.hash == hash && Now() == Reg(map[], map[], map[], map[], [], [])
    {
      this.hash := hash;
      descriptors, statuses, lineage, bindings, eventLog, signalLog := map[], map[], map[], map[], [], [];
    }

    method RecordEvent(payload: EventPayload, timestamp: string)
      modifies this`eventLog
      ensures eventLog == Recorded(hash, old(eventLog), payload, timestamp)
    {
      eventLog := eventLog + [Event(hash(EventIdentity(payload, |eventLog| + 1)), payload, timestamp)];
    }

    method RegisterSubstrate(d: Descriptor, parent: string, now: string) returns (out: Result<Descriptor>)
      requires SharedKeys(Now())
      modifies this
      ensures match AfterRegister(hash, old(Now()), d, parent, now)
              case ContinuityFailure => out.ContinuityFailure? && Now() == old(Now())
              case Ok(r) => Now() == r && out == Normalize(d, now)
    {
      var n :- Normalize(d, now);
      var id := n.substrateId;
      if id in descriptors { return ContinuityFailure; }
      var parentId := "";
      var chain: seq<string> := [];
      if parent in descriptors {
        parentId := parent;
        chain := lineage[parent].ancestorChain + [parent];
      }
      var canonical := CanonicalState(hash, n, |eventLog| + 1, parentId, "baseline");
      descriptors := descriptors[id := n];
      statuses := statuses[id := Status(id, true, "registered", "baseline", canonical.replayEpoch, n.registeredAt)];
      lineage := lineage[id := Lineage(id, parentId, chain, "creation", n.registeredAt)];
      bindings := bindings[id := Binding(id, canonical, ComputeDelta(canonical, canonical), "")];
      RecordEvent(Registered(id, n.substrateType, parentId, n.version, n.registeredAt), n.registeredAt);
      return Ok(n);
    }

    method UpdateSubstrate(id: string, c: Change, now: Instants) returns (out: Result<Descriptor>)
      requires SharedKeys(Now())
      modifies this
      ensures match AfterUpdate(hash, old(Now()), id, c, now)
              case ContinuityFailure => out.ContinuityFailure? && Now() == old(Now())
              case Ok(r) => Now() == r && id in descriptors && out == Ok(descriptors[id])
    {
      if id !in descriptors { return ContinuityFailure; }
      var d := Changed(descriptors[id], c);
      var was := lineage[id];
      var canonical := CanonicalState(hash, d, |eventLog| + 1, was.substrateId, "evolution");
      var delta := ComputeDelta(canonical, bindings[id].canonicalState);
      descriptors := descriptors[id := d];
      lineage := lineage[id :=
          Lineage(id, was.substrateId, was.ancestorChain + [was.substrateId], "evolution", now.evolved)];
      statuses := statuses[id := Status(id, true, "evolved", "evolution", canonical.replayEpoch, now.updated)];
      bindings := bindings[id := Binding(id, canonical, delta, "")];
      RecordEvent(Updated(id, d.version, d.capabilities, d.authorityDomain, now.recorded), now.recorded);
      return Ok(d);
    }

    method CompareContinuity(id: string, local: State) returns (out: Result<Delta>)
      ensures out == Sensed(Now(), id, local)
    {
      if id !in bindings { return ContinuityFailure; }
      return Ok(ComputeDelta(bindings[id].canonicalState, local));
    }

    method ApplySignal(id: string, s: Signal, now: string) returns (out: Result<State>)
      modifies this
      ensures match AfterApply(hash, old(Now()), id, s, now)
              case ContinuityFailure => out.ContinuityFailure? && Now() == old(Now())
              case Ok(r) => Now() == r && id in bindings && out == Ok(bindings[id].canonicalState)
    {
      if s.kind !in HARMONIC_TYPES || id !in bindings { return ContinuityFailure; }
      var canonical := bindings[id].canonicalState;
      if s.kind == "TemporalSync" {
        var target := s.payload.targetReplayEpoch;
        if target == Some(NoNumber) { return ContinuityFailure; }
        if target.Some? { canonical := canonical.(replayEpoch := target.value.epoch); }
      } else if s.kind == "EvidenceSync" {
        canonical := canonical.(evidenceGraphHash :=
            Reset(s.payload.canonicalEvidenceGraphHash, canonical.evidenceGraphHash));
      } else {
        canonical := canonical.(authorityGraphHash :=
            Reset(s.payload.canonicalAuthorityGraphHash, canonical.authorityGraphHash));
      }
      bindings := bindings[id := Binding(id, canonical, ComputeDelta(canonical, canonical), s.signalId)];
      statuses := statuses[id :=
          Status(id, true, "harmonic-applied", canonical.evolutionPhase, canonical.replayEpoch, s.issuedAt)];
      signalLog := signalLog + [s];
      RecordEvent(Applied(id, s.signalId, s.kind, s.scope, s.issuedAt), now);
      return Ok(canonical);
    }

    method EmitSignal(s: Signal, now: string) returns (out: Result<Signal>)
      modifies this
      ensures match AfterEmit(hash, old(Now()), s, now)
              case ContinuityFailure => out.ContinuityFailure? && Now() == old(Now())
              case Ok(r) => Now() == r && out == Ok(s)
    {
      if s.kind !in HARMONIC_TYPES || s.scope !in HARMONIC_SCOPES { return ContinuityFailure; }
      signalLog := signalLog + [s];
      RecordEvent(Emitted(s.signalId, s.kind, s.scope, s.issuedAt), now);
      return Ok(s);
    }
  }

  class HarmonicEngine {
    const registry: SubstrateRegistry
    var signalLog: seq<Signal>

    ghost function Now(): Kernel
      reads this, registry
    {
      Kernel(registry.Now(), signalLog)
    }

    constructor (registry: SubstrateRegistry)
      ensures this.registry == registry && Now() == Kernel(registry.Now(), [])
    {
      this.registry := registry;
      signalLog := [];
    }

    method EmitFor(id: string, local: State, scope: string, issuedAt: string, now: string) returns (out: Result<Signal>)
      modifies this, registry
      ensures match AfterEmitFor(registry.hash, old(Now()), id, local, scope, issuedAt, now)
              case ContinuityFailure => out.ContinuityFailure? && Now() == old(Now())
              case Ok(k) => Now() == k && out == Ok(signalLog[|signalLog| - 1])
    {
      var delta :- registry.CompareContinuity(id, local);
      var s :- Derive(registry.hash, delta, scope, OrElse(issuedAt, now));
      signalLog := signalLog + [s];
      out := registry.EmitSignal(s, now);
    }

    method Apply(id: string, s: Signal, now: string) returns (out: Result<State>)
      modifies registry
      ensures match AfterApply(registry.hash, old(registry.Now()), id, s, now)
              case ContinuityFailure => out.ContinuityFailure? && Now() == old(Now())
              case Ok(r) =>
                Now() == Kernel(r, old(signalLog)) && id in r.bindings && out == Ok(r.bindings[id].canonicalState)
    {
      out := registry.ApplySignal(id, s, now);
    }
  }
}
