/** What the registry stores, said on the records' own fields: trimming by its meaning, types, scopes and phases written
    out, one law for each step, and the history of a descriptor over whole runs. */
module RegistryReference {
  import opened Wrappers
  import opened Registry
  import opened RegistryLaws

  // ---- trimmed texts ----

  predicate AllWhite(s: string) { forall k | 0 <= k < |s| :: Space(s[k]) }

  /** `t` is the stretch from `i` to `j`, with white space only around it and none at its ends. */
  predicate Stretch(s: string, t: string, i: nat, j: nat) {
    && i <= j <= |s| && t == s[i..j]
    && (forall k | 0 <= k < |s| :: k < i || j <= k ==> Space(s[k]))
    && (t != "" ==> !Space(t[0]) && !Space(t[|t| - 1]))
  }

  predicate TrimsTo(s: string, t: string) {
    exists i, j | 0 <= i <= j <= |s| :: Stretch(s, t, i, j)
  }

  lemma {:induction false} StripTrims(s: string) returns (i: nat, j: nat)
    ensures Stretch(s, Strip(s), i, j)
    decreases |s|
  {
    if s == "" {
      i, j := 0, 0;
    } else if Space(s[0]) {
      i, j := StripTrims(s[1..]);
      WhiteBefore(s, s[1..], Strip(s), i, j);
      i, j := i + 1, j + 1;
    } else if Space(s[|s| - 1]) {
      i, j := StripTrims(s[..|s| - 1]);
      WhiteBehind(s, s[..|s| - 1], Strip(s), i, j);
    } else {
      i, j := 0, |s|;
    }
  }

  lemma WhiteBefore(s: string, rest: string, t: string, i: nat, j: nat)
    requires s != "" && Space(s[0]) && rest == s[1..] && Stretch(rest, t, i, j)
    ensures Stretch(s, t, i + 1, j + 1)
  {
    assert s[i + 1..j + 1] == rest[i..j];
    assert forall k | 0 < k < |s| :: s[k] == rest[k - 1];
  }

  lemma WhiteBehind(s: string, rest: string, t: string, i: nat, j: nat)
    requires s != "" && Space(s[|s| - 1]) && rest == s[..|s| - 1] && Stretch(rest, t, i, j)
    ensures Stretch(s, t, i, j)
  {
    assert s[i..j] == rest[i..j];
    assert forall k | 0 <= k < |s| - 1 :: s[k] == rest[k];
  }

  lemma WhiteAt(s: string, i: nat, j: nat, t: string, k: nat)
    requires Stretch(s, t, i, j) && k < |s| && !Space(s[k])
    ensures i <= k < j
  {
  }

  /** Stripping is trimming: what it gives is the one text the argument trims to. */
  lemma StripIff(s: string, t: string)
    ensures t == Strip(s) <==> TrimsTo(s, t)
  {
    var i, j := StripTrims(s);
    if a, b :| 0 <= a <= b <= |s| && Stretch(s, t, a, b) {
      var u := Strip(s);
      if t != "" { WhiteAt(s, i, j, u, a); WhiteAt(s, i, j, u, b - 1); }
      if u != "" { WhiteAt(s, a, b, t, i); WhiteAt(s, a, b, t, j - 1); }
    }
  }

  /** The trimmed texts that are not blank, in order. */
  function Trimmed(names: seq<string>): seq<string> {
    if names == [] then []
    else Trimmed(names[..|names| - 1]) + TrimmedLast(names[|names| - 1])
  }

  function TrimmedLast(name: string): seq<string> {
    if AllWhite(name) then [] else [Strip(name)]
  }

  lemma {:induction false} StripBlank(s: string)
    ensures Strip(s) == "" <==> AllWhite(s)
  {
    var i, j := StripTrims(s);
    if Strip(s) != "" { assert s[i] == Strip(s)[0]; }
  }

  lemma {:induction false} StripAllFirst(names: seq<string>, rest: seq<string>)
    requires names != [] && rest == names[1..]
    ensures StripAll(names) == TrimmedLast(names[0]) + StripAll(rest)
  {
    StripBlank(names[0]);
  }

  lemma {:induction false} StripAllLast(names: seq<string>, front: seq<string>)
    requires names != [] && front == names[..|names| - 1]
    ensures StripAll(names) == StripAll(front) + TrimmedLast(names[|names| - 1])
    decreases |names|
  {
    var rest := names[1..];
    StripAllFirst(names, rest);
    if front == [] {
      assert rest == [] && StripAll(rest) == [];
    } else {
      StripAllFirst(front, front[1..]);
      StripAllLast(rest, front[1..]);
      Regrouped(TrimmedLast(names[0]), StripAll(front[1..]), TrimmedLast(names[|names| - 1]));
    }
  }

  lemma Regrouped(a: seq<string>, b: seq<string>, c: seq<string>)
    ensures a + (b + c) == a + b + c
  {
  }

  lemma {:induction false} StripAllIs(names: seq<string>)
    ensures StripAll(names) == Trimmed(names)
  {
    if names != [] {
      StripAllIs(names[..|names| - 1]);
      StripAllLast(names, names[..|names| - 1]);
    }
  }

  // ---- the steps ----

  const TYPES: set<string> := {"ULX", "IDE", "URG", "Router", "DirectX", "Vielthorn", "SovereignOS", "custom"}

  /** `n` is the descriptor as stored: every text trimmed, a blank version read as 0.1.0, an absent time as now. */
  predicate Stored(d: Descriptor, now: string, n: Descriptor) {
    && TrimsTo(d.substrateId, n.substrateId)
    && TrimsTo(d.substrateType, n.substrateType)
    && (if AllWhite(d.version) then n.version == "0.1.0" else TrimsTo(d.version, n.version))
    && n.capabilities == Trimmed(d.capabilities)
    && TrimsTo(d.authorityDomain, n.authorityDomain)
    && n.registeredAt == if d.registeredAt == "" then now else d.registeredAt
  }

  /** The state recorded for a descriptor. */
  predicate StateOf(hash: Hash, s: State, d: Descriptor, epoch: int, parent: string, phase: string) {
    && s.substrateId == d.substrateId && s.timelineId == "timeline::" + d.substrateId
    && s.replayEpoch == epoch && s.evolutionPhase == phase && s.capturedAt == d.registeredAt
    && s.evidenceGraphHash == hash(EvidenceGraph(d.substrateId, d.capabilities, d.version))
    && s.authorityGraphHash ==
         hash(AuthorityGraph(d.substrateId, d.authorityDomain, d.substrateType, parent, phase))
  }

  /** One event more, with the next number in its identity. */
  predicate OneEvent(hash: Hash, before: seq<Event>, after: seq<Event>, payload: EventPayload, timestamp: string) {
    after == before + [Event(hash(EventIdentity(payload, |before| + 1)), payload, timestamp)]
  }

  /** No difference. */
  predicate NoDelta(delta: Delta, id: string) {
    delta == Delta(id, 0, [], [], false)
  }

  lemma NormalizeIs(d: Descriptor, now: string)
    ensures Normalize(d, now).Ok? <==> exists t | TrimsTo(d.substrateType, t) :: t in TYPES
    ensures Normalize(d, now).Ok? ==> Stored(d, now, Normalize(d, now).value)
  {
    StripIff(d.substrateType, Strip(d.substrateType));
    forall t | TrimsTo(d.substrateType, t)
      ensures t == Strip(d.substrateType)
    {
      StripIff(d.substrateType, t);
    }
    StripIff(d.substrateId, Strip(d.substrateId));
    StripIff(d.version, Strip(d.version));
    StripIff(d.authorityDomain, Strip(d.authorityDomain));
    StripBlank(d.version);
    StripAllIs(d.capabilities);
  }

  /** A registration: exactly a known type under a name not yet taken. */
  lemma RegisterIff(hash: Hash, r: Reg, d: Descriptor, parent: string, now: string)
    ensures AfterRegister(hash, r, d, parent, now).Ok? <==>
              && (exists t | TrimsTo(d.substrateType, t) :: t in TYPES)
              && forall id | TrimsTo(d.substrateId, id) :: id !in r.descriptors
  {
    NormalizeIs(d, now);
    StripIff(d.substrateId, Strip(d.substrateId));
    forall t | TrimsTo(d.substrateId, t)
      ensures t == Strip(d.substrateId)
    {
      StripIff(d.substrateId, t);
    }
  }

  /** What it stores under that name; everything filed under other names stays. */
  lemma RegisterStores(hash: Hash, r: Reg, d: Descriptor, parent: string, now: string) returns (n: Descriptor)
    requires AfterRegister(hash, r, d, parent, now).Ok?
    ensures Stored(d, now, n)
    ensures var next := AfterRegister(hash, r, d, parent, now).value;
            var id, parentId := n.substrateId, if parent in r.descriptors then parent else "";
      && id in next.bindings && id in next.lineage
      && next.descriptors == r.descriptors[id := n]
      && next.statuses ==
           r.statuses[id := Status(id, true, "registered", "baseline", |r.events| + 1, n.registeredAt)]
      && next.lineage == r.lineage[id := Lineage(id, parentId, next.lineage[id].ancestorChain, "creation",
                                                 n.registeredAt)]
      && next.lineage[id].ancestorChain ==
           (if parent in r.lineage then r.lineage[parent].ancestorChain + [parent] else [])
      && next.bindings == r.bindings[id := next.bindings[id]]
      && next.bindings[id].substrateId == id && next.bindings[id].lastHarmonicApplied == ""
      && StateOf(hash, next.bindings[id].canonicalState, n, |r.events| + 1, parentId, "baseline")
      && NoDelta(next.bindings[id].lastDelta, id)
      && OneEvent(hash, r.events, next.events, Registered(id, n.substrateType, parentId, n.version, n.registeredAt),
                  n.registeredAt)
      && next.signals == r.signals
  {
    NormalizeIs(d, now);
    n := Normalize(d, now).value;
  }

  /** `text` is what the argument asks for: trimmed where it is given and not blank, else as it was. */
  predicate Given(given: Option<string>, was: string, text: string) {
    match given
    case None => text == was
    case Some(s) => if AllWhite(s) then text == was else TrimsTo(s, text)
  }

  /** The descriptor after an update. */
  predicate Updates(c: Change, was: Descriptor, d: Descriptor) {
    && d == was.(version := d.version, capabilities := d.capabilities, authorityDomain := d.authorityDomain)
    && Given(c.version, was.version, d.version)
    && Given(c.authorityDomain, was.authorityDomain, d.authorityDomain)
    && d.capabilities == Trimmed(if c.capabilities.Some? then c.capabilities.value else was.capabilities)
  }

  lemma AmendedGiven(was: string, given: Option<string>)
    ensures Given(given, was, Amended(was, given))
  {
    if given.Some? {
      StripIff(given.value, Strip(given.value));
      StripBlank(given.value);
    }
  }

  lemma ChangedUpdates(was: Descriptor, c: Change)
    ensures Updates(c, was, Changed(was, c))
  {
    AmendedGiven(was.version, c.version);
    AmendedGiven(was.authorityDomain, c.authorityDomain);
    StripAllIs(if c.capabilities.Some? then c.capabilities.value else was.capabilities);
  }

  /** An update stores what it was given, files the substrate under itself, notes how far the state before it is off,
      and leaves the other substrates alone. */
  lemma UpdateStores(hash: Hash, r: Reg, id: string, c: Change, now: Instants)
    requires Sound(hash, r)
    ensures AfterUpdate(hash, r, id, c, now).Ok? <==> id in r.descriptors
    ensures AfterUpdate(hash, r, id, c, now).Ok? ==>
              var next := AfterUpdate(hash, r, id, c, now).value;
              && id in next.descriptors && id in next.bindings && id in r.bindings && id in r.lineage
              && var d, b := next.descriptors[id], next.bindings[id];
              && Updates(c, r.descriptors[id], d)
              && next.descriptors == r.descriptors[id := d]
              && next.statuses ==
                   r.statuses[id := Status(id, true, "evolved", "evolution", |r.events| + 1, now.updated)]
              && next.lineage ==
                   r.lineage[id := Lineage(id, id, r.lineage[id].ancestorChain + [id], "evolution", now.evolved)]
              && next.bindings == r.bindings[id := b]
              && b.substrateId == id && b.lastHarmonicApplied == ""
              && StateOf(hash, b.canonicalState, d, |r.events| + 1, id, "evolution")
              && Differs(b.canonicalState, r.bindings[id].canonicalState, b.lastDelta)
              && OneEvent(hash, r.events, next.events, Updated(id, d.version, d.capabilities, d.authorityDomain,
                                                              now.recorded), now.recorded)
              && next.signals == r.signals
  {
    if id in r.descriptors {
      assert Own(r, id);
      ChangedUpdates(r.descriptors[id], c);
      DeltaIs(CanonicalState(hash, Changed(r.descriptors[id], c), |r.events| + 1, id, "evolution"),
              r.bindings[id].canonicalState);
    }
  }

  /** The delta between a canonical and a local state: the signed difference of the epochs, and one conflict for each of
      the two hashes that differ. */
  predicate Differs(canonical: State, local: State, delta: Delta) {
    && delta.substrateId == canonical.substrateId
    && delta.temporalDrift == local.replayEpoch - canonical.replayEpoch
    && delta.evidenceConflicts ==
         (if local.evidenceGraphHash == canonical.evidenceGraphHash then []
          else [Conflict("evidence::" + canonical.substrateId, local.evidenceGraphHash, canonical.evidenceGraphHash)])
    && delta.authorityConflicts ==
         (if local.authorityGraphHash == canonical.authorityGraphHash then []
          else [Conflict("authority::" + canonical.substrateId, local.authorityGraphHash,
                         canonical.authorityGraphHash)])
    && (delta.requiresReconciliation <==>
          || local.replayEpoch != canonical.replayEpoch
          || local.evidenceGraphHash != canonical.evidenceGraphHash
          || local.authorityGraphHash != canonical.authorityGraphHash)
  }

  lemma DeltaIs(canonical: State, local: State)
    ensures Differs(canonical, local, ComputeDelta(canonical, local))
  {
  }

  /** The state after a signal: its epoch for a temporal sync, its evidence hash for an evidence sync, its authority
      hash for an authority sync, each where the payload gives one; everything else as it was. */
  predicate Follows(was: State, s: Signal, after: State) {
    && after == was.(replayEpoch := after.replayEpoch, evidenceGraphHash := after.evidenceGraphHash,
                     authorityGraphHash := after.authorityGraphHash)
    && (match s.payload.targetReplayEpoch
        case Some(Epoch(n)) => after.replayEpoch == if s.kind == "TemporalSync" then n else was.replayEpoch
        case _ => after.replayEpoch == was.replayEpoch)
    && (match s.payload.canonicalEvidenceGraphHash
        case Some(h) => after.evidenceGraphHash == if s.kind == "EvidenceSync" then h else was.evidenceGraphHash
        case None => after.evidenceGraphHash == was.evidenceGraphHash)
    && (match s.payload.canonicalAuthorityGraphHash
        case Some(h) => after.authorityGraphHash == if s.kind == "AuthoritySync" then h else was.authorityGraphHash
        case None => after.authorityGraphHash == was.authorityGraphHash)
  }

  const SIGNAL_KINDS: set<string> := {"TemporalSync", "EvidenceSync", "AuthoritySync"}
  const SCOPES: set<string> := {"Substrate", "Agent", "Realm"}

  /** A signal of a known kind applied to a known substrate moves its canonical state as it says, settles its delta, and
      is logged; it raises otherwise, and on a target epoch that is no number. */
  lemma ApplyStores(hash: Hash, r: Reg, id: string, s: Signal, now: string)
    ensures AfterApply(hash, r, id, s, now).Ok? <==>
              && s.kind in SIGNAL_KINDS && id in r.bindings
              && !(s.kind == "TemporalSync" && s.payload.targetReplayEpoch == Some(NoNumber))
    ensures AfterApply(hash, r, id, s, now).Ok? ==>
              var next := AfterApply(hash, r, id, s, now).value;
              && id in next.bindings
              && var b := next.bindings[id];
              && Follows(r.bindings[id].canonicalState, s, b.canonicalState)
              && NoDelta(b.lastDelta, b.canonicalState.substrateId)
              && b.substrateId == id && b.lastHarmonicApplied == s.signalId
              && next.bindings == r.bindings[id := b]
              && next.statuses == r.statuses[id := Status(id, true, "harmonic-applied", b.canonicalState.evolutionPhase,
                                                          b.canonicalState.replayEpoch, s.issuedAt)]
              && next.descriptors == r.descriptors && next.lineage == r.lineage
              && next.signals == r.signals + [s]
              && OneEvent(hash, r.events, next.events, Applied(id, s.signalId, s.kind, s.scope, s.issuedAt), now)
  {
  }

  lemma EmitStores(hash: Hash, r: Reg, s: Signal, now: string)
    ensures AfterEmit(hash, r, s, now).Ok? <==> s.kind in SIGNAL_KINDS && s.scope in SCOPES
    ensures AfterEmit(hash, r, s, now).Ok? ==>
              var next := AfterEmit(hash, r, s, now).value;
              && next == r.(signals := r.signals + [s], events := next.events)
              && OneEvent(hash, r.events, next.events, Emitted(s.signalId, s.kind, s.scope, s.issuedAt), now)
  {
  }

  /** The signal derived for a local state asks for the canonical hash that differs, the evidence hash before the
      authority hash, and carries what differs; where neither does it is a temporal sync without a target. */
  lemma DeriveIs(hash: Hash, canonical: State, local: State, scope: string, issuedAt: string)
    ensures var r := Derive(hash, ComputeDelta(canonical, local), scope, issuedAt);
      && (r.Ok? <==> scope in SCOPES)
      && (r.Ok? ==>
            var s, p := r.value, r.value.payload;
            && s.scope == scope && s.issuedAt == issuedAt
            && s.signalId == hash(SignalIdentity(canonical.substrateId, scope, p))
            && p.substrateId == Some(canonical.substrateId)
            && p.temporalDrift == Some(local.replayEpoch - canonical.replayEpoch)
            && p.targetReplayEpoch == None
            && (local.evidenceGraphHash != canonical.evidenceGraphHash ==>
                  && s.kind == "EvidenceSync"
                  && p.canonicalEvidenceGraphHash == Some(canonical.evidenceGraphHash)
                  && p.canonicalAuthorityGraphHash == None && p.authorityConflicts == []
                  && |p.evidenceConflicts| == 1)
            && (local.evidenceGraphHash == canonical.evidenceGraphHash
                && local.authorityGraphHash != canonical.authorityGraphHash ==>
                  && s.kind == "AuthoritySync"
                  && p.canonicalAuthorityGraphHash == Some(canonical.authorityGraphHash)
                  && p.canonicalEvidenceGraphHash == None && p.evidenceConflicts == []
                  && |p.authorityConflicts| == 1)
            && (local.evidenceGraphHash == canonical.evidenceGraphHash
                && local.authorityGraphHash == canonical.authorityGraphHash ==>
                  && s.kind == "TemporalSync"
                  && p.canonicalEvidenceGraphHash == None && p.canonicalAuthorityGraphHash == None
                  && p.evidenceConflicts == [] && p.authorityConflicts == []))
  {
  }

  /** Emitting for a local state derives the signal from the delta against the stored canonical state and logs it with
      the engine and with the registry; an unknown substrate or scope changes nothing. */
  lemma EmitForStores(hash: Hash, k: Kernel, id: string, local: State, scope: string, issuedAt: string, now: string)
    ensures AfterEmitFor(hash, k, id, local, scope, issuedAt, now).Ok? <==> id in k.reg.bindings && scope in SCOPES
    ensures AfterEmitFor(hash, k, id, local, scope, issuedAt, now).Ok? ==>
              var next := AfterEmitFor(hash, k, id, local, scope, issuedAt, now).value;
              var delta := ComputeDelta(k.reg.bindings[id].canonicalState, local);
              && |next.emitted| == |k.emitted| + 1
              && var s := next.emitted[|k.emitted|];
              && Derive(hash, delta, scope, if issuedAt == "" then now else issuedAt) == Ok(s)
              && next.emitted == k.emitted + [s]
              && next.reg == k.reg.(signals := k.reg.signals + [s], events := next.reg.events)
              && OneEvent(hash, k.reg.events, next.reg.events, Emitted(s.signalId, s.kind, s.scope, s.issuedAt), now)
  {
  }

  // ---- the history of a descriptor ----

  /** Operation `k` is an update that gives the substrate a version. */
  predicate GivesVersion(ops: seq<Op>, id: string, k: nat) {
    && k < |ops| && ops[k].Update? && ops[k].id == id
    && ops[k].change.version.Some? && !AllWhite(ops[k].change.version.value)
  }

  predicate GivesDomain(ops: seq<Op>, id: string, k: nat) {
    && k < |ops| && ops[k].Update? && ops[k].id == id
    && ops[k].change.authorityDomain.Some? && !AllWhite(ops[k].change.authorityDomain.value)
  }

  predicate GivesCapabilities(ops: seq<Op>, id: string, k: nat) {
    k < |ops| && ops[k].Update? && ops[k].id == id && ops[k].change.capabilities.Some?
  }

  /** Operation `v` is the last of those from `i` up to `n` that gives a version, `i` itself if none does; the version
      is what that operation says. */
  predicate VersionTold(ops: seq<Op>, id: string, n: nat, i: nat, version: string, v: nat) {
    && i <= v < n <= |ops| && ops[i].Register?
    && (forall k | v < k < n :: !GivesVersion(ops, id, k))
    && if v > i then GivesVersion(ops, id, v) && TrimsTo(ops[v].change.version.value, version)
       else if AllWhite(ops[i].d.version) then version == "0.1.0"
       else TrimsTo(ops[i].d.version, version)
  }

  predicate DomainTold(ops: seq<Op>, id: string, n: nat, i: nat, domain: string, v: nat) {
    && i <= v < n <= |ops| && ops[i].Register?
    && (forall k | v < k < n :: !GivesDomain(ops, id, k))
    && if v > i then GivesDomain(ops, id, v) && TrimsTo(ops[v].change.authorityDomain.value, domain)
       else TrimsTo(ops[i].d.authorityDomain, domain)
  }

  predicate CapabilitiesTold(ops: seq<Op>, id: string, n: nat, i: nat, capabilities: seq<string>, v: nat) {
    && i <= v < n <= |ops| && ops[i].Register?
    && (forall k | v < k < n :: !GivesCapabilities(ops, id, k))
    && if v > i then GivesCapabilities(ops, id, v) && capabilities == Trimmed(ops[v].change.capabilities.value)
       else capabilities == Trimmed(ops[i].d.capabilities)
  }

  /** What no update changes, as the registration said it. */
  predicate Born(ops: seq<Op>, id: string, i: nat, d: Descriptor) {
    && i < |ops| && ops[i].Register?
    && TrimsTo(ops[i].d.substrateId, id) && d.substrateId == id
    && TrimsTo(ops[i].d.substrateType, d.substrateType)
    && d.registeredAt == if ops[i].d.registeredAt == "" then ops[i].now else ops[i].d.registeredAt
  }

  lemma {:induction false} TrimmedAgain(names: seq<string>)
    ensures Trimmed(Trimmed(names)) == Trimmed(names)
  {
    StripAllIs(names);
    StripAllIs(StripAll(names));
  }

  /** The places in the list of operations that a descriptor comes from. */
  datatype Origin = Origin(registered: nat, version: nat, domain: nat, capabilities: nat)

  predicate Told(ops: seq<Op>, id: string, n: nat, d: Descriptor, o: Origin) {
    && Born(ops, id, o.registered, d)
    && VersionTold(ops, id, n, o.registered, d.version, o.version)
    && DomainTold(ops, id, n, o.registered, d.authorityDomain, o.domain)
    && CapabilitiesTold(ops, id, n, o.registered, d.capabilities, o.capabilities)
  }

  lemma VersionStill(ops: seq<Op>, id: string, n: nat, i: nat, version: string, v: nat)
    requires n < |ops| && VersionTold(ops, id, n, i, version, v) && !GivesVersion(ops, id, n)
    ensures VersionTold(ops, id, n + 1, i, version, v)
  {
  }

  lemma DomainStill(ops: seq<Op>, id: string, n: nat, i: nat, domain: string, v: nat)
    requires n < |ops| && DomainTold(ops, id, n, i, domain, v) && !GivesDomain(ops, id, n)
    ensures DomainTold(ops, id, n + 1, i, domain, v)
  {
  }

  lemma CapabilitiesStill(ops: seq<Op>, id: string, n: nat, i: nat, capabilities: seq<string>, v: nat)
    requires n < |ops| && CapabilitiesTold(ops, id, n, i, capabilities, v) && !GivesCapabilities(ops, id, n)
    ensures CapabilitiesTold(ops, id, n + 1, i, capabilities, v)
  {
  }

  /** An operation that is no update of the substrate. */
  lemma StillTold(ops: seq<Op>, id: string, n: nat, d: Descriptor, o: Origin)
    requires n < |ops| && Told(ops, id, n, d, o) && !(ops[n].Update? && ops[n].id == id)
    ensures Told(ops, id, n + 1, d, o)
  {
    VersionStill(ops, id, n, o.registered, d.version, o.version);
    DomainStill(ops, id, n, o.registered, d.authorityDomain, o.domain);
    CapabilitiesStill(ops, id, n, o.registered, d.capabilities, o.capabilities);
  }

  lemma VersionNext(ops: seq<Op>, id: string, n: nat, i: nat, was: string, version: string, v: nat)
    requires n < |ops| && VersionTold(ops, id, n, i, was, v) && ops[n].Update? && ops[n].id == id
    requires Given(ops[n].change.version, was, version)
    ensures VersionTold(ops, id, n + 1, i, version, if GivesVersion(ops, id, n) then n else v)
  {
  }

  lemma DomainNext(ops: seq<Op>, id: string, n: nat, i: nat, was: string, domain: string, v: nat)
    requires n < |ops| && DomainTold(ops, id, n, i, was, v) && ops[n].Update? && ops[n].id == id
    requires Given(ops[n].change.authorityDomain, was, domain)
    ensures DomainTold(ops, id, n + 1, i, domain, if GivesDomain(ops, id, n) then n else v)
  {
  }

  lemma CapabilitiesNext(ops: seq<Op>, id: string, n: nat, i: nat, was: seq<string>, capabilities: seq<string>, v: nat)
    requires n < |ops| && CapabilitiesTold(ops, id, n, i, was, v) && ops[n].Update? && ops[n].id == id
    requires var c := ops[n].change.capabilities; capabilities == Trimmed(if c.Some? then c.value else was)
    ensures CapabilitiesTold(ops, id, n + 1, i, capabilities, if GivesCapabilities(ops, id, n) then n else v)
  {
    if !GivesCapabilities(ops, id, n) {
      TrimmedAgain(if v > i then ops[v].change.capabilities.value else ops[i].d.capabilities);
    }
  }

  /** Where the descriptor comes from after operation `n` updated it. */
  function Renewed(ops: seq<Op>, id: string, n: nat, o: Origin): Origin {
    Origin(o.registered, if GivesVersion(ops, id, n) then n else o.version,
           if GivesDomain(ops, id, n) then n else o.domain,
           if GivesCapabilities(ops, id, n) then n else o.capabilities)
  }

  lemma UpdateTold(ops: seq<Op>, id: string, n: nat, was: Descriptor, d: Descriptor, o: Origin)
    requires n < |ops| && Told(ops, id, n, was, o) && ops[n].Update? && ops[n].id == id
    requires Updates(ops[n].change, was, d)
    ensures Told(ops, id, n + 1, d, Renewed(ops, id, n, o))
  {
    VersionNext(ops, id, n, o.registered, was.version, d.version, o.version);
    DomainNext(ops, id, n, o.registered, was.authorityDomain, d.authorityDomain, o.domain);
    CapabilitiesNext(ops, id, n, o.registered, was.capabilities, d.capabilities, o.capabilities);
  }

  /** Over every run: the descriptor of a substrate is what its registration said, with the last version, the last
      authority domain and the last capabilities that a later update of it gave. */
  lemma {:induction false} DescriptorHistory(hash: Hash, ops: seq<Op>, ks: seq<Kernel>, id: string, n: nat)
    returns (o: Origin)
    requires Run(hash, ops, ks) && n <= |ops| && id in ks[n].reg.descriptors
    ensures Told(ops, id, n, ks[n].reg.descriptors[id], o)
    ensures id !in ks[o.registered].reg.descriptors
  {
    var m := n - 1;
    assert StepAt(hash, ops, ks, m);
    SoundAlways(hash, ops, ks, m);
    var r, op, d := ks[m].reg, ops[m], ks[n].reg.descriptors[id];
    if id in r.descriptors {
      o := DescriptorHistory(hash, ops, ks, id, m);
      if op.Update? && op.id == id {
        UpdateStores(hash, r, id, op.change, op.instants);
        UpdateTold(ops, id, m, r.descriptors[id], d, o);
        o := Renewed(ops, id, m, o);
      } else {
        OthersStay(hash, ks[m], op, id);
        StillTold(ops, id, m, d, o);
      }
    } else {
      NewRegistered(hash, ks[m], op, id);
      var born := RegisterStores(hash, r, op.d, op.parent, op.now);
      o := Origin(m, m, m, m);
    }
  }

  lemma OthersStay(hash: Hash, k: Kernel, op: Op, id: string)
    requires id in k.reg.descriptors && !(op.Update? && op.id == id)
    ensures var next := After(hash, k, op).reg.descriptors; id in next && next[id] == k.reg.descriptors[id]
  {
  }

  lemma NewRegistered(hash: Hash, k: Kernel, op: Op, id: string)
    requires id !in k.reg.descriptors && id in After(hash, k, op).reg.descriptors
    ensures op.Register? && AfterRegister(hash, k.reg, op.d, op.parent, op.now).Ok?
    ensures After(hash, k, op).reg == AfterRegister(hash, k.reg, op.d, op.parent, op.now).value
    ensures Normalize(op.d, op.now).value.substrateId == id
  {
  }
}
