/** The trust ledger: a chain of decisions, a list of trust revisions, and a chain of receipts that
    covers both; how records are added and how the chains are verified.  A digest is a free
    constructor over what was hashed: no two payloads share one, and none is the empty string. */
module TrustLedger {
  import opened Trust

  datatype Digest = Empty | Sha3(payload: Payload) | Other(text: string)

  datatype Payload =
    | TrustPayload(score: real, band: string, evidenceIds: seq<string>, authorityLevel: real)
    | DecisionPayload(decisionId: string, orgId: string, kind: string, inputs: string, trust: Digest, outcome: string,
                      timestamp: string, previous: Digest)
    | DecisionSeal(decisionHash: Digest, trustSignature: Digest, previous: Digest)
    | ArtifactPayload(kind: string, id: string, payloadHash: Digest, trust: Digest, previous: Digest)
    | ReceiptPayload(kind: string, id: string, artifactHash: Digest, previous: Digest, replayIndex: int,
                     provenance: seq<string>, evidence: seq<string>)
    | ReceiptSeal(receiptHash: Digest, kind: string, id: string, previous: Digest)
    | RevisionPayload(trustId: string, subjectId: string, score: real, band: string, evidenceIds: seq<string>,
                      authorityLevel: real, contextRevision: int, contextSupersedes: string, validFrom: string,
                      validTo: string, decayRate: real, timestamp: string, revision: int, supersedes: string,
                      previous: Digest)

  /** `inputs` and `outcome` are their `repr`. */
  datatype Decision = Decision(
    decisionId: string, orgId: string, kind: string, inputs: string, trust: TrustContext, outcome: string,
    timestamp: string, previousHash: Digest, decisionHash: Digest
  )

  datatype Entry = Entry(
    decision: Decision, previousHash: Digest, decisionHash: Digest, decisionSignature: Digest, trustSignature: Digest
  )

  datatype Revision = Revision(
    trustId: string, subjectId: string, context: TrustContext, timestamp: string, revision: int, supersedes: string,
    previousHash: Digest, recordHash: Digest, signature: Digest
  )

  datatype Receipt = Receipt(
    canonicalArtifactHash: Digest, payloadHash: Digest, signature: Digest, previousHash: Digest, replayIndex: int,
    provenance: seq<string>, evidenceReferences: seq<string>, artifactKind: string, artifactId: string,
    trustBand: string, trustScore: real, authorityLevel: real
  )

  datatype Ledger = Ledger(entries: seq<Entry>, revisions: seq<Revision>, receipts: seq<Receipt>)

  const REVISION := "trust.revision"
  const DECISION := "constitutional.decision"

  // ---- what is hashed ----

  function TrustHash(t: TrustContext): Digest {
    Sha3(TrustPayload(t.score, t.band, t.evidenceIds, t.authorityLevel))
  }

  function DecisionHash(d: Decision, previous: Digest): Digest {
    Sha3(DecisionPayload(d.decisionId, d.orgId, d.kind, d.inputs, TrustHash(d.trust), d.outcome, d.timestamp, previous))
  }

  function DecisionSignature(d: Decision, previous: Digest): Digest {
    Sha3(DecisionSeal(DecisionHash(d, previous), TrustHash(d.trust), previous))
  }

  function ArtifactHash(kind: string, id: string, payloadHash: Digest, t: TrustContext, previous: Digest): Digest {
    Sha3(ArtifactPayload(kind, id, payloadHash, TrustHash(t), previous))
  }

  function ReceiptSignature(kind: string, id: string, artifactHash: Digest, previous: Digest, index: int,
                            provenance: seq<string>, evidence: seq<string>): Digest {
    Sha3(ReceiptSeal(Sha3(ReceiptPayload(kind, id, artifactHash, previous, index, provenance, evidence)), kind, id,
        previous))
  }

  function RevisionHash(r: Revision, previous: Digest): Digest {
    var t := r.context;
    Sha3(RevisionPayload(r.trustId, r.subjectId, t.score, t.band, t.evidenceIds, t.authorityLevel, t.revision,
                         t.supersedes, t.validFrom, t.validTo, t.decayRate, r.timestamp, r.revision, r.supersedes,
                         previous))
  }

  // ---- recording ----

  function LastDecision(entries: seq<Entry>): Digest {
    if entries == [] then Empty else entries[|entries| - 1].decisionHash
  }

  function LastRevision(revisions: seq<Revision>): Digest {
    if revisions == [] then Empty else revisions[|revisions| - 1].recordHash
  }

  function LastReceipt(receipts: seq<Receipt>): Digest {
    if receipts == [] then Empty else receipts[|receipts| - 1].signature
  }

  /** The receipt `_append_receipt` adds after these. */
  function NextReceipt(receipts: seq<Receipt>, kind: string, id: string, payloadHash: Digest, t: TrustContext,
                       provenance: seq<string>, evidence: seq<string>): Receipt {
    var previous := LastReceipt(receipts);
    var index := |receipts| + 1;
    var artifact := ArtifactHash(kind, id, payloadHash, t, previous);
    var signature := ReceiptSignature(kind, id, artifact, previous, index, provenance, evidence);
    Receipt(artifact, payloadHash, signature, previous, index,
            provenance, evidence, kind, id, t.band, t.score, t.authorityLevel)
  }

  function OrElse(xs: seq<string>, other: string): seq<string> { if xs == [] then [other] else xs }

  /** The normalised revision: only the hashed part of the context is kept. */
  function NormalRevision(r: Revision, t: TrustContext, previous: Digest): Revision {
    var bare := t.(provenance := [], authorityChain := [], weightsHash := "", artifactHash := "");
    var n := r.(context := bare, previousHash := previous);
    n.(recordHash := RevisionHash(n, previous), signature := RevisionHash(n, previous))
  }

  function AfterRevision(l: Ledger, r: Revision): Result<Ledger> {
    var t :- Validate(r.context);
    var n := NormalRevision(r, t, LastRevision(l.revisions));
    Ok(Ledger(l.entries, l.revisions + [n],
              l.receipts + [NextReceipt(l.receipts, REVISION, n.trustId, n.recordHash, n.context,
                                        OrElse(n.context.provenance, n.subjectId), n.context.evidenceIds)]))
  }

  predicate WeaklyBacked(t: TrustContext) {
    |t.evidenceIds| < 2 || t.authorityLevel < 0.75
  }

  /** `validate_constitutional_decision`. */
  function ValidateDecision(d: Decision): Result<Decision> {
    var t :- Validate(d.trust);
    if d.kind !in {"promote", "route", "retire", "delegate", "governance-change"} then TrustFailure
    else if t.band == "low" && WeaklyBacked(t) then TrustFailure
    else if t.band == "high" && t.score < 0.67 then TrustFailure
    else Ok(d.(trust := t))
  }

  function NormalEntry(d: Decision, previous: Digest): Entry {
    var hash := DecisionHash(d, previous);
    Entry(d.(previousHash := previous, decisionHash := hash), previous, hash, DecisionSignature(d, previous),
        TrustHash(d.trust))
  }

  function AfterDecision(l: Ledger, d: Decision): Result<Ledger> {
    var v :- ValidateDecision(d);
    var e := NormalEntry(v, LastDecision(l.entries));
    Ok(Ledger(l.entries + [e], l.revisions,
              l.receipts + [NextReceipt(l.receipts, DECISION, v.decisionId, e.decisionHash, v.trust,
                                        OrElse(v.trust.provenance, v.orgId), v.trust.evidenceIds)]))
  }

  // ---- verifying ----

  /** `verify_chain` answers, or raises when a receipt's trust fields do not validate. */
  datatype Verdict = Verified | Refuted | Raised

  predicate EntryOk(e: Entry, previous: Digest) {
    && e.decisionHash == DecisionHash(e.decision, previous)
    && e.decisionSignature == DecisionSignature(e.decision, previous)
    && e.previousHash == previous
  }

  function VerifyEntries(entries: seq<Entry>, previous: Digest): bool {
    entries == [] || (EntryOk(entries[0], previous) && VerifyEntries(entries[1..], entries[0].decisionHash))
  }

  function ReceiptTrust(r: Receipt): Result<TrustContext> {
    Validate(Plain(r.trustScore, r.trustBand, r.evidenceReferences, r.authorityLevel))
  }

  predicate ReceiptOk(r: Receipt, previous: Digest, index: int)
    requires ReceiptTrust(r).Ok?
  {
    && r.replayIndex == index
    && r.canonicalArtifactHash ==
        ArtifactHash(r.artifactKind, r.artifactId, r.payloadHash, ReceiptTrust(r).value, previous)
    && r.signature == ReceiptSignature(r.artifactKind, r.artifactId, r.canonicalArtifactHash, previous, r.replayIndex,
                                       r.provenance, r.evidenceReferences)
    && r.previousHash == previous
  }

  function VerifyReceipts(receipts: seq<Receipt>, previous: Digest, index: int): Verdict {
    if receipts == [] then Verified
    else if ReceiptTrust(receipts[0]).TrustFailure? then Raised
    else if !ReceiptOk(receipts[0], previous, index) then Refuted
    else VerifyReceipts(receipts[1..], receipts[0].signature, index + 1)
  }

  function Verify(l: Ledger): Verdict {
    if !VerifyEntries(l.entries, Empty) then Refuted else VerifyReceipts(l.receipts, Empty, 1)
  }

  // ---- the object ----

  class LedgerObject {
    var entries: seq<Entry>
    var revisions: seq<Revision>
    var receipts: seq<Receipt>

    ghost function Now(): Ledger
      reads this
    {
      Ledger(entries, revisions, receipts)
    }

    constructor ()
      ensures Now() == Ledger([], [], [])
    {
      entries, revisions, receipts := [], [], [];
    }

    method AppendReceipt(kind: string, id: string, payloadHash: Digest, t: TrustContext, provenance: seq<string>,
                         evidence: seq<string>)
      modifies this`receipts
      ensures receipts == old(receipts) + [NextReceipt(old(receipts), kind, id, payloadHash, t, provenance, evidence)]
    {
      var previous := if receipts == [] then Empty else receipts[|receipts| - 1].signature;
      var index := |receipts| + 1;
      var artifact := ArtifactHash(kind, id, payloadHash, t, previous);
      var signature := ReceiptSignature(kind, id, artifact, previous, index, provenance, evidence);
      receipts := receipts + [Receipt(artifact, payloadHash, signature, previous, index, provenance, evidence, kind, id,
                                      t.band, t.score, t.authorityLevel)];
    }

    /** A context that does not validate raises before anything is recorded. */
    method RecordTrustRevision(r: Revision) returns (out: Result<Revision>)
      modifies this
      ensures match AfterRevision(old(Now()), r)
              case TrustFailure => out.TrustFailure? && Now() == old(Now())
              case Ok(l) => Now() == l && out == Ok(revisions[|revisions| - 1])
    {
      var t :- Validate(r.context);
      var previous := if revisions == [] then Empty else revisions[|revisions| - 1].recordHash;
      var n := NormalRevision(r, t, previous);
      revisions := revisions + [n];
      AppendReceipt(REVISION, n.trustId, n.recordHash, n.context, OrElse(n.context.provenance, n.subjectId),
          n.context.evidenceIds);
      return Ok(n);
    }

    method RecordDecision(d: Decision) returns (out: Result<Entry>)
      modifies this
      ensures match AfterDecision(old(Now()), d)
              case TrustFailure => out.TrustFailure? && Now() == old(Now())
              case Ok(l) => Now() == l && out == Ok(entries[|entries| - 1])
    {
      var v :- ValidateDecision(d);
      var previous := if entries == [] then Empty else entries[|entries| - 1].decisionHash;
      var e := NormalEntry(v, previous);
      entries := entries + [e];
      AppendReceipt(DECISION, v.decisionId, e.decisionHash, v.trust, OrElse(v.trust.provenance, v.orgId),
          v.trust.evidenceIds);
      return Ok(e);
    }

    method VerifyChain() returns (verdict: Verdict)
      ensures verdict == Verify(Now())
    {
      var previous := Empty;
      for k := 0 to |entries|
        invariant VerifyEntries(entries, Empty) == VerifyEntries(entries[k..], previous)
      {
        var e := entries[k];
        assert entries[k..][0] == e && entries[k..][1..] == entries[k + 1..];
        if DecisionHash(e.decision, previous) != e.decisionHash
          || DecisionSignature(e.decision, previous) != e.decisionSignature
          || e.previousHash != previous
        {
          return Refuted;
        }
        previous := e.decisionHash;
      }
      assert entries[|entries|..] == [];
      previous := Empty;
      for k := 0 to |receipts|
        invariant VerifyReceipts(receipts, Empty, 1) == VerifyReceipts(receipts[k..], previous, k + 1)
      {
        var r := receipts[k];
        assert receipts[k..][0] == r && receipts[k..][1..] == receipts[k + 1..];
        var t := ReceiptTrust(r);
        if t.TrustFailure? { return Raised; }
        if r.replayIndex != k + 1
          || ArtifactHash(r.artifactKind, r.artifactId, r.payloadHash, t.value, previous) != r.canonicalArtifactHash
          || ReceiptSignature(r.artifactKind, r.artifactId, r.canonicalArtifactHash, previous, r.replayIndex,
              r.provenance,
                              r.evidenceReferences) != r.signature
          || r.previousHash != previous
        {
          return Refuted;
        }
        previous := r.signature;
      }
      assert receipts[|receipts|..] == [];
      return Verified;
    }

    /** `trust_state_for`: the latest revision of a subject. */
    method TrustStateFor(subject: string) returns (found: bool, at: nat)
      ensures found <==> exists k | 0 <= k < |revisions| :: revisions[k].subjectId == subject
      ensures found ==> at < |revisions| && revisions[at].subjectId == subject
      ensures found ==> forall k | at < k < |revisions| :: revisions[k].subjectId != subject
    {
      at := |revisions|;
      while at > 0
        invariant at <= |revisions|
        invariant forall k | at <= k < |revisions| :: revisions[k].subjectId != subject
      {
        at := at - 1;
        if revisions[at].subjectId == subject { return true, at; }
      }
      return false, 0;
    }
  }
}
