/** Trust once more, from its description: which contexts validate, how they decay and weigh, which decisions and
    revisions the ledger lets in, what it stores of them and what its verifier asks for, all said on the records' own
    fields, with thresholds, kinds and hashed fields written out. */
module TrustReference {
  import opened Wrappers
  import opened Trust
  import opened TrustLedger
  import opened LedgerLaws

  // ---- trust contexts ----

  /** The code points that Python's `strip` removes. */
  const WHITE: set<int> := {
    9, 10, 11, 12, 13, 28, 29, 30, 31, 32, 0x85, 0xa0, 0x1680, 0x2000, 0x2001, 0x2002, 0x2003, 0x2004, 0x2005, 0x2006,
    0x2007, 0x2008, 0x2009, 0x200a, 0x2028, 0x2029, 0x202f, 0x205f, 0x3000
  }

  lemma SpaceIff(c: char)
    ensures Space(c) <==> c as int in WHITE
  {
  }

  /** Some character of the reference is no white space. */
  predicate Refers(s: string) { exists k | 0 <= k < |s| :: s[k] as int !in WHITE }

  lemma RefersIff(s: string)
    ensures Refers(s) <==> NonBlank(s)
  {
    forall c { SpaceIff(c); }
    if c :| c in s && !Space(c) {
      var k :| 0 <= k < |s| && s[k] == c;
      assert s[k] as int !in WHITE;
    }
    if k :| 0 <= k < |s| && s[k] as int !in WHITE { assert s[k] in s && !Space(s[k]); }
  }

  /** Two different places hold a reference. */
  predicate TwoRefer(items: seq<string>) {
    exists p, q | 0 <= p < q < |items| :: Refers(items[p]) && Refers(items[q])
  }

  predicate OneRefers(items: seq<string>) {
    exists p | 0 <= p < |items| :: Refers(items[p])
  }

  lemma {:induction false} KeptCount(items: seq<string>)
    ensures |KeepNonBlank(items)| >= 1 <==> OneRefers(items)
    ensures |KeepNonBlank(items)| >= 2 <==> TwoRefer(items)
  {
    if items != [] {
      var rest := items[1..];
      RefersIff(items[0]);
      KeptCount(rest);
      assert forall k | 0 <= k < |rest| :: rest[k] == items[k + 1];
      if p :| 0 <= p < |rest| && Refers(rest[p]) {
        assert Refers(items[p + 1]);
        assert Refers(items[0]) ==> TwoRefer(items);
      }
      if p, q :| 0 <= p < q < |rest| && Refers(rest[p]) && Refers(rest[q]) {
        assert Refers(items[p + 1]) && Refers(items[q + 1]);
      }
    }
  }

  /** What is kept stands at ascending places of the list, which are all that hold a reference. */
  predicate KeptAt(items: seq<string>, kept: seq<string>, places: seq<nat>) {
    && |kept| == |places|
    && (forall j, k | 0 <= j < k < |places| :: places[j] < places[k])
    && (forall k | 0 <= k < |places| :: places[k] < |items| && kept[k] == items[places[k]] && Refers(kept[k]))
    && forall p | 0 <= p < |items| && Refers(items[p]) :: p in places
  }

  lemma {:induction false} Kept(items: seq<string>) returns (places: seq<nat>)
    ensures KeptAt(items, KeepNonBlank(items), places)
  {
    places := [];
    if items != [] {
      var n := |items| - 1;
      RefersIff(items[n]);
      KeepLast(items);
      places := Kept(items[..n]);
      KeptNext(items[..n], KeepNonBlank(items[..n]), places, items[n], items);
      if Refers(items[n]) { places := places + [n]; }
    }
  }

  lemma KeptNext(front: seq<string>, kept: seq<string>, places: seq<nat>, last: string, items: seq<string>)
    requires KeptAt(front, kept, places) && items == front + [last]
    ensures !Refers(last) ==> KeptAt(items, kept, places)
    ensures Refers(last) ==> KeptAt(items, kept + [last], places + [|front|])
  {
    var more := places + [|front|];
    assert forall p | 0 <= p < |front| :: items[p] == front[p];
    if Refers(last) {
      forall p | 0 <= p < |items| && Refers(items[p])
        ensures p in more
      {
        if p < |front| { assert Refers(front[p]); }
      }
    }
  }

  lemma {:induction false} KeepLast(items: seq<string>)
    requires items != []
    ensures var n := |items| - 1;
            KeepNonBlank(items) == KeepNonBlank(items[..n]) + if NonBlank(items[n]) then [items[n]] else []
  {
    if |items| > 1 {
      var rest := items[1..];
      KeepLast(rest);
      assert items[..|items| - 1][1..] == rest[..|rest| - 1];
    }
  }

  predicate BandFits(band: string, score: real) {
    || (band == "low" && score < 0.34)
    || (band == "medium" && 0.34 <= score < 0.67)
    || (band == "high" && 0.67 <= score)
  }

  /** What a trust context must be like to be let in. */
  predicate Sound(t: TrustContext) {
    && 0.0 <= t.score < 1.0
    && (t.band == "" || BandFits(t.band, t.score))
    && OneRefers(t.evidenceIds)
    && t.authorityLevel >= 0.0 && t.revision >= 1 && t.decayRate >= 0.0
  }

  /** Exactly such a context validates; it keeps everything but the blank references, and gets the band of its score. */
  lemma ValidateIff(t: TrustContext)
    ensures Validate(t).Ok? <==> Sound(t)
    ensures Validate(t).Ok? ==> Cleaned(t, Validate(t).value)
  {
    KeptCount(t.evidenceIds);
  }

  predicate Cleaned(t: TrustContext, n: TrustContext) {
    && BandFits(n.band, n.score)
    && n.score == t.score && n.authorityLevel == t.authorityLevel && n.revision == t.revision
    && n.supersedes == t.supersedes && n.validFrom == t.validFrom && n.validTo == t.validTo
    && n.decayRate == t.decayRate && n.weightsHash == t.weightsHash && n.artifactHash == t.artifactHash
    && n.evidenceIds == KeepNonBlank(t.evidenceIds)
    && n.provenance == KeepNonBlank(t.provenance)
    && n.authorityChain == KeepNonBlank(t.authorityChain)
  }

  // ---- decay and routing ----

  /** The larger of the floor and what is left of the score. */
  function Decayed(score: real, rate: real, floor: real): real {
    if score * (1.0 - rate) < floor then floor else score * (1.0 - rate)
  }

  /** A decay succeeds exactly on a sound context, with a rate that is not negative and a new score from 0 up to but not
      including 1; it keeps evidence, authority, validity and the superseded name, and drops the rest. */
  lemma DecayIff(t: TrustContext, rate: real, floor: real)
    ensures Decay(t, rate, floor).Ok? <==> Sound(t) && rate >= 0.0 && 0.0 <= Decayed(t.score, rate, floor) < 1.0
    ensures Decay(t, rate, floor).Ok? ==>
              var d := Decay(t, rate, floor).value;
              && d.score == Decayed(t.score, rate, floor) && BandFits(d.band, d.score)
              && d.revision == t.revision + 1 && d.decayRate == rate
              && d.evidenceIds == KeepNonBlank(t.evidenceIds) && d.authorityLevel == t.authorityLevel
              && d.supersedes == t.supersedes && d.validFrom == t.validFrom && d.validTo == t.validTo
              && Bare(d)
  {
    ValidateIff(t);
    NextIs(t.score, rate, floor);
    if Sound(t) && rate >= 0.0 {
      var n := Validate(t).value;
      RescoredIff(t, n, Decayed(t.score, rate, floor), rate);
    }
  }

  lemma NextIs(score: real, rate: real, floor: real)
    ensures NextScore(score, rate, floor) == Decayed(score, rate, floor)
  {
  }

  lemma RescoredIff(t: TrustContext, n: TrustContext, score: real, rate: real)
    requires Sound(t) && Validate(t) == Ok(n) && rate >= 0.0
    ensures Rescored(n, score, rate).Ok? <==> 0.0 <= score < 1.0
    ensures Rescored(n, score, rate).Ok? ==>
              var d := Rescored(n, score, rate).value;
              && d.score == score && BandFits(d.band, score)
              && d.revision == t.revision + 1 && d.decayRate == rate
              && d.evidenceIds == KeepNonBlank(t.evidenceIds) && d.authorityLevel == t.authorityLevel
              && d.supersedes == t.supersedes && d.validFrom == t.validFrom && d.validTo == t.validTo
              && Bare(d)
  {
    var next := TrustContext(score, "", n.evidenceIds, n.authorityLevel, n.revision + 1, n.supersedes, n.validFrom,
                             n.validTo, rate, [], [], "", "");
    ValidateIff(t);
    ValidateIff(next);
    KeepAgain(t.evidenceIds);
    KeptCount(n.evidenceIds);
    KeptCount(t.evidenceIds);
  }

  /** The weight of the last tier called "trust", 0.3 where there is none. */
  lemma {:induction false} WeightIs(ws: seq<TierWeight>)
    ensures forall k | 0 <= k < |ws| && ws[k].tier == "trust" && (forall j | k < j < |ws| :: ws[j].tier != "trust") ::
              TrustWeight(ws) == ws[k].weight
    ensures (forall k | 0 <= k < |ws| :: ws[k].tier != "trust") ==> TrustWeight(ws) == 0.3
  {
    if ws != [] { WeightIs(ws[..|ws| - 1]); }
  }

  /** What a context contributes to routing, by its score alone. */
  lemma ContributionIs(t: TrustContext, ws: seq<TierWeight>)
    requires BandFits(t.band, t.score)
    ensures var c, w := Contribution(t, ws), TrustWeight(ws);
      && (t.score < 0.34 ==> c == w * (t.score - 1.0))
      && (0.34 <= t.score < 0.67 ==> c == w * t.score)
      && (0.67 <= t.score ==> c == w * ((1.0 + t.score) / 2.0))
  {
    if t.score < 0.34 { Opposite(TrustWeight(ws), 1.0 - t.score); }
    assert 0.5 + t.score / 2.0 == (1.0 + t.score) / 2.0;
    assert -(1.0 - t.score) == t.score - 1.0;
  }

  // ---- which decisions are recorded ----

  const KINDS: set<string> := {"promote", "route", "retire", "delegate", "governance-change"}

  /** What a decision must be like to be recorded: one of the five kinds, with a sound context, and with two references
      and an authority of at least 0.75 where the score is low. */
  predicate Admissible(d: Decision) {
    && d.kind in KINDS
    && Sound(d.trust)
    && (d.trust.score < 0.34 ==> TwoRefer(d.trust.evidenceIds) && d.trust.authorityLevel >= 0.75)
  }

  /** A decision is recorded exactly when it is like that; otherwise the ledger stays as it was. */
  lemma RecordedIff(l: Ledger, d: Decision)
    ensures AfterDecision(l, d).Ok? <==> Admissible(d)
    ensures !Admissible(d) ==> Apply(l, Decide(d)) == l
  {
    ValidateIff(d.trust);
    KeptCount(d.trust.evidenceIds);
  }

  lemma RevisedIff(l: Ledger, r: Revision)
    ensures AfterRevision(l, r).Ok? <==> Sound(r.context)
    ensures !Sound(r.context) ==> Apply(l, Revise(r)) == l
  {
    ValidateIff(r.context);
  }

  /** What every recorded decision is like. */
  predicate Gated(d: Decision) {
    && d.kind in KINDS
    && 0.0 <= d.trust.score < 1.0
    && BandFits(d.trust.band, d.trust.score)
    && d.trust.evidenceIds != []
    && (forall k | 0 <= k < |d.trust.evidenceIds| :: Refers(d.trust.evidenceIds[k]))
    && (d.trust.score < 0.34 ==> |d.trust.evidenceIds| >= 2 && d.trust.authorityLevel >= 0.75)
  }

  lemma RecordedGated(l: Ledger, d: Decision)
    requires AfterDecision(l, d).Ok?
    ensures var after := AfterDecision(l, d).value;
            after.entries == l.entries + [after.entries[|l.entries|]] && Gated(after.entries[|l.entries|].decision)
  {
    RecordedIff(l, d);
    ValidateIff(d.trust);
    KeptCount(d.trust.evidenceIds);
    forall s { RefersIff(s); }
  }

  /** The gate holds over every run: whatever was offered in whatever order, each recorded decision is of one of the
      five kinds, has a score from 0 up to but not including 1 and, below 0.34, at least two references and an authority
      of at least 0.75. */
  lemma {:induction false} GateAlways(ops: seq<Op>)
    ensures forall k | 0 <= k < |Run(ops).entries| :: Gated(Run(ops).entries[k].decision)
  {
    if ops != [] {
      var before, op := Run(ops[..|ops| - 1]), ops[|ops| - 1];
      GateAlways(ops[..|ops| - 1]);
      if op.Decide? && AfterDecision(before, op.decision).Ok? { RecordedGated(before, op.decision); }
    }
  }

  // ---- what is stored, hashed and signed ----

  /** The four fields of a context that are hashed. */
  predicate TrustHashed(h: Digest, t: TrustContext) {
    h == Sha3(TrustPayload(t.score, t.band, t.evidenceIds, t.authorityLevel))
  }

  /** The entry carries the hash and the signature of its decision behind `previous`. */
  predicate EntrySealed(e: Entry, previous: Digest) {
    var d, t := e.decision, e.decision.trust;
    var trust := Sha3(TrustPayload(t.score, t.band, t.evidenceIds, t.authorityLevel));
    && e.previousHash == previous
    && e.decisionHash ==
         Sha3(DecisionPayload(d.decisionId, d.orgId, d.kind, d.inputs, trust, d.outcome, d.timestamp, previous))
    && e.decisionSignature == Sha3(DecisionSeal(e.decisionHash, trust, previous))
  }

  /** The receipt carries the hash and the signature of what it vouches for, behind `previous`; `t` is its trust. */
  predicate ReceiptSealed(r: Receipt, t: TrustContext, previous: Digest) {
    var trust := Sha3(TrustPayload(t.score, t.band, t.evidenceIds, t.authorityLevel));
    && r.previousHash == previous
    && r.canonicalArtifactHash ==
         Sha3(ArtifactPayload(r.artifactKind, r.artifactId, r.payloadHash, trust, previous))
    && r.signature ==
         Sha3(ReceiptSeal(Sha3(ReceiptPayload(r.artifactKind, r.artifactId, r.canonicalArtifactHash, previous,
                                              r.replayIndex, r.provenance, r.evidenceReferences)),
                          r.artifactKind, r.artifactId, previous))
  }

  /** The receipt a record gets: its own kind, name and hash, the next place, and the trust of the record. */
  predicate ReceiptFor(before: seq<Receipt>, r: Receipt, kind: string, id: string, hash: Digest, t: TrustContext,
                       owner: string) {
    && r.artifactKind == kind && r.artifactId == id && r.payloadHash == hash
    && r.replayIndex == |before| + 1
    && r.provenance == (if t.provenance == [] then [owner] else t.provenance)
    && r.evidenceReferences == t.evidenceIds
    && r.trustBand == t.band && r.trustScore == t.score && r.authorityLevel == t.authorityLevel
    && ReceiptSealed(r, t, if before == [] then Empty else before[|before| - 1].signature)
  }

  /** Recording adds one entry with the decision as given, its context cleaned, sealed behind the last decision, and one
      receipt for it; nothing else. */
  lemma DecisionStored(l: Ledger, d: Decision)
    requires Admissible(d)
    ensures var after := Apply(l, Decide(d));
      && |after.entries| == |l.entries| + 1 && after.entries[..|l.entries|] == l.entries
      && |after.receipts| == |l.receipts| + 1 && after.receipts[..|l.receipts|] == l.receipts
      && after.revisions == l.revisions
      && var e, r := after.entries[|l.entries|], after.receipts[|l.receipts|];
      && Cleaned(d.trust, e.decision.trust)
      && e.decision == d.(trust := e.decision.trust, previousHash := e.previousHash, decisionHash := e.decisionHash)
      && EntrySealed(e, if l.entries == [] then Empty else l.entries[|l.entries| - 1].decisionHash)
      && TrustHashed(e.trustSignature, e.decision.trust)
      && ReceiptFor(l.receipts, r, "constitutional.decision", d.decisionId, e.decisionHash, e.decision.trust, d.orgId)
  {
    RecordedIff(l, d);
    ValidateIff(d.trust);
  }

  /** The hash of a revision behind `previous`: all its fields but those of the context that are dropped. */
  predicate RevisionSealed(n: Revision, previous: Digest) {
    var t := n.context;
    && n.previousHash == previous && n.signature == n.recordHash
    && n.recordHash ==
         Sha3(RevisionPayload(n.trustId, n.subjectId, t.score, t.band, t.evidenceIds, t.authorityLevel, t.revision,
                              t.supersedes, t.validFrom, t.validTo, t.decayRate, n.timestamp, n.revision, n.supersedes,
                              previous))
  }

  /** A revision likewise; its context loses provenance, authority chain and hashes. */
  lemma RevisionStored(l: Ledger, r: Revision)
    requires Sound(r.context)
    ensures var after := Apply(l, Revise(r));
      && |after.revisions| == |l.revisions| + 1 && after.revisions[..|l.revisions|] == l.revisions
      && |after.receipts| == |l.receipts| + 1 && after.receipts[..|l.receipts|] == l.receipts
      && after.entries == l.entries
      && var n, receipt := after.revisions[|l.revisions|], after.receipts[|l.receipts|];
      && n == r.(context := n.context, previousHash := n.previousHash, recordHash := n.recordHash,
                 signature := n.signature)
      && n.context.provenance == [] && n.context.authorityChain == []
      && n.context.weightsHash == "" && n.context.artifactHash == ""
      && (exists t | Cleaned(r.context, t) ::
            n.context == t.(provenance := [], authorityChain := [], weightsHash := "", artifactHash := ""))
      && RevisionSealed(n, if l.revisions == [] then Empty else l.revisions[|l.revisions| - 1].recordHash)
      && ReceiptFor(l.receipts, receipt, "trust.revision", r.trustId, n.recordHash, n.context, r.subjectId)
  {
    RevisedIff(l, r);
    ValidateIff(r.context);
    assert Cleaned(r.context, Validate(r.context).value);
  }

  // ---- what the verifier asks for ----

  /** The trust fields of a receipt as a context of their own. */
  predicate Reads(r: Receipt, t: TrustContext) {
    && t.score == r.trustScore && BandFits(t.band, r.trustScore)
    && t.evidenceIds == KeepNonBlank(r.evidenceReferences) && t.authorityLevel == r.authorityLevel
  }

  ghost predicate ReceiptFits(r: Receipt, previous: Digest, index: int) {
    && 0.0 <= r.trustScore < 1.0 && (r.trustBand == "" || BandFits(r.trustBand, r.trustScore))
    && OneRefers(r.evidenceReferences) && r.authorityLevel >= 0.0
    && r.replayIndex == index
    && forall t | Reads(r, t) :: ReceiptSealed(r, t, previous)
  }

  lemma FitsIff(r: Receipt, previous: Digest, index: int)
    ensures Fits(r, previous, index) <==> ReceiptFits(r, previous, index)
  {
    FitsMeans(r, previous, index);
    ValidateIff(Plain(r.trustScore, r.trustBand, r.evidenceReferences, r.authorityLevel));
    if ReceiptTrust(r).Ok? {
      var t := ReceiptTrust(r).value;
      assert Reads(r, t);
      forall u | Reads(r, u)
        ensures TrustHash(u) == TrustHash(t)
      {
      }
    }
  }

  predicate EntryAt(es: seq<Entry>, k: nat)
    requires k < |es|
  {
    EntrySealed(es[k], if k == 0 then Empty else es[k - 1].decisionHash)
  }

  predicate EntriesFit(es: seq<Entry>) {
    forall k | 0 <= k < |es| :: EntryAt(es, k)
  }

  ghost predicate ReceiptAt(rs: seq<Receipt>, k: nat)
    requires k < |rs|
  {
    ReceiptFits(rs[k], if k == 0 then Empty else rs[k - 1].signature, k + 1)
  }

  ghost predicate ReceiptsFit(rs: seq<Receipt>) {
    forall k | 0 <= k < |rs| :: ReceiptAt(rs, k)
  }

  lemma {:induction false} EntriesIff(es: seq<Entry>)
    ensures VerifyEntries(es, Empty) <==> EntriesFit(es)
  {
    if es != [] {
      var n := |es| - 1;
      var front := es[..n];
      assert es == front + [es[n]];
      EntriesIff(front);
      EntriesAppend(front, es[n], Empty);
      forall k | 0 <= k < n
        ensures EntryAt(es, k) <==> EntryAt(front, k)
      {
      }
      assert EntryAt(es, n) <==> EntryOk(es[n], if front == [] then Empty else LastDecision(front));
    }
  }

  lemma ReceiptsFitSplit(rs: seq<Receipt>, front: seq<Receipt>, n: nat)
    requires |rs| == n + 1 && front == rs[..n]
    ensures ReceiptsFit(rs) <==> ReceiptsFit(front) && ReceiptAt(rs, n)
  {
    forall k | 0 <= k < n
      ensures ReceiptAt(rs, k) <==> ReceiptAt(front, k)
    {
      assert rs[k] == front[k];
    }
  }

  lemma {:induction false} ReceiptsIff(rs: seq<Receipt>)
    ensures VerifyReceipts(rs, Empty, 1) == Verified <==> ReceiptsFit(rs)
  {
    if rs != [] {
      var n := |rs| - 1;
      var front := rs[..n];
      var previous := if n == 0 then Empty else rs[n - 1].signature;
      ReceiptsIff(front);
      ReceiptsAppend(front, rs[n], rs, Empty, 1);
      FitsIff(rs[n], previous, n + 1);
      ReceiptsFitSplit(rs, front, n);
    }
  }

  /** `verify_chain` is true exactly when every decision is sealed behind the one before it and every receipt is sealed
      in its own place behind the one before it, over trust fields that are sound. */
  lemma VerifiedIff(l: Ledger)
    ensures Verify(l) == Verified <==> EntriesFit(l.entries) && ReceiptsFit(l.receipts)
  {
    EntriesIff(l.entries);
    ReceiptsIff(l.receipts);
  }
}
