/** Completeness and tamper evidence of the trust ledger. */
module LedgerLaws {
  import opened Trust
  import opened TrustLedger

  // ---- completeness and conservation ----

  datatype Op = Revise(revision: Revision) | Decide(decision: Decision)

  /** A record that fails validation leaves the ledger as it was. */
  function Apply(l: Ledger, op: Op): Ledger {
    var r := if op.Revise? then AfterRevision(l, op.revision) else AfterDecision(l, op.decision);
    if r.Ok? then r.value else l
  }

  function Run(ops: seq<Op>): Ledger {
    if ops == [] then Ledger([], [], []) else Apply(Run(ops[..|ops| - 1]), ops[|ops| - 1])
  }

  /** The hashes the receipts of one kind vouch for, in order. */
  function Vouched(receipts: seq<Receipt>, kind: string): seq<Digest> {
    if receipts == [] then []
    else
      var r := receipts[|receipts| - 1];
      Vouched(receipts[..|receipts| - 1], kind) + if r.artifactKind == kind then [r.payloadHash] else []
  }

  function RevisionHashes(rs: seq<Revision>): seq<Digest> {
    seq(|rs|, k requires 0 <= k < |rs| => rs[k].recordHash)
  }

  function DecisionHashes(es: seq<Entry>): seq<Digest> {
    seq(|es|, k requires 0 <= k < |es| => es[k].decisionHash)
  }

  /** What a recorded revision does not keep of its context. */
  predicate Bare(t: TrustContext) {
    t.provenance == [] && t.authorityChain == [] && t.weightsHash == "" && t.artifactHash == ""
  }

  predicate RevisionsChained(rs: seq<Revision>) {
    forall k | 0 <= k < |rs| ::
      && Bare(rs[k].context)
      && rs[k].previousHash == LastRevision(rs[..k])
      && rs[k].recordHash == RevisionHash(rs[k], rs[k].previousHash)
      && rs[k].signature == rs[k].recordHash
  }

  /** `verify_chain` is true, receipts number revisions plus decisions, and projecting the receipts by
      kind gives exactly the recorded hashes in recording order. */
  predicate Complete(l: Ledger) {
    && Verify(l) == Verified
    && |l.receipts| == |l.revisions| + |l.entries|
    && Vouched(l.receipts, REVISION) == RevisionHashes(l.revisions)
    && Vouched(l.receipts, DECISION) == DecisionHashes(l.entries)
    && RevisionsChained(l.revisions)
  }

  lemma {:induction false} EntriesAppend(entries: seq<Entry>, e: Entry, previous: Digest)
    ensures VerifyEntries(entries + [e], previous) <==>
              VerifyEntries(entries, previous) && EntryOk(e, if entries == [] then previous else LastDecision(entries))
  {
    if entries == [] {
      assert [e][1..] == [] && [] + [e] == [e];
    } else {
      assert (entries + [e])[1..] == entries[1..] + [e];
      EntriesAppend(entries[1..], e, entries[0].decisionHash);
    }
  }

  /** The receipt verifies on its own, at this place in the chain. */
  predicate Fits(r: Receipt, previous: Digest, index: int) {
    VerifyReceipts([r], previous, index) == Verified
  }

  lemma FitsMeans(r: Receipt, previous: Digest, index: int)
    ensures Fits(r, previous, index) <==> ReceiptTrust(r).Ok? && ReceiptOk(r, previous, index)
  {
    assert [r][1..] == [];
    assert VerifyReceipts([], r.signature, index + 1) == Verified;
  }

  /** `all` is the list with the receipt `r` added. */
  lemma {:induction false} ReceiptsAppend(receipts: seq<Receipt>, r: Receipt, all: seq<Receipt>, previous: Digest,
                                          index: int)
    requires all == receipts + [r]
    ensures VerifyReceipts(all, previous, index) == Verified <==>
              && VerifyReceipts(receipts, previous, index) == Verified
              && Fits(r, if receipts == [] then previous else LastReceipt(receipts), index + |receipts|)
    decreases |receipts|
  {
    if receipts == [] {
      assert all == [r];
    } else {
      var rest := receipts[1..];
      assert all[0] == receipts[0] && all[1..] == rest + [r];
      assert rest != [] ==> LastReceipt(rest) == LastReceipt(receipts);
      ReceiptsAppend(rest, r, all[1..], receipts[0].signature, index + 1);
    }
  }

  /** A receipt made from a validated context verifies in its place. */
  lemma NextReceiptOk(receipts: seq<Receipt>, kind: string, id: string, payloadHash: Digest, t: TrustContext,
                      provenance: seq<string>)
    requires Validate(t) == Ok(t)
    ensures var r := NextReceipt(receipts, kind, id, payloadHash, t, provenance, t.evidenceIds);
            Fits(r, LastReceipt(receipts), 1 + |receipts|)
  {
    var r := NextReceipt(receipts, kind, id, payloadHash, t, provenance, t.evidenceIds);
    assert TrustHash(ReceiptTrust(r).value) == TrustHash(t);
    FitsMeans(r, LastReceipt(receipts), 1 + |receipts|);
  }

  /** A ledger with one more receipt of the given kind. */
  lemma ReceiptRecorded(l: Ledger, kind: string, id: string, payloadHash: Digest, t: TrustContext,
                        provenance: seq<string>)
    requires Validate(t) == Ok(t) && VerifyReceipts(l.receipts, Empty, 1) == Verified
    ensures var rs := l.receipts + [NextReceipt(l.receipts, kind, id, payloadHash, t, provenance, t.evidenceIds)];
      && VerifyReceipts(rs, Empty, 1) == Verified
      && Vouched(rs, kind) == Vouched(l.receipts, kind) + [payloadHash]
      && forall other | other != kind :: Vouched(rs, other) == Vouched(l.receipts, other)
  {
    var r := NextReceipt(l.receipts, kind, id, payloadHash, t, provenance, t.evidenceIds);
    NextReceiptOk(l.receipts, kind, id, payloadHash, t, provenance);
    ReceiptsAppend(l.receipts, r, l.receipts + [r], Empty, 1);
    forall other { VouchedAppend(l.receipts, r, other); }
  }

  lemma VouchedAppend(receipts: seq<Receipt>, r: Receipt, kind: string)
    ensures Vouched(receipts + [r], kind) ==
              Vouched(receipts, kind) + if r.artifactKind == kind then [r.payloadHash] else []
  {
    assert (receipts + [r])[..|receipts|] == receipts;
  }

  /** A revision chained to the last, with a context that validates to itself. */
  predicate NextRevision(l: Ledger, n: Revision) {
    && Bare(n.context)
    && n.previousHash == LastRevision(l.revisions)
    && n.recordHash == RevisionHash(n, n.previousHash) && n.signature == n.recordHash
    && Validate(n.context) == Ok(n.context)
  }

  /** What recording it adds. */
  function WithRevision(l: Ledger, n: Revision): Ledger {
    Ledger(l.entries, l.revisions + [n],
           l.receipts + [NextReceipt(l.receipts, REVISION, n.trustId, n.recordHash, n.context,
                                     OrElse(n.context.provenance, n.subjectId), n.context.evidenceIds)])
  }

  lemma WithRevisionComplete(l: Ledger, n: Revision)
    requires Complete(l) && NextRevision(l, n)
    ensures Complete(WithRevision(l, n))
  {
    ReceiptRecorded(l, REVISION, n.trustId, n.recordHash, n.context, OrElse(n.context.provenance, n.subjectId));
    assert RevisionHashes(l.revisions + [n]) == RevisionHashes(l.revisions) + [n.recordHash];
    RevisionsAppend(l.revisions, n);
  }

  lemma ReviseComplete(l: Ledger, r: Revision)
    requires Complete(l) && AfterRevision(l, r).Ok?
    ensures Complete(AfterRevision(l, r).value)
  {
    ValidateAgain(r.context);
    var t := Validate(r.context).value;
    NormalContext(t);
    WithRevisionComplete(l, NormalRevision(r, t, LastRevision(l.revisions)));
  }

  lemma NormalContext(t: TrustContext)
    requires Validate(t) == Ok(t)
    ensures var n := t.(provenance := [], authorityChain := [], weightsHash := "", artifactHash := "");
        Validate(n) == Ok(n)
  {
  }

  lemma RevisionsAppend(rs: seq<Revision>, n: Revision)
    requires RevisionsChained(rs) && Bare(n.context) && n.previousHash == LastRevision(rs)
    requires n.recordHash == RevisionHash(n, n.previousHash) && n.signature == n.recordHash
    ensures RevisionsChained(rs + [n])
  {
    forall k | 0 <= k < |rs + [n]|
      ensures (rs + [n])[k].previousHash == LastRevision((rs + [n])[..k])
    {
      assert (rs + [n])[..k] == rs[..k];
      assert rs[..|rs|] == rs;
    }
  }

  lemma DecisionValidated(d: Decision)
    requires ValidateDecision(d).Ok?
    ensures var t := ValidateDecision(d).value.trust; Validate(t) == Ok(t)
  {
    ValidateAgain(d.trust);
  }

  /** What recording a validated decision adds. */
  function WithDecision(l: Ledger, v: Decision): Ledger {
    var e := NormalEntry(v, LastDecision(l.entries));
    Ledger(l.entries + [e], l.revisions,
           l.receipts + [NextReceipt(l.receipts, DECISION, v.decisionId, e.decisionHash, v.trust,
                                     OrElse(v.trust.provenance, v.orgId), v.trust.evidenceIds)])
  }

  lemma EntryRecorded(entries: seq<Entry>, v: Decision)
    requires VerifyEntries(entries, Empty)
    ensures VerifyEntries(entries + [NormalEntry(v, LastDecision(entries))], Empty)
  {
    EntriesAppend(entries, NormalEntry(v, LastDecision(entries)), Empty);
  }

  lemma WithDecisionComplete(l: Ledger, v: Decision)
    requires Complete(l) && Validate(v.trust) == Ok(v.trust)
    ensures Complete(WithDecision(l, v))
  {
    var e := NormalEntry(v, LastDecision(l.entries));
    EntryRecorded(l.entries, v);
    ReceiptRecorded(l, DECISION, v.decisionId, e.decisionHash, v.trust, OrElse(v.trust.provenance, v.orgId));
    EntryHashes(l.entries, e);
    BothVerified(WithDecision(l, v));
  }

  lemma EntryHashes(entries: seq<Entry>, e: Entry)
    ensures DecisionHashes(entries + [e]) == DecisionHashes(entries) + [e.decisionHash]
  {
  }

  lemma BothVerified(l: Ledger)
    requires VerifyEntries(l.entries, Empty) && VerifyReceipts(l.receipts, Empty, 1) == Verified
    ensures Verify(l) == Verified
  {
  }

  lemma DecideComplete(l: Ledger, d: Decision)
    requires Complete(l) && AfterDecision(l, d).Ok?
    ensures Complete(AfterDecision(l, d).value)
  {
    DecisionValidated(d);
    WithDecisionComplete(l, ValidateDecision(d).value);
  }

  /** After any sequence of records, whether or not some were refused. */
  lemma {:induction false} RunComplete(ops: seq<Op>)
    ensures Complete(Run(ops))
  {
    if ops != [] {
      var l, op := Run(ops[..|ops| - 1]), ops[|ops| - 1];
      RunComplete(ops[..|ops| - 1]);
      if op.Revise? && AfterRevision(l, op.revision).Ok? { ReviseComplete(l, op.revision); }
      if op.Decide? && AfterDecision(l, op.decision).Ok? { DecideComplete(l, op.decision); }
    }
  }

  // ---- tamper evidence ----

  /** A receipt as `verify_chain` reads it: an empty band stands for the derived one. */
  function Reading(r: Receipt): Receipt { r.(trustBand := Band(r.trustScore)) }

  function Readings(rs: seq<Receipt>): seq<Receipt> {
    seq(|rs|, k requires 0 <= k < |rs| => Reading(rs[k]))
  }

  /** The fields of an entry that go into its hash and signature, and those two themselves. */
  datatype Sealed = Sealed(
    decisionId: string, orgId: string, kind: string, inputs: string, outcome: string, timestamp: string,
    score: real, band: string, evidenceIds: seq<string>, authorityLevel: real,
    previousHash: Digest, decisionHash: Digest, decisionSignature: Digest
  )

  function Seal(e: Entry): Sealed {
    var d, t := e.decision, e.decision.trust;
    Sealed(d.decisionId, d.orgId, d.kind, d.inputs, d.outcome, d.timestamp, t.score, t.band, t.evidenceIds,
           t.authorityLevel, e.previousHash, e.decisionHash, e.decisionSignature)
  }

  function Seals(es: seq<Entry>): seq<Sealed> {
    seq(|es|, k requires 0 <= k < |es| => Seal(es[k]))
  }

  lemma SameReceipt(a: Receipt, b: Receipt, p: Digest, q: Digest, i: int, j: int)
    requires Fits(a, p, i) && Fits(b, q, j) && a.signature == b.signature
    ensures p == q && i == j && Reading(a) == Reading(b)
  {
    FitsMeans(a, p, i);
    FitsMeans(b, q, j);
    assert TrustHash(ReceiptTrust(a).value) == TrustHash(ReceiptTrust(b).value);
  }

  /** Every receipt fits what comes before it. */
  predicate Chained(rs: seq<Receipt>) {
    rs == [] ||
    var m := |rs| - 1;
    Chained(rs[..m]) && Fits(rs[m], LastReceipt(rs[..m]), 1 + m)
  }

  lemma {:induction false} VerifiedIsChained(rs: seq<Receipt>)
    requires VerifyReceipts(rs, Empty, 1) == Verified
    ensures Chained(rs)
    decreases |rs|
  {
    if rs != [] {
      var front, last := rs[..|rs| - 1], rs[|rs| - 1];
      ReceiptsAppend(front, last, rs, Empty, 1);
      VerifiedIsChained(front);
    }
  }

  lemma {:induction false} ChainsPinned(a: seq<Receipt>, b: seq<Receipt>)
    requires Chained(a) && Chained(b) && LastReceipt(a) == LastReceipt(b)
    ensures Readings(a) == Readings(b)
    decreases |a|
  {
    if a != [] { Signed(a[|a| - 1], LastReceipt(a[..|a| - 1]), |a|); }
    if b != [] { Signed(b[|b| - 1], LastReceipt(b[..|b| - 1]), |b|); }
    if a != [] && b != [] {
      var x, y := a[..|a| - 1], b[..|b| - 1];
      SameReceipt(a[|x|], b[|y|], LastReceipt(x), LastReceipt(y), 1 + |x|, 1 + |y|);
      ChainsPinned(x, y);
      ReadingsSplit(a, x);
      ReadingsSplit(b, y);
    }
  }

  lemma ReceiptsPinned(a: seq<Receipt>, b: seq<Receipt>)
    requires VerifyReceipts(a, Empty, 1) == Verified && VerifyReceipts(b, Empty, 1) == Verified
    requires LastReceipt(a) == LastReceipt(b)
    ensures Readings(a) == Readings(b)
  {
    VerifiedIsChained(a);
    VerifiedIsChained(b);
    ChainsPinned(a, b);
  }

  lemma ReadingsSplit(a: seq<Receipt>, front: seq<Receipt>)
    requires a != [] && front == a[..|a| - 1]
    ensures Readings(a) == Readings(front) + [Reading(a[|a| - 1])]
  {
  }

  lemma Signed(r: Receipt, previous: Digest, index: int)
    requires Fits(r, previous, index)
    ensures r.signature != Empty
  {
    FitsMeans(r, previous, index);
  }

  lemma {:induction false} EntriesPinned(a: seq<Entry>, b: seq<Entry>)
    requires VerifyEntries(a, Empty) && VerifyEntries(b, Empty) && LastDecision(a) == LastDecision(b)
    ensures Seals(a) == Seals(b)
    decreases |a|
  {
    if a != [] { EntriesSplit(a); }
    if b != [] { EntriesSplit(b); }
    if a != [] && b != [] {
      var m, n := |a| - 1, |b| - 1;
      assert TrustHash(a[m].decision.trust) == TrustHash(b[n].decision.trust);
      EntriesPinned(a[..m], b[..n]);
      assert Seals(a) == Seals(a[..m]) + [Seal(a[m])];
      assert Seals(b) == Seals(b[..n]) + [Seal(b[n])];
    }
  }

  lemma EntriesSplit(es: seq<Entry>)
    requires VerifyEntries(es, Empty) && es != []
    ensures var m := |es| - 1;
            VerifyEntries(es[..m], Empty) && EntryOk(es[m], LastDecision(es[..m])) && LastDecision(es).Sha3?
  {
    var m := |es| - 1;
    assert es == es[..m] + [es[m]];
    EntriesAppend(es[..m], es[m], Empty);
  }

  lemma LastsFromViews(a: Ledger, b: Ledger)
    requires Readings(a.receipts) == Readings(b.receipts) && Seals(a.entries) == Seals(b.entries)
    ensures LastReceipt(a.receipts) == LastReceipt(b.receipts) && LastDecision(a.entries) == LastDecision(b.entries)
  {
    assert |Readings(a.receipts)| == |a.receipts| && |Readings(b.receipts)| == |b.receipts|;
    assert |Seals(a.entries)| == |a.entries| && |Seals(b.entries)| == |b.entries|;
    if a.receipts != [] {
      var m := |a.receipts| - 1;
      assert Readings(a.receipts)[m] == Readings(b.receipts)[m];
    }
    if a.entries != [] {
      var m := |a.entries| - 1;
      assert Seals(a.entries)[m] == Seals(b.entries)[m];
    }
  }

  /** Tamper evidence: two ledgers that pass `verify_chain` end in the same receipt signature and the
      same decision hash exactly when they have the same length and agree on every hashed field of
      every receipt and decision, up to the reading of an empty band. */
  lemma TamperEvidence(a: Ledger, b: Ledger)
    requires Verify(a) == Verified && Verify(b) == Verified
    ensures LastReceipt(a.receipts) == LastReceipt(b.receipts) && LastDecision(a.entries) == LastDecision(b.entries)
       <==> Readings(a.receipts) == Readings(b.receipts) && Seals(a.entries) == Seals(b.entries)
  {
    if LastReceipt(a.receipts) == LastReceipt(b.receipts) && LastDecision(a.entries) == LastDecision(b.entries) {
      ReceiptsPinned(a.receipts, b.receipts);
      EntriesPinned(a.entries, b.entries);
    }
    if Readings(a.receipts) == Readings(b.receipts) && Seals(a.entries) == Seals(b.entries) { LastsFromViews(a, b); }
  }

  // ---- the revisions, which verify_chain does not read ----

  lemma {:induction false} VouchedFromReadings(a: seq<Receipt>, b: seq<Receipt>, kind: string)
    requires Readings(a) == Readings(b)
    ensures Vouched(a, kind) == Vouched(b, kind)
    decreases |a|
  {
    assert |Readings(a)| == |a| && |Readings(b)| == |b|;
    if a != [] {
      var m := |a| - 1;
      assert Readings(a)[m] == Readings(b)[m];
      assert Readings(a[..m]) == Readings(a)[..m] && Readings(b[..m]) == Readings(b)[..m];
      VouchedFromReadings(a[..m], b[..m], kind);
    }
  }

  /** For ledgers built by recording, the last receipt signature alone also pins every revision, all fields of it. */
  lemma RevisionsPinned(x: seq<Op>, y: seq<Op>)
    requires LastReceipt(Run(x).receipts) == LastReceipt(Run(y).receipts)
    ensures Run(x).revisions == Run(y).revisions
  {
    var a, b := Run(x), Run(y);
    RunComplete(x);
    RunComplete(y);
    ReceiptsPinned(a.receipts, b.receipts);
    VouchedFromReadings(a.receipts, b.receipts, REVISION);
    var ha, hb := RevisionHashes(a.revisions), RevisionHashes(b.revisions);
    assert |ha| == |a.revisions| && |hb| == |b.revisions|;
    forall k | 0 <= k < |a.revisions|
      ensures a.revisions[k] == b.revisions[k]
    {
      assert ha[k] == hb[k];
      SameRevision(a.revisions[k], b.revisions[k]);
    }
  }

  lemma SameRevision(a: Revision, b: Revision)
    requires Bare(a.context) && a.recordHash == RevisionHash(a, a.previousHash) && a.signature == a.recordHash
    requires Bare(b.context) && b.recordHash == RevisionHash(b, b.previousHash) && b.signature == b.recordHash
    requires a.recordHash == b.recordHash
    ensures a == b
  {
  }
}
