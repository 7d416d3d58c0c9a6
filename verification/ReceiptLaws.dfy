/** What a governance receipt holds, over every run, and what the log file gives back, said with the levels, the kinds
    of evidence and the authorities written out. */
module ReceiptLaws {
  import opened Wrappers
  import opened GovernanceLedger
  import opened GovernanceLaws

  // ---- evidence ----

  /** The kinds of evidence a level asks for, in order. */
  predicate KindsFit(level: Level, evidence: seq<Evidence>) {
    && (level == A0 ==> |evidence| == 1)
    && (level == A1 ==> |evidence| == 2)
    && (level == A2 || level == A3 ==> |evidence| == 6)
    && forall k | 0 <= k < |evidence| :: KindFits(k, evidence[k].kind)
  }

  predicate KindFits(k: nat, kind: string) {
    && (k == 0 <==> kind == "intent")
    && (k == 1 <==> kind == "event")
    && (k == 2 <==> kind == "state")
    && (k == 3 <==> kind == "authority")
    && (k == 4 <==> kind == "execution")
    && (k == 5 <==> kind == "validation")
  }

  lemma KindsBuilt(level: Level, k: nat)
    requires k < |Kinds(level)|
    ensures KindFits(k, Kinds(level)[k])
  {
    assert "event"[0] != "state"[0];
  }

  /** Who vouches for a piece, and what it carries: the intent the action itself, the others a generated text. */
  predicate PieceFits(e: Evidence, action: Action) {
    && (e.kind == "authority" <==> e.authority == "constitution")
    && (e.kind == "execution" <==> e.authority == "executor")
    && (e.kind == "validation" <==> e.authority == "validator")
    && (e.kind !in {"authority", "execution", "validation"} <==> e.authority == "planner")
    && e.body == if e.kind == "intent" then OfAction(action) else Generated(e.kind)
  }

  predicate EvidenceFits(b: Body) {
    KindsFit(b.level, b.evidence) && forall k | 0 <= k < |b.evidence| :: PieceFits(b.evidence[k], b.action)
  }

  lemma EvidenceBuilt(q: Request, d: Draw)
    ensures EvidenceFits(BodyOf(q, d))
    ensures forall k | 0 <= k < |BodyOf(q, d).evidence| :: BodyOf(q, d).evidence[k].stamp == d.evidenceStamps(k)
  {
    var b, level := BodyOf(q, d), LevelOf(q);
    forall k: nat | k < |b.evidence|
      ensures KindFits(k, b.evidence[k].kind) && PieceFits(b.evidence[k], q.action)
    {
      KindsBuilt(level, k);
      PieceBuilt(Kinds(level)[k]);
    }
  }

  lemma PieceBuilt(kind: string)
    ensures (kind == "authority" <==> AuthorityOf(kind) == "constitution")
    ensures (kind == "execution" <==> AuthorityOf(kind) == "executor")
    ensures (kind == "validation" <==> AuthorityOf(kind) == "validator")
    ensures (kind !in {"authority", "execution", "validation"} <==> AuthorityOf(kind) == "planner")
  {
    assert |"constitution"| == 12 && |"executor"| == 8 && |"validator"| == 9 && |"planner"| == 7;
    assert "authority"[0] != "execution"[0] && |"validation"| == 10;
  }

  /** The tail a receipt names: the hash of the last receipt there is, whether it was read from the log or not. */
  predicate Names(s: Store, h: Hash) {
    var all := if s.loaded then s.ledger else s.ledger + Load(s.wal);
    h == if all == [] then Genesis else all[|all| - 1].hash
  }

  /** A receipt holds what the call was given and drew, the level asked for - else A0 for a blocked action and A1 for
      any other - with its evidence, the tail, and the hash over all of it. */
  lemma ReceiptIs(s: Store, q: Request, d: Draw)
    ensures var r := NextReceipt(s, q, d);
            var b := r.body;
      && r.stamp == d.stamp && Names(s, r.previousHash) && r.hash == Sha(Preimage(d.stamp, r.previousHash, b))
      && b.action == q.action && b.invariantsChecked == q.invariantsChecked && b.continuityHash == d.continuityHash
      && b.blocked == q.blocked && b.blockReason == q.blockReason && b.crk1 == q.crk1
      && (q.level.Some? ==> b.level == q.level.value)
      && (q.level.None? && q.blocked == Some(true) ==> b.level == A0)
      && (q.level.None? && q.blocked != Some(true) ==> b.level == A1)
      && EvidenceFits(b)
  {
    EvidenceBuilt(q, d);
  }

  /** Every receipt in memory and every whole one on the log has the evidence of its level. */
  predicate AllFit(s: Store) {
    && (forall k | 0 <= k < |s.ledger| :: EvidenceFits(s.ledger[k].body))
    && (forall k | 0 <= k < |s.wal.closed| :: LineFits(s.wal.closed[k]))
    && LineFits(s.wal.open)
  }

  predicate LineFits(line: Line) {
    forall k | 0 <= k < |line| && line[k].Whole? :: EvidenceFits(line[k].receipt.body)
  }

  lemma {:induction false} ParsedFit(lines: seq<Line>)
    requires forall k | 0 <= k < |lines| :: LineFits(lines[k])
    ensures forall k | 0 <= k < |Parsed(lines)| :: EvidenceFits(Parsed(lines)[k].body)
  {
    if lines != [] && Parses(lines[0]) {
      assert LineFits(lines[0]);
      assert forall k | 0 <= k < |lines[1..]| :: lines[1..][k] == lines[k + 1];
      ParsedFit(lines[1..]);
    }
  }

  lemma LoadedFit(s: Store)
    requires AllFit(s)
    ensures AllFit(Loaded(s))
  {
    ParsedFit(Lines(s.wal));
  }

  lemma FitAfter(s: System, op: Op)
    requires AllFit(s.store)
    ensures AllFit(After(s, op).store)
  {
    LoadedFit(s.store);
    match op
    case Resume(q, d, durable) => AppendedFit(s.store, q, d, durable);
    case Crash(q, d, tear) => EvidenceBuilt(q, d);
    case Begin(_) =>
    case Look =>
    case Clear =>
    case Restart =>
  }

  lemma AppendedFit(s: Store, q: Request, d: Draw, durable: bool)
    requires AllFit(s)
    ensures AllFit(Appended(s, NextReceipt(s, q, d), durable))
  {
    LoadedFit(s);
    EvidenceBuilt(q, d);
    var r := NextReceipt(s, q, d);
    var line := s.wal.open + [Whole(r)];
    assert LineFits(line);
  }

  /** Over any interleaving of calls, restarts, crashes, torn writes and clears, whatever writes fail. */
  lemma {:induction false} EvidenceAlways(ops: seq<Op>)
    ensures AllFit(Run(ops).store)
  {
    if ops != [] {
      EvidenceAlways(ops[..|ops| - 1]);
      FitAfter(Run(ops[..|ops| - 1]), ops[|ops| - 1]);
    }
  }

  // ---- what the log gives back ----

  /** The line holds the text of this receipt and nothing else. */
  predicate Holds(line: Line, r: Receipt) { line == [Whole(r)] }

  /** The line ends the reading: nothing on it, a torn text, or more than one. */
  ghost predicate Unreadable(line: Line) { forall r :: !Holds(line, r) }

  /** The lines of the log, an unfinished one behind the last newline included where there is something on it. */
  predicate LinesOf(wal: Wal, lines: seq<Line>) {
    lines == if wal.open == [] then wal.closed else wal.closed + [wal.open]
  }

  /** Reading the log gives the receipts of its first lines, one each, up to the first line that is unreadable. */
  lemma LoadIs(wal: Wal, lines: seq<Line>)
    requires LinesOf(wal, lines)
    ensures |Load(wal)| <= |lines|
    ensures forall k | 0 <= k < |Load(wal)| :: Holds(lines[k], Load(wal)[k])
    ensures |Load(wal)| < |lines| ==> Unreadable(lines[|Load(wal)|])
  {
    assert Lines(wal) == lines;
    ParsedIs(lines);
  }

  lemma {:induction false} ParsedIs(lines: seq<Line>)
    ensures |Parsed(lines)| <= |lines|
    ensures forall k | 0 <= k < |Parsed(lines)| :: Holds(lines[k], Parsed(lines)[k])
    ensures |Parsed(lines)| < |lines| ==> Unreadable(lines[|Parsed(lines)|])
  {
    if lines != [] {
      var rest := lines[1..];
      ParsedIs(rest);
      if Parses(lines[0]) {
        assert forall k | 0 < k < |lines| :: lines[k] == rest[k - 1];
        assert Holds(lines[0], lines[0][0].receipt);
      }
    }
  }

  /** A first use loads what the log gives back behind what is there; a later one changes nothing; a clear leaves
      nothing in memory or on the log. */
  lemma StoreSteps(s: System)
    ensures s.store.loaded ==> After(s, Look) == s
    ensures !s.store.loaded ==>
              After(s, Look) == s.(store := Store(s.store.ledger + Load(s.store.wal), true, s.store.wal))
    ensures var cleared := After(s, Clear);
            cleared.store.ledger == [] && cleared.store.wal.closed == [] && cleared.store.wal.open == []
            && cleared.store.loaded && cleared.pending == s.pending
  {
  }

  /** A call that waits and is resumed adds its receipt behind everything loaded, in memory always, on the log - as a
      line of its own, behind what an earlier torn write left there - where the write succeeds. */
  lemma ResumeStores(s: System, q: Request, d: Draw, durable: bool)
    requires q in s.pending
    ensures var r, before, after := NextReceipt(s.store, q, d), After(s, Look).store, After(s, Resume(q, d, durable));
      && after.store.ledger == before.ledger + [r] && after.store.loaded
      && after.pending == s.pending - multiset{q}
      && (!durable ==> after.store.wal == s.store.wal)
      && (durable ==> after.store.wal == Wal(s.store.wal.closed + [s.store.wal.open + [Whole(r)]], []))
  {
  }

  /** The lineage check in every reachable state, on the receipts' own fields: it passes exactly when the receipts that
      carry the workflow are those of one stretch of the ledger that is not empty. */
  lemma LineageMeans(ops: seq<Op>, workflow: string)
    requires NoLoss(ops)
    ensures var ledger := Loaded(Run(ops).store).ledger;
      LineageVerified(ledger, workflow) <==>
        exists i: nat, j: nat :: i < j <= |ledger| && OnlyBetween(ledger, workflow, i, j)
  {
    LineageAlways(ops, workflow);
    var ledger := Loaded(Run(ops).store).ledger;
    if i: nat, j: nat :| Block(ledger, workflow, i, j) { assert OnlyBetween(ledger, workflow, i, j); }
    if i: nat, j: nat :| i < j <= |ledger| && OnlyBetween(ledger, workflow, i, j) {
      assert Block(ledger, workflow, i, j);
    }
  }

  predicate OnlyBetween(ledger: seq<Receipt>, workflow: string, i: nat, j: nat) {
    forall k | 0 <= k < |ledger| :: ledger[k].body.action.workflow == Some(workflow) <==> i <= k < j
  }
}
