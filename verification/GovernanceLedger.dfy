/** The governance ledger: a hash chain in memory, a log file with one receipt per line, and the writer that extends
    both. A hash is a free constructor over what was hashed, "genesis" among those that hash nothing. */
module GovernanceLedger {
  import opened Wrappers

  datatype Level = A0 | A1 | A2 | A3

  /** `workflow` is `payload.workflowId` where that is a string; `rest` stands for the other entries of the payload. */
  datatype Action = Action(kind: string, workflow: Option<string>, rest: string)

  /** A fresh identifier and a clock reading. */
  datatype Stamp = Stamp(id: string, timestamp: string)

  datatype Evidence = Evidence(kind: string, stamp: Stamp, authority: string, body: EvidenceBody)

  datatype EvidenceBody = OfAction(action: Action) | Generated(kind: string)

  datatype Body = Body(
    action: Action, invariantsChecked: seq<string>, continuityHash: string, evidence: seq<Evidence>, level: Level,
    blocked: Option<bool>, blockReason: Option<string>, crk1: Option<string>
  )

  datatype Hash = Genesis | Sha(preimage: Preimage) | Other(text: string)

  datatype Preimage = Preimage(stamp: Stamp, previous: Hash, body: Body)

  /** `lineage` is always the one-element list of `previousHash`, `ledgerHash` always equal to `hash`, `authority` a
      constant. */
  datatype Receipt = Receipt(stamp: Stamp, previousHash: Hash, hash: Hash, body: Body)

  // ---- the log file ----

  /** What one append leaves on its line: the whole text of a receipt, or a proper part of it. */
  datatype Chunk = Whole(receipt: Receipt) | Torn

  type Line = seq<Chunk>

  /** The lines that end in a newline, and what comes after the last of them. */
  datatype Wal = Wal(closed: seq<Line>, open: Line)

  /** Only a line holding the whole text of one receipt parses. */
  predicate Parses(line: Line) { |line| == 1 && line[0].Whole? }

  /** The receipts of the longest prefix of lines that parse. */
  function Parsed(lines: seq<Line>): seq<Receipt> {
    if lines == [] || !Parses(lines[0]) then [] else [lines[0][0].receipt] + Parsed(lines[1..])
  }

  /** The lines a reader sees: an empty one is dropped. */
  function Lines(wal: Wal): seq<Line> {
    wal.closed + if wal.open == [] then [] else [wal.open]
  }

  function Load(wal: Wal): seq<Receipt> { Parsed(Lines(wal)) }

  function Write(wal: Wal, r: Receipt): Wal { Wal(wal.closed + [wal.open + [Whole(r)]], []) }

  // ---- receipts ----

  function Kinds(level: Level): seq<string> {
    match level
    case A0 => ["intent"]
    case A1 => ["intent", "event"]
    case A2 | A3 => ["intent", "event", "state", "authority", "execution", "validation"]
  }

  function AuthorityOf(kind: string): string {
    if kind == "authority" then "constitution" else if kind == "execution" then "executor"
    else if kind == "validation" then "validator" else "planner"
  }

  function BuildEvidence(action: Action, level: Level, stamps: nat -> Stamp): seq<Evidence> {
    var kinds := Kinds(level);
    seq(|kinds|, k requires 0 <= k < |kinds| =>
      var body := if kinds[k] == "intent" then OfAction(action) else Generated(kinds[k]);
      Evidence(kinds[k], stamps(k), AuthorityOf(kinds[k]), body))
  }

  /** The arguments of one `recordReceipt` call. */
  datatype Request = Request(
    action: Action, invariantsChecked: seq<string>, level: Option<Level>, blocked: Option<bool>,
    blockReason: Option<string>, crk1: Option<string>
  )

  /** What the call draws from outside: the awaited continuity hash, its own stamp, those of the evidence. */
  datatype Draw = Draw(continuityHash: string, stamp: Stamp, evidenceStamps: nat -> Stamp)

  function LevelOf(q: Request): Level {
    if q.level.Some? then q.level.value else if q.blocked == Some(true) then A0 else A1
  }

  function BodyOf(q: Request, d: Draw): Body {
    Body(q.action, q.invariantsChecked, d.continuityHash, BuildEvidence(q.action, LevelOf(q), d.evidenceStamps),
         LevelOf(q), q.blocked, q.blockReason, q.crk1)
  }

  function Tail(ledger: seq<Receipt>): Hash {
    if ledger == [] then Genesis else ledger[|ledger| - 1].hash
  }

  function MakeReceipt(tail: Hash, q: Request, d: Draw): Receipt {
    Receipt(d.stamp, tail, Sha(Preimage(d.stamp, tail, BodyOf(q, d))), BodyOf(q, d))
  }

  // ---- the module's state ----

  datatype Store = Store(ledger: seq<Receipt>, loaded: bool, wal: Wal)

  function Loaded(s: Store): Store {
    if s.loaded then s else Store(s.ledger + Load(s.wal), true, s.wal)
  }

  /** `durable` says whether the write succeeds; a failed one is swallowed. */
  function Appended(s: Store, r: Receipt, durable: bool): Store {
    var l := Loaded(s);
    Store(l.ledger + [r], true, if durable then Write(l.wal, r) else l.wal)
  }

  function NextReceipt(s: Store, q: Request, d: Draw): Receipt {
    MakeReceipt(Tail(Loaded(s).ledger), q, d)
  }

  const CLEARED := Store([], true, Wal([], []))

  class LedgerModule {
    var ledger: seq<Receipt>
    var loaded: bool
    var wal: Wal

    ghost function Now(): Store
      reads this
    {
      Store(ledger, loaded, wal)
    }

    /** A process that starts on an existing log. */
    constructor (wal: Wal)
      ensures Now() == Store([], false, wal)
    {
      ledger, loaded, this.wal := [], false, wal;
    }

    method EnsureLoaded()
      modifies this`ledger, this`loaded
      ensures Now() == Loaded(old(Now()))
    {
      if loaded { return; }
      loaded := true;
      var lines := Lines(wal);
      var k := 0;
      while k < |lines|
        invariant k <= |lines| && loaded && wal == old(wal)
        invariant ledger + Parsed(lines[k..]) == old(ledger) + Parsed(lines)
      {
        if !Parses(lines[k]) { break; }
        ledger := ledger + [lines[k][0].receipt];
        assert lines[k..][0] == lines[k] && lines[k..][1..] == lines[k + 1..];
        k := k + 1;
      }
      assert Parsed(lines[k..]) == [];
    }

    method AppendWal(r: Receipt, durable: bool)
      modifies this`wal
      ensures wal == if durable then Write(old(wal), r) else old(wal)
    {
      if durable { wal := Wal(wal.closed + [wal.open + [Whole(r)]], []); }
    }

    method AppendToLedger(r: Receipt, durable: bool)
      modifies this
      ensures Now() == Appended(old(Now()), r, durable)
    {
      EnsureLoaded();
      ledger := ledger + [r];
      AppendWal(r, durable);
    }

    method GetLedger() returns (receipts: seq<Receipt>)
      modifies this`ledger, this`loaded
      ensures Now() == Loaded(old(Now())) && receipts == ledger
    {
      EnsureLoaded();
      return ledger;
    }

    method GetLedgerTailHash() returns (hash: Hash)
      modifies this`ledger, this`loaded
      ensures Now() == Loaded(old(Now())) && hash == Tail(ledger)
    {
      EnsureLoaded();
      if |ledger| == 0 { return Genesis; }
      return ledger[|ledger| - 1].hash;
    }

    /** The truncation is taken to succeed. */
    method ClearLedger()
      modifies this
      ensures Now() == CLEARED
    {
      ledger, loaded, wal := [], true, Wal([], []);
    }

    /** `recordReceipt` after its only await: nothing else runs between the read of the tail and the append. */
    method RecordReceipt(q: Request, d: Draw, durable: bool) returns (r: Receipt)
      modifies this
      ensures r == NextReceipt(old(Now()), q, d)
      ensures Now() == Appended(old(Now()), r, durable)
    {
      var tail := GetLedgerTailHash();
      var level := if q.level.Some? then q.level.value else if q.blocked == Some(true) then A0 else A1;
      var primitives := BuildEvidence(q.action, level, d.evidenceStamps);
      var body := Body(q.action, q.invariantsChecked, d.continuityHash, primitives, level, q.blocked, q.blockReason,
          q.crk1);
      r := Receipt(d.stamp, tail, Sha(Preimage(d.stamp, tail, body)), body);
      AppendToLedger(r, durable);
    }

    /** `validatorVerifyLineage`. */
    method VerifyLineage(workflow: string) returns (ok: bool)
      modifies this`ledger, this`loaded
      ensures Now() == Loaded(old(Now())) && ok == LineageVerified(ledger, workflow)
    {
      var all := GetLedger();
      var receipts: seq<Receipt> := [];
      for k := 0 to |all|
        invariant receipts == OfWorkflow(all[..k], workflow)
      {
        assert all[..k + 1][..k] == all[..k];
        if all[k].body.action.workflow == Some(workflow) { receipts := receipts + [all[k]]; }
      }
      assert all[..|all|] == all;
      if |receipts| == 0 { return false; }
      for i := 1 to |receipts|
        invariant forall j | 1 <= j < i :: receipts[j].previousHash == receipts[j - 1].hash
      {
        if receipts[i].previousHash != receipts[i - 1].hash { return false; }
      }
      return true;
    }
  }

  predicate Belongs(r: Receipt, workflow: string) { r.body.action.workflow == Some(workflow) }

  /** The receipts of a workflow, in the ledger's order. */
  function OfWorkflow(ledger: seq<Receipt>, workflow: string): seq<Receipt> {
    if ledger == [] then []
    else
      var r := ledger[|ledger| - 1];
      OfWorkflow(ledger[..|ledger| - 1], workflow) + if Belongs(r, workflow) then [r] else []
  }

  predicate LineageVerified(ledger: seq<Receipt>, workflow: string) {
    var receipts := OfWorkflow(ledger, workflow);
    && receipts != []
    && forall j | 1 <= j < |receipts| :: receipts[j].previousHash == receipts[j - 1].hash
  }
}
