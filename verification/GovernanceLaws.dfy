/** The linkage of the governance ledger over every interleaving, restart and crash, and what lineage checks say of
    it. */
module GovernanceLaws {
  import opened GovernanceLedger

  // ---- chains ----

  predicate LinkAt(ledger: seq<Receipt>, k: nat)
    requires k < |ledger|
  {
    var r := ledger[k];
    && r.previousHash == (if k == 0 then Genesis else ledger[k - 1].hash)
    && r.hash == Sha(Preimage(r.stamp, r.previousHash, r.body))
  }

  predicate Chain(ledger: seq<Receipt>) {
    forall k: nat | k < |ledger| :: LinkAt(ledger, k)
  }

  lemma ChainPrefix(ledger: seq<Receipt>, n: nat)
    requires Chain(ledger) && n <= |ledger|
    ensures Chain(ledger[..n])
  {
    forall k: nat | k < n
      ensures LinkAt(ledger[..n], k)
    {
      assert LinkAt(ledger, k);
    }
  }

  /** A receipt extends a chain exactly when it names the chain's tail and carries its own hash; a stale tail never
      does. */
  lemma ChainExtends(ledger: seq<Receipt>, r: Receipt)
    ensures Chain(ledger + [r]) <==>
              Chain(ledger) && r.previousHash == Tail(ledger)
                  && r.hash == Sha(Preimage(r.stamp, r.previousHash, r.body))
  {
    var longer := ledger + [r];
    if Chain(longer) {
      ChainPrefix(longer, |ledger|);
      assert longer[..|ledger|] == ledger && LinkAt(longer, |ledger|);
    }
    if Chain(ledger) && r.previousHash == Tail(ledger) && r.hash == Sha(Preimage(r.stamp, r.previousHash, r.body)) {
      forall k: nat | k < |longer|
        ensures LinkAt(longer, k)
      {
        if k < |ledger| { assert LinkAt(ledger, k); }
      }
    }
  }

  function Depth(h: Hash): nat {
    if h.Sha? then 1 + Depth(h.preimage.previous) else 0
  }

  lemma {:induction false} DepthAt(ledger: seq<Receipt>, k: nat)
    requires Chain(ledger) && k < |ledger|
    ensures Depth(ledger[k].hash) == k + 1
  {
    assert LinkAt(ledger, k);
    if k > 0 { DepthAt(ledger, k - 1); }
  }

  /** The receipts of a chain have pairwise distinct hashes, and none is "genesis". */
  lemma HashesDistinct(ledger: seq<Receipt>, i: nat, j: nat)
    requires Chain(ledger) && i < |ledger| && j < |ledger|
    ensures ledger[i].hash == ledger[j].hash <==> i == j
    ensures ledger[i].hash != Genesis
  {
    DepthAt(ledger, i);
    DepthAt(ledger, j);
  }

  // ---- the log file ----

  /** Every line is whole, so that the next append can be read back. */
  predicate Clean(wal: Wal) {
    wal.open == [] && forall k | 0 <= k < |wal.closed| :: Parses(wal.closed[k])
  }

  lemma {:induction false} ParsedAppend(lines: seq<Line>, line: Line)
    ensures Parsed(lines + [line]) ==
              if (forall k | 0 <= k < |lines| :: Parses(lines[k])) && Parses(line)
              then Parsed(lines) + [line[0].receipt]
              else Parsed(lines)
  {
    if lines == [] {
      assert [line][1..] == [] && [] + [line] == [line];
      assert Parsed([]) == [];
    } else {
      assert (lines + [line])[0] == lines[0] && (lines + [line])[1..] == lines[1..] + [line];
      ParsedAppend(lines[1..], line);
      assert forall k | 0 <= k < |lines[1..]| :: lines[1..][k] == lines[k + 1];
      if forall k | 0 <= k < |lines[1..]| :: Parses(lines[1..][k]) {
        assert Parses(lines[0]) ==> forall k | 0 <= k < |lines| :: Parses(lines[k]) by {
          forall k | 0 <= k < |lines| && Parses(lines[0])
            ensures Parses(lines[k])
          {
            if k > 0 { assert lines[1..][k - 1] == lines[k]; }
          }
        }
      } else {
        var k :| 0 <= k < |lines[1..]| && !Parses(lines[1..][k]);
        assert !Parses(lines[k + 1]);
      }
    }
  }

  predicate Prefix(a: seq<Receipt>, b: seq<Receipt>) { |a| <= |b| && a == b[..|a|] }

  /** What a reader finds after a complete append: one receipt more on a clean log, else never more than before. */
  lemma LoadWritten(wal: Wal, r: Receipt)
    ensures Clean(wal) ==> Clean(Write(wal, r)) && Load(Write(wal, r)) == Load(wal) + [r]
    ensures !Clean(wal) ==> !Clean(Write(wal, r)) && Prefix(Load(Write(wal, r)), Load(wal))
  {
    var line := wal.open + [Whole(r)];
    var next := Write(wal, r);
    assert Lines(next) == wal.closed + [line];
    ParsedAppend(wal.closed, line);
    assert next.closed[|wal.closed|] == line;
    if wal.open == [] {
      assert Lines(wal) == wal.closed && line == [Whole(r)];
      assert forall k | 0 <= k < |wal.closed| :: next.closed[k] == wal.closed[k];
    } else {
      assert !Parses(line);
      ParsedAppend(wal.closed, wal.open);
    }
  }

  /** What a crash in the middle of an append leaves: nothing, a part of the text, or all of it but the newline. */
  datatype Tear = Nothing | Part | NoNewline

  function TornWrite(wal: Wal, r: Receipt, tear: Tear): Wal {
    match tear
    case Nothing => wal
    case Part => wal.(open := wal.open + [Torn])
    case NoNewline => wal.(open := wal.open + [Whole(r)])
  }

  lemma LoadTorn(wal: Wal, r: Receipt, tear: Tear)
    ensures Clean(wal) ==> Load(TornWrite(wal, r, tear)) == Load(wal) + if tear.NoNewline? then [r] else []
    ensures !Clean(wal) ==> Prefix(Load(TornWrite(wal, r, tear)), Load(wal))
  {
    if !tear.Nothing? {
      var next := TornWrite(wal, r, tear);
      ParsedAppend(wal.closed, next.open);
      if wal.open == [] {
        assert Lines(wal) == wal.closed;
      } else {
        assert !Parses(next.open);
        ParsedAppend(wal.closed, wal.open);
      }
    }
  }

  // ---- the system ----

  /** One process at a time, with the calls of `recordReceipt` that wait for the continuity hash. */
  datatype System = System(store: Store, pending: multiset<Request>)

  /** `Resume` runs a waiting call to its end; `Crash` stops the process while it writes that call's receipt; `Restart`
      stops it between writes.  A new process starts at once and loads when it first needs the ledger. */
  datatype Op =
    | Begin(q: Request)
    | Resume(q: Request, d: Draw, durable: bool)
    | Look
    | Clear
    | Restart
    | Crash(q: Request, d: Draw, tear: Tear)

  function Stopped(wal: Wal): System { System(Store([], false, wal), multiset{}) }

  function After(s: System, op: Op): System {
    match op
    case Begin(q) => s.(pending := s.pending + multiset{q})
    case Resume(q, d, durable) =>
      if q !in s.pending then s
      else System(Appended(s.store, NextReceipt(s.store, q, d), durable), s.pending - multiset{q})
    case Look => s.(store := Loaded(s.store))
    case Clear => s.(store := CLEARED)
    case Restart => Stopped(s.store.wal)
    case Crash(q, d, tear) =>
      if q !in s.pending then s else Stopped(TornWrite(s.store.wal, NextReceipt(s.store, q, d), tear))
  }

  const INITIAL := System(Store([], false, Wal([], [])), multiset{})

  function Run(ops: seq<Op>): System {
    if ops == [] then INITIAL else After(Run(ops[..|ops| - 1]), ops[|ops| - 1])
  }

  /** Complete appends succeed. */
  predicate NoLoss(ops: seq<Op>) {
    forall k | 0 <= k < |ops| && ops[k].Resume? :: ops[k].durable
  }

  /** Memory is a chain, the log a prefix of it, and all of it while the log is clean. */
  predicate Linked(s: Store) {
    && Chain(s.ledger)
    && Chain(Load(s.wal))
    && (!s.loaded ==> s.ledger == [])
    && (s.loaded ==> Prefix(Load(s.wal), s.ledger))
    && (s.loaded && Clean(s.wal) ==> Load(s.wal) == s.ledger)
  }

  lemma LinkedLoaded(s: Store)
    requires Linked(s)
    ensures Linked(Loaded(s))
  {
    assert [] + Load(s.wal) == Load(s.wal);
  }

  lemma NextExtends(s: Store, q: Request, d: Draw)
    requires Linked(s)
    ensures Chain(Loaded(s).ledger + [NextReceipt(s, q, d)])
  {
    LinkedLoaded(s);
    ChainExtends(Loaded(s).ledger, NextReceipt(s, q, d));
  }

  lemma PrefixChain(a: seq<Receipt>, b: seq<Receipt>)
    requires Prefix(a, b) && Chain(b)
    ensures Chain(a)
  {
    ChainPrefix(b, |a|);
  }

  lemma LinkedAppended(s: Store, q: Request, d: Draw)
    requires Linked(s)
    ensures Linked(Appended(s, NextReceipt(s, q, d), true))
  {
    var r := NextReceipt(s, q, d);
    LinkedLoaded(s);
    NextExtends(s, q, d);
    LoadWritten(s.wal, r);
    PrefixChain(Load(Write(s.wal, r)), Loaded(s).ledger + [r]);
  }

  lemma LinkedTorn(s: Store, q: Request, d: Draw, tear: Tear)
    requires Linked(s)
    ensures Chain(Load(TornWrite(s.wal, NextReceipt(s, q, d), tear)))
  {
    var r := NextReceipt(s, q, d);
    var l := Loaded(s).ledger;
    LinkedLoaded(s);
    NextExtends(s, q, d);
    LoadTorn(s.wal, r, tear);
    PrefixChain(Load(TornWrite(s.wal, r, tear)), l + [r]);
  }

  lemma LinkedAfter(s: System, op: Op)
    requires Linked(s.store) && (op.Resume? ==> op.durable)
    ensures Linked(After(s, op).store)
  {
    match op
    case Begin(_) =>
    case Look => LinkedLoaded(s.store);
    case Clear => assert Lines(CLEARED.wal) == [];
    case Restart =>
    case Resume(q, d, _) => LinkedAppended(s.store, q, d);
    case Crash(q, d, tear) => LinkedTorn(s.store, q, d, tear);
  }

  /** Over any interleaving of `recordReceipt` calls, restarts, crashes and clears, the ledger in memory is a chain from
      "genesis", and what a restart would read is a prefix of it. */
  lemma {:induction false} LinkageAlways(ops: seq<Op>)
    requires NoLoss(ops)
    ensures Linked(Run(ops).store)
  {
    if ops == [] {
      assert Lines(INITIAL.store.wal) == [];
    } else {
      LinkageAlways(ops[..|ops| - 1]);
      LinkedAfter(Run(ops[..|ops| - 1]), ops[|ops| - 1]);
    }
  }

  lemma RestartRecovers(s: Store)
    requires Linked(s) && s.loaded && Clean(s.wal)
    ensures Loaded(Store([], false, s.wal)) == s
  {
    assert [] + Load(s.wal) == s.ledger;
  }

  lemma CrashRecovers(s: Store, r: Receipt, tear: Tear)
    requires Linked(s) && s.loaded && Clean(s.wal)
    ensures Loaded(Store([], false, TornWrite(s.wal, r, tear))).ledger == s.ledger + if tear.NoNewline? then [r] else []
  {
    LoadTorn(s.wal, r, tear);
    var read := Load(TornWrite(s.wal, r, tear));
    assert [] + read == read;
  }

  /** On a clean log a crash loses at most the receipt being written, and a restart loses nothing. */
  lemma Recovery(ops: seq<Op>, q: Request, d: Draw, tear: Tear)
    requires NoLoss(ops) && Run(ops).store.loaded && Clean(Run(ops).store.wal) && q in Run(ops).pending
    ensures var s := Run(ops);
      && After(After(s, Restart), Look).store == s.store
      && After(After(s, Crash(q, d, tear)), Look).store.ledger ==
           s.store.ledger + if tear.NoNewline? then [NextReceipt(s.store, q, d)] else []
  {
    LinkageAlways(ops);
    var s := Run(ops);
    RestartRecovers(s.store);
    CrashRecovers(s.store, NextReceipt(s.store, q, d), tear);
  }

  /** Exactly when an append that reaches the log leaves it readable as a chain: the log is already cut short at a torn
      line, or no earlier write was lost. */
  lemma DurableAppendIff(s: Store, q: Request, d: Draw)
    requires s.loaded && Chain(s.ledger) && Prefix(Load(s.wal), s.ledger)
    ensures Chain(Load(Appended(s, NextReceipt(s, q, d), true).wal)) <==> !Clean(s.wal) || Load(s.wal) == s.ledger
  {
    var r := NextReceipt(s, q, d);
    var l := Load(s.wal);
    PrefixChain(l, s.ledger);
    LoadWritten(s.wal, r);
    if Clean(s.wal) {
      ChainExtends(l, r);
      if l != s.ledger {
        HashesDistinct(s.ledger, |s.ledger| - 1, if l == [] then 0 else |l| - 1);
      }
    } else {
      PrefixChain(Load(Write(s.wal, r)), l);
    }
  }

  // ---- runs in which writes may fail ----

  /** Memory is a chain, and so is what a restart would read: a prefix of it. */
  predicate Readable(s: Store) {
    && Chain(s.ledger)
    && Chain(Load(s.wal))
    && (if s.loaded then Prefix(Load(s.wal), s.ledger) else s.ledger == [])
  }

  /** A write was lost since the log was last all of the ledger, and no line stops a reader before its end. */
  predicate Lagging(s: Store) {
    Clean(s.wal) && Load(s.wal) != Loaded(s).ledger
  }

  /** The operation writes the whole text of a receipt to a log that lags. */
  predicate Breaks(s: System, op: Op) {
    && Lagging(s.store)
    && ((op.Resume? && op.durable && op.q in s.pending) || (op.Crash? && op.tear.NoNewline? && op.q in s.pending))
  }

  lemma ReadableLoaded(s: Store)
    requires Readable(s)
    ensures Readable(Loaded(s)) && Loaded(s).wal == s.wal && Loaded(s).loaded
  {
    assert [] + Load(s.wal) == Load(s.wal);
  }

  lemma NextChains(s: Store, q: Request, d: Draw)
    requires Readable(s)
    ensures Chain(Loaded(s).ledger + [NextReceipt(s, q, d)])
  {
    ReadableLoaded(s);
    ChainExtends(Loaded(s).ledger, NextReceipt(s, q, d));
  }

  /** A receipt that extends the ledger does not extend a proper prefix of it. */
  lemma SkipsIff(ledger: seq<Receipt>, read: seq<Receipt>, r: Receipt)
    requires Prefix(read, ledger) && Chain(ledger + [r])
    ensures Chain(read + [r]) <==> read == ledger
  {
    ChainExtends(ledger, r);
    ChainExtends(read, r);
    PrefixChain(read, ledger);
    if read != ledger {
      HashesDistinct(ledger, |ledger| - 1, if read == [] then 0 else |read| - 1);
    }
  }

  lemma AppendReadableIff(s: Store, q: Request, d: Draw, durable: bool)
    requires Readable(s)
    ensures var next := Appended(s, NextReceipt(s, q, d), durable);
      && (Readable(next) <==> !(durable && Lagging(s)))
      && (Readable(next) <==> Chain(next.ledger) && Chain(Load(next.wal)))
  {
    var r, l := NextReceipt(s, q, d), Loaded(s).ledger;
    ReadableLoaded(s);
    NextChains(s, q, d);
    if durable {
      LoadWritten(s.wal, r);
      SkipsIff(l, Load(s.wal), r);
      if !Clean(s.wal) { PrefixChain(Load(Write(s.wal, r)), l + [r]); }
    }
  }

  lemma TornReadableIff(s: Store, q: Request, d: Draw, tear: Tear)
    requires Readable(s)
    ensures var wal := TornWrite(s.wal, NextReceipt(s, q, d), tear);
            Chain(Load(wal)) <==> !(tear.NoNewline? && Lagging(s))
  {
    var r, l := NextReceipt(s, q, d), Loaded(s).ledger;
    ReadableLoaded(s);
    NextChains(s, q, d);
    LoadTorn(s.wal, r, tear);
    if Clean(s.wal) {
      TornCleanIff(l, s.wal, r, tear);
    } else {
      PrefixChain(Load(TornWrite(s.wal, r, tear)), Load(s.wal));
    }
  }

  lemma TornCleanIff(ledger: seq<Receipt>, wal: Wal, r: Receipt, tear: Tear)
    requires Prefix(Load(wal), ledger) && Chain(ledger + [r]) && Chain(Load(wal))
    requires Load(TornWrite(wal, r, tear)) == Load(wal) + if tear.NoNewline? then [r] else []
    ensures Chain(Load(TornWrite(wal, r, tear))) <==> !(tear.NoNewline? && Load(wal) != ledger)
  {
    SkipsIff(ledger, Load(wal), r);
    assert Load(wal) + [] == Load(wal);
  }

  predicate Chained(s: Store) { Chain(s.ledger) && Chain(Load(s.wal)) }

  lemma ReadableAfterIff(s: System, op: Op)
    requires Readable(s.store)
    ensures Readable(After(s, op).store) <==> !Breaks(s, op)
    ensures Readable(After(s, op).store) <==> Chained(After(s, op).store)
  {
    match op
    case Begin(_) =>
    case Look => ReadableLoaded(s.store);
    case Clear => assert Lines(CLEARED.wal) == [];
    case Restart =>
    case Resume(q, d, durable) => AppendReadableIff(s.store, q, d, durable);
    case Crash(q, d, tear) => TornReadableIff(s.store, q, d, tear);
  }

  predicate ChainedAt(ops: seq<Op>, i: nat)
    requires i <= |ops|
  {
    Chained(Run(ops[..i]).store)
  }

  predicate ReadableAt(ops: seq<Op>, i: nat)
    requires i <= |ops|
  {
    Readable(Run(ops[..i]).store)
  }

  predicate BreaksAt(ops: seq<Op>, i: nat)
    requires i < |ops|
  {
    Breaks(Run(ops[..i]), ops[i])
  }

  /** At every point of the run up to step `n`. */
  predicate ChainedThrough(ops: seq<Op>, n: nat)
    requires n <= |ops|
  {
    ChainedAt(ops, n) && (n > 0 ==> ChainedThrough(ops, n - 1))
  }

  /** None of the first `n` steps. */
  predicate NoneBreaks(ops: seq<Op>, n: nat)
    requires n <= |ops|
  {
    n > 0 ==> !BreaksAt(ops, n - 1) && NoneBreaks(ops, n - 1)
  }

  lemma StartReadable(ops: seq<Op>)
    ensures ReadableAt(ops, 0) && ChainedAt(ops, 0)
  {
    assert ops[..0] == [] && Lines(INITIAL.store.wal) == [];
  }

  lemma StepIff(ops: seq<Op>, i: nat)
    requires i < |ops| && ReadableAt(ops, i)
    ensures ReadableAt(ops, i + 1) <==> !BreaksAt(ops, i)
    ensures ReadableAt(ops, i + 1) <==> ChainedAt(ops, i + 1)
  {
    RunNext(ops[..i], ops[i], ops[..i + 1]);
    ReadableAfterIff(Run(ops[..i]), ops[i]);
  }

  /** Whatever writes fail: memory and log are chains all through a run exactly when no step of it writes a whole
      receipt to a log that lags behind the ledger. */
  lemma {:induction false} ChainedIff(ops: seq<Op>, n: nat)
    requires n <= |ops|
    ensures ChainedThrough(ops, n) <==> NoneBreaks(ops, n)
    ensures NoneBreaks(ops, n) ==> ReadableAt(ops, n)
  {
    if n == 0 {
      StartReadable(ops);
    } else {
      ChainedIff(ops, n - 1);
      if NoneBreaks(ops, n - 1) { StepIff(ops, n - 1); }
    }
  }

  /** A swallowed write failure, one more receipt, and a restart: the ledger in memory is no chain. */
  lemma LostWriteBreaks(q: Request, d: Draw)
    ensures var ops := [Begin(q), Resume(q, d, false), Begin(q), Resume(q, d, true), Restart, Look];
      !Chain(Run(ops).store.ledger)
  {
    var o1, o2, o3, o4 := Begin(q), Resume(q, d, false), Begin(q), Resume(q, d, true);
    var s2 := After(After(INITIAL, o1), o2);
    var s4 := After(After(s2, o3), o4);
    var s6 := After(After(s4, Restart), Look);
    RunSix(o1, o2, o3, o4, Restart, Look);
    assert Lines(INITIAL.store.wal) == [];
    var r1 := NextReceipt(INITIAL.store, q, d);
    var r2 := NextReceipt(s2.store, q, d);
    assert s2.store.ledger == [r1] && s2.store.wal == Wal([], []);
    assert s2.pending == multiset{} && s4.store.wal == Write(Wal([], []), r2);
    LoadWritten(Wal([], []), r2);
    assert s6.store.ledger == [r2];
    assert !LinkAt([r2], 0);
  }

  lemma RunNext(ops: seq<Op>, op: Op, next: seq<Op>)
    requires next == ops + [op]
    ensures Run(next) == After(Run(ops), op)
  {
    assert next[..|ops|] == ops;
  }

  lemma RunThree(ops: seq<Op>, a: Op, b: Op, c: Op, next: seq<Op>)
    requires next == ops + [a, b, c]
    ensures Run(next) == After(After(After(Run(ops), a), b), c)
  {
    var one := ops + [a];
    var two := one + [b];
    assert next == two + [c];
    RunNext(ops, a, one);
    RunNext(one, b, two);
    RunNext(two, c, next);
  }

  lemma RunSix(a: Op, b: Op, c: Op, d: Op, e: Op, f: Op)
    ensures Run([a, b, c, d, e, f]) == After(After(After(After(After(After(INITIAL, a), b), c), d), e), f)
  {
    RunThree([], a, b, c, [a, b, c]);
    RunThree([a, b, c], d, e, f, [a, b, c, d, e, f]);
  }

  // ---- lineage ----

  predicate Ascends(places: seq<nat>, bound: nat) {
    && (forall k | 0 <= k < |places| :: places[k] < bound)
    && (forall j, k | 0 <= j < k < |places| :: places[j] < places[k])
  }

  /** Where the receipts of a workflow stand. */
  function Places(ledger: seq<Receipt>, workflow: string): (places: seq<nat>)
    ensures Ascends(places, |ledger|)
  {
    if ledger == [] then []
    else
      var n := |ledger| - 1;
      Places(ledger[..n], workflow) + if Belongs(ledger[n], workflow) then [n] else []
  }

  lemma {:induction false} PlaceAt(ledger: seq<Receipt>, workflow: string, k: nat)
    ensures |OfWorkflow(ledger, workflow)| == |Places(ledger, workflow)|
    ensures k < |Places(ledger, workflow)| ==> OfWorkflow(ledger, workflow)[k] == ledger[Places(ledger, workflow)[k]]
  {
    if ledger != [] {
      var n := |ledger| - 1;
      PlaceAt(ledger[..n], workflow, k);
      var before := Places(ledger[..n], workflow);
      if k < |before| { assert ledger[..n][before[k]] == ledger[before[k]]; }
    }
  }

  lemma {:induction false} PlaceIff(ledger: seq<Receipt>, workflow: string, p: nat)
    requires p < |ledger|
    ensures Belongs(ledger[p], workflow) <==> p in Places(ledger, workflow)
  {
    var n := |ledger| - 1;
    if p < n {
      PlaceIff(ledger[..n], workflow, p);
      assert ledger[..n][p] == ledger[p];
    }
  }

  /** The workflow's receipts are those at its places. */
  lemma PlacesOf(ledger: seq<Receipt>, workflow: string)
    ensures var places := Places(ledger, workflow);
      && |OfWorkflow(ledger, workflow)| == |places|
      && (forall k | 0 <= k < |places| :: OfWorkflow(ledger, workflow)[k] == ledger[places[k]])
      && (forall p: nat | p < |ledger| :: Belongs(ledger[p], workflow) <==> p in places)
  {
    PlaceAt(ledger, workflow, 0);
    var places := Places(ledger, workflow);
    forall k: nat | k < |places|
      ensures OfWorkflow(ledger, workflow)[k] == ledger[places[k]]
    {
      PlaceAt(ledger, workflow, k);
    }
    forall p: nat | p < |ledger|
      ensures Belongs(ledger[p], workflow) <==> p in places
    {
      PlaceIff(ledger, workflow, p);
    }
  }

  /** Exactly the receipts from `i` up to `j` belong to the workflow. */
  predicate Block(ledger: seq<Receipt>, workflow: string, i: nat, j: nat) {
    i < j <= |ledger| && forall k: nat | k < |ledger| :: Belongs(ledger[k], workflow) <==> i <= k < j
  }

  predicate Consecutive(places: seq<nat>) {
    forall k | 1 <= k < |places| :: places[k] == places[k - 1] + 1
  }

  lemma VerifiedIffConsecutive(ledger: seq<Receipt>, workflow: string)
    requires Chain(ledger)
    ensures LineageVerified(ledger, workflow) <==>
        Places(ledger, workflow) != [] && Consecutive(Places(ledger, workflow))
  {
    PlacesOf(ledger, workflow);
    var receipts, places := OfWorkflow(ledger, workflow), Places(ledger, workflow);
    forall k | 1 <= k < |places|
      ensures receipts[k].previousHash == receipts[k - 1].hash <==> places[k] == places[k - 1] + 1
    {
      assert places[k - 1] < places[k] && LinkAt(ledger, places[k]);
      HashesDistinct(ledger, places[k] - 1, places[k - 1]);
    }
  }

  lemma {:induction false} ConsecutiveAt(places: seq<nat>, k: nat)
    requires Consecutive(places) && k < |places|
    ensures places[k] == places[0] + k
  {
    if k > 0 { ConsecutiveAt(places, k - 1); }
  }

  lemma ConsecutiveIsBlock(ledger: seq<Receipt>, workflow: string)
    requires Places(ledger, workflow) != [] && Consecutive(Places(ledger, workflow))
    ensures var places := Places(ledger, workflow); Block(ledger, workflow, places[0], places[0] + |places|)
  {
    PlacesOf(ledger, workflow);
    var places := Places(ledger, workflow);
    ConsecutiveAt(places, |places| - 1);
    forall p: nat | p < |ledger|
      ensures Belongs(ledger[p], workflow) <==> places[0] <= p < places[0] + |places|
    {
      if p in places {
        var k :| 0 <= k < |places| && places[k] == p;
        ConsecutiveAt(places, k);
      }
      if places[0] <= p < places[0] + |places| { ConsecutiveAt(places, p - places[0]); }
    }
  }

  lemma BlockIsConsecutive(ledger: seq<Receipt>, workflow: string, i: nat, j: nat)
    requires Block(ledger, workflow, i, j)
    ensures Places(ledger, workflow) != [] && Consecutive(Places(ledger, workflow))
  {
    PlacesOf(ledger, workflow);
    var places := Places(ledger, workflow);
    assert Belongs(ledger[i], workflow);
    forall k | 1 <= k < |places|
      ensures places[k] == places[k - 1] + 1
    {
      NextPlace(ledger, workflow, i, j, k);
    }
  }

  lemma NextPlace(ledger: seq<Receipt>, workflow: string, i: nat, j: nat, k: nat)
    requires Block(ledger, workflow, i, j) && 1 <= k < |Places(ledger, workflow)|
    ensures Places(ledger, workflow)[k] == Places(ledger, workflow)[k - 1] + 1
  {
    var places := Places(ledger, workflow);
    var p, q := places[k - 1], places[k];
    PlaceIff(ledger, workflow, p);
    PlaceIff(ledger, workflow, q);
    PlaceIff(ledger, workflow, p + 1);
    var m :| 0 <= m < |places| && places[m] == p + 1;
    assert k - 1 < m <= k;
  }

  /** On a linked ledger the check passes exactly when the workflow's receipts form one non-empty contiguous block. */
  lemma LineageIff(ledger: seq<Receipt>, workflow: string)
    requires Chain(ledger)
    ensures LineageVerified(ledger, workflow) <==> exists i: nat, j: nat :: Block(ledger, workflow, i, j)
  {
    VerifiedIffConsecutive(ledger, workflow);
    if LineageVerified(ledger, workflow) { ConsecutiveIsBlock(ledger, workflow); }
    if i: nat, j: nat :| Block(ledger, workflow, i, j) { BlockIsConsecutive(ledger, workflow, i, j); }
  }

  /** So it is in every reachable state. */
  lemma LineageAlways(ops: seq<Op>, workflow: string)
    requires NoLoss(ops)
    ensures var ledger := Loaded(Run(ops).store).ledger;
      LineageVerified(ledger, workflow) <==> exists i: nat, j: nat :: Block(ledger, workflow, i, j)
  {
    LinkageAlways(ops);
    LinkedLoaded(Run(ops).store);
    LineageIff(Loaded(Run(ops).store).ledger, workflow);
  }
}
