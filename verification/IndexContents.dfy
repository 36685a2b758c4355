/** What the index holds for a file after any run, field by field (services/code_indexer/service.py:198-244). */
module IndexContents {
  import opened CodeIndex
  import opened Options

  /** The last operation of the run on its file that parsed. */
  ghost predicate IsLatest(ops: seq<Op>, k: int) {
    && 0 <= k < |ops| && ops[k].f.parse.Parsed?
    && forall j :: k < j < |ops| && PathOf(ops[j].f) == PathOf(ops[k].f) ==> ops[j].f.parse == ParseError
  }

  /** One more operation leaves the latest ones of other files. */
  lemma LatestBefore(before: seq<Op>, op: Op, k: int)
    requires 0 <= k < |before|
    ensures IsLatest(before + [op], k) <==>
              IsLatest(before, k) && (PathOf(op.f) == PathOf(before[k].f) ==> op.f.parse == ParseError)
  {
    var ops := before + [op];
    assert ops[|before|] == op && ops[k] == before[k];
    forall j | k < j < |before| ensures ops[j] == before[j] {}
    if IsLatest(ops, k) {
      forall j | k < j < |before| && PathOf(before[j].f) == PathOf(before[k].f) ensures before[j].f.parse == ParseError {
        assert PathOf(ops[j].f) == PathOf(ops[k].f);
      }
    }
  }

  lemma LastStep(before: seq<Op>, op: Op)
    requires AllClean(before + [op]) && AllClean(before)
    ensures Last(before + [op]).Keys == Last(before).Keys + if op.f.parse.Parsed? then {PathOf(op.f)} else {}
    ensures forall p :: p in Last(before + [op]) ==>
              Last(before + [op])[p] == if op.f.parse.Parsed? && PathOf(op.f) == p then op.f else Last(before)[p]
  {
    var ops := before + [op];
    assert ops[..|ops| - 1] == before && ops[|ops| - 1] == op;
  }

  lemma Cut(ops: seq<Op>) returns (before: seq<Op>, op: Op)
    requires ops != [] && AllClean(ops)
    ensures ops == before + [op] && AllClean(before) && (CollisionFree(ops) ==> CollisionFree(before))
  {
    before, op := ops[..|ops| - 1], ops[|ops| - 1];
    CleanPrefix(ops);
  }

  lemma {:induction false} LatestIsLast(ops: seq<Op>, k: int)
    requires AllClean(ops) && IsLatest(ops, k)
    ensures PathOf(ops[k].f) in Last(ops) && Last(ops)[PathOf(ops[k].f)] == ops[k].f
    decreases |ops|
  {
    var before, op := Cut(ops);
    LastStep(before, op);
    if k < |before| {
      LatestBefore(before, op, k);
      LatestIsLast(before, k);
    }
  }

  lemma {:induction false} LastIsLatest(ops: seq<Op>, p: string) returns (k: nat)
    requires AllClean(ops) && p in Last(ops)
    ensures IsLatest(ops, k) && PathOf(ops[k].f) == p
    decreases |ops|
  {
    var before, op := Cut(ops);
    LastStep(before, op);
    if op.f.parse.Parsed? && PathOf(op.f) == p {
      k := |before|;
    } else {
      k := LastIsLatest(before, p);
      LatestBefore(before, op, k);
    }
  }

  /** No later symbol of the file has the same name and line. */
  predicate LastOfItsKind(symbols: seq<Symbol>, i: int) {
    && 0 <= i < |symbols|
    && forall j :: i < j < |symbols| ==> symbols[j].name != symbols[i].name || symbols[j].lineStart != symbols[i].lineStart
  }

  lemma {:induction false} KindDecides(f: Source, n: nat, i: nat)
    requires f.parse.Parsed? && Clean(f) && i < n <= |f.parse.symbols|
    requires forall j :: i < j < n ==> IdOf(f, f.parse.symbols[j]) != IdOf(f, f.parse.symbols[i])
    ensures var id := IdOf(f, f.parse.symbols[i]);
            id in FreshSymbols(f, n) && FreshSymbols(f, n)[id] == NodeOf(f, f.parse.symbols[i])
  {
    if i < n - 1 { KindDecides(f, n - 1, i); }
  }

  lemma OtherKindOtherId(f: Source, i: nat, j: nat)
    requires f.parse.Parsed? && Clean(f) && i < |f.parse.symbols| && j < |f.parse.symbols|
    requires var a, b := f.parse.symbols[i], f.parse.symbols[j]; a.name != b.name || a.lineStart != b.lineStart
    ensures IdOf(f, f.parse.symbols[i]) != IdOf(f, f.parse.symbols[j])
  {
    var a, b := f.parse.symbols[i], f.parse.symbols[j];
    assert a in f.parse.symbols && b in f.parse.symbols;
    SymbolKeysEqualIff(f.raw, a, f.project, f.raw, b, f.project);
  }

  /** The file node says what the file's latest content says, in the file's project. */
  lemma FileIsShown(ops: seq<Op>, k: nat)
    requires AllClean(ops) && CollisionFree(ops) && IsLatest(ops, k)
    ensures var f, s := ops[k].f, Run(EMPTY, ops);
            && PathOf(f) in s.files
            && s.files[PathOf(f)].hash == f.parse.hash && s.files[PathOf(f)].details == f.parse.details
            && s.files[PathOf(f)].project == f.project
  {
    LatestIsLast(ops, k);
    RunKeepsInv(ops);
  }

  /** Each symbol of the content that no later one replaces has its node, in the file's project. */
  lemma SymbolIsShown(ops: seq<Op>, k: nat, i: nat)
    requires AllClean(ops) && CollisionFree(ops) && IsLatest(ops, k) && LastOfItsKind(ops[k].f.parse.symbols, i)
    ensures var f, s := ops[k].f, Run(EMPTY, ops);
            var symbol := f.parse.symbols[i];
            var id := SymbolKey(f.raw, symbol, f.project);
            && id in s.symbols
            && s.symbols[id].symbol == symbol && s.symbols[id].filePath == PathOf(f) && s.symbols[id].project == f.project
  {
    var f := ops[k].f;
    LatestIsLast(ops, k);
    RunKeepsInv(ops);
    forall j | i < j < |f.parse.symbols| ensures IdOf(f, f.parse.symbols[j]) != IdOf(f, f.parse.symbols[i]) {
      OtherKindOtherId(f, j, i);
    }
    KindDecides(f, |f.parse.symbols|, i);
    assert HasSymbol(Run(EMPTY, ops).symbols, f, IdOf(f, f.parse.symbols[i]));
  }

  /** The file's CONTAINS edges lead to its symbols in the order of their lines, and there are no others. */
  lemma EdgesAreShown(ops: seq<Op>, k: nat, e: Contains)
    requires AllClean(ops) && CollisionFree(ops) && IsLatest(ops, k) && e.path == PathOf(ops[k].f)
    ensures var f := ops[k].f;
            e in Run(EMPTY, ops).contains <==>
              exists symbol <- f.parse.symbols :: e.order == symbol.lineStart && e.id == SymbolKey(f.raw, symbol, f.project)
  {
    var f, s := ops[k].f, Run(EMPTY, ops);
    LatestIsLast(ops, k);
    RunKeepsInv(ops);
    if e in s.contains {
      var symbol :| symbol in f.parse.symbols && e == EdgeTo(f, symbol);
      assert e.order == symbol.lineStart;
    }
    if symbol :| symbol in f.parse.symbols && e.order == symbol.lineStart && e.id == SymbolKey(f.raw, symbol, f.project) {
      assert e == EdgeTo(f, symbol) && e in FreshContains(f);
    }
  }

  /** Its imports are those of the content, and their modules are there. */
  lemma ImportsAreShown(ops: seq<Op>, k: nat, what: Import)
    requires AllClean(ops) && CollisionFree(ops) && IsLatest(ops, k)
    ensures var f, s := ops[k].f, Run(EMPTY, ops);
            && (Imports(PathOf(f), what) in s.imports <==> what in f.parse.imports)
            && (what in f.parse.imports ==> what.source in s.modules)
  {
    var f, s := ops[k].f, Run(EMPTY, ops);
    LatestIsLast(ops, k);
    RunKeepsInv(ops);
    assert Imports(PathOf(f), what) in FreshImports(f) <==> what in f.parse.imports;
    if what in f.parse.imports { assert what.source in Sources(f); }
  }

  /** A stored symbol is one of the latest content of its file. */
  lemma NoOtherSymbols(ops: seq<Op>, id: string) returns (k: nat, i: nat)
    requires AllClean(ops) && CollisionFree(ops) && id in Run(EMPTY, ops).symbols
    ensures IsLatest(ops, k) && i < |ops[k].f.parse.symbols|
    ensures var f := ops[k].f; id == SymbolKey(f.raw, f.parse.symbols[i], f.project)
  {
    var s := Run(EMPTY, ops);
    RunKeepsInv(ops);
    var p := s.symbols[id].filePath;
    k := LastIsLatest(ops, p);
    LatestIsLast(ops, k);
    var f := ops[k].f;
    FreshSymbolKeys(f, |f.parse.symbols|, id);
    i :| 0 <= i < |f.parse.symbols| && id == IdOf(f, f.parse.symbols[i]);
  }

  /** A stored file is one whose content parsed at some time. */
  lemma NoOtherFiles(ops: seq<Op>, p: string)
    requires AllClean(ops) && CollisionFree(ops)
    ensures p in Run(EMPTY, ops).files <==> exists op <- ops :: op.f.parse.Parsed? && PathOf(op.f) == p
  {
    RunKeepsInv(ops);
    if p in Last(ops) {
      var k := LastIsLatest(ops, p);
      assert ops[k] in ops;
    }
    if op :| op in ops && op.f.parse.Parsed? && PathOf(op.f) == p { ParsedIsThere(ops, op); }
  }

  lemma {:induction false} ParsedIsThere(ops: seq<Op>, op: Op)
    requires AllClean(ops) && op in ops && op.f.parse.Parsed?
    ensures PathOf(op.f) in Last(ops)
  {
    CleanPrefix(ops);
    if op != ops[|ops| - 1] { ParsedIsThere(ops[..|ops| - 1], op); }
  }

  /** The time stamp is that of an operation with just this content, of the latest if that was forced. */
  lemma {:induction false} TimeStampIsItsOwn(ops: seq<Op>, k: nat) returns (j: nat)
    requires AllClean(ops) && CollisionFree(ops) && IsLatest(ops, k)
    ensures j <= k && ops[j].f == ops[k].f && (ops[k].force ==> j == k)
    ensures PathOf(ops[k].f) in Run(EMPTY, ops).files && Run(EMPTY, ops).files[PathOf(ops[k].f)].lastIndexed == ops[j].now
    decreases |ops|
  {
    var before, op := Cut(ops);
    var s := Run(EMPTY, before);
    RunStep(before, op);
    if k < |before| {
      LatestBefore(before, op, k);
      j := TimeStampIsItsOwn(before, k);
      OtherStampStays(s, op, PathOf(before[k].f));
    } else if Skips(s, op) {
      var i := StoredAlready(before, op);
      j := TimeStampIsItsOwn(before, i);
    } else {
      j := k;
      StampIsNew(s, op);
    }
  }

  lemma RunStep(before: seq<Op>, op: Op)
    ensures Run(EMPTY, before + [op]) == Index(Run(EMPTY, before), op)
  {
    assert (before + [op])[..|before|] == before;
  }

  /** A skipped operation has the content stored before it. */
  lemma StoredAlready(before: seq<Op>, op: Op) returns (i: nat)
    requires AllClean(before) && CollisionFree(before) && AllClean(before + [op]) && CollisionFree(before + [op])
    requires Skips(Run(EMPTY, before), op)
    ensures IsLatest(before, i) && before[i].f == op.f
  {
    RunKeepsInv(before);
    SkippedIsStored(Run(EMPTY, before), before, op);
    i := LastIsLatest(before, PathOf(op.f));
    LatestIsLast(before, i);
  }

  lemma OtherStampStays(s: Store, op: Op, p: string)
    requires p in s.files && (PathOf(op.f) == p ==> op.f.parse == ParseError)
    ensures p in Index(s, op).files && Index(s, op).files[p] == s.files[p]
  {
    if op.f.parse.Parsed? { ReindexEffect(s, op.f, op.now); }
  }

  lemma StampIsNew(s: Store, op: Op)
    requires op.f.parse.Parsed? && !Skips(s, op)
    ensures PathOf(op.f) in Index(s, op).files && Index(s, op).files[PathOf(op.f)].lastIndexed == op.now
  {
    ReindexEffect(s, op.f, op.now);
  }

  // ---- The answer ----

  lemma {:induction false} ErrorsGrow(root: string, ops: seq<Op>, m: nat, n: nat)
    requires m <= n <= |ops|
    ensures Failures(root, ops, m) <= Failures(root, ops, n)
  {
    if m < n { ErrorsGrow(root, ops, m, n - 1); }
  }

  /** Each file that is not indexed has its error, behind those of the failed files found before it. */
  lemma ErrorsNameFiles(root: string, ops: seq<Op>, i: nat)
    requires i < |ops| && !ops[i].f.parse.Parsed?
    ensures var before, errors := i - Parses(ops, i), Failures(root, ops, |ops|);
            0 <= before < |errors| && errors[before] == "Failed to index: " + root + "/" + ops[i].f.raw
  {
    EveryFileCounted(root, ops, i);
    ErrorsGrow(root, ops, i + 1, |ops|);
    assert Failures(root, ops, i + 1)[|Failures(root, ops, i)|] == FailedToIndex(root, ops[i].f.raw);
  }
}
