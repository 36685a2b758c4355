/**
 The incremental code index: `_index_file` (services/code_indexer/service.py:179-244) over the graph
 store of services/code_indexer/neo4j_client.py, as keyed nodes and edge sets.

 A parse result stands for the file's content. All store operations succeed.
 */
module CodeIndex {
  import opened Options
  import Decimal

  /** `details` is everything the parser says about the symbol beside its name and first line. */
  datatype Symbol = Symbol(name: string, lineStart: nat, details: string)

  datatype Import = Import(source: string, line: nat, details: string)

  datatype Parse = ParseError | Parsed(hash: string, details: string, symbols: seq<Symbol>, imports: seq<Import>)

  datatype FileNode = FileNode(hash: string, details: string, project: Option<string>, lastIndexed: int)

  datatype SymbolNode = SymbolNode(symbol: Symbol, filePath: string, project: Option<string>)

  datatype Contains = Contains(path: string, order: nat, id: string)

  datatype Imports = Imports(path: string, what: Import)

  datatype Store = Store(
    files: map<string, FileNode>,
    symbols: map<string, SymbolNode>,
    contains: set<Contains>,
    imports: set<Imports>,
    modules: set<string>)

  const EMPTY := Store(map[], map[], {}, {}, {})

  // ---- Keys ----

  function ScopedKey(value: string, project: Option<string>): string {
    if project.Some? && project.value != "" then project.value + ":" + value else value
  }

  function SymbolKey(raw: string, symbol: Symbol, project: Option<string>): string {
    ScopedKey(raw + ":" + symbol.name + ":" + Decimal.Print(symbol.lineStart), project)
  }

  predicate NoColon(s: string) {
    ':' !in s
  }

  /** Every file key names one file: the files of these projects, whatever their paths, and these untagged ones. */
  ghost predicate KeysTellFiles(ids: set<string>, untagged: set<string>) {
    && (forall p, r, q, s :: p in ids && q in ids && ScopedKey(r, Some(p)) == ScopedKey(s, Some(q)) ==> p == q && r == s)
    && (forall p, r, u :: p in ids && u in untagged ==> ScopedKey(r, Some(p)) != ScopedKey(u, None))
  }

  /** No project id with its colon begins another one with its colon, or an untagged path. */
  ghost predicate IdsAreNoPrefixes(ids: set<string>, untagged: set<string>) {
    && (forall p, q :: p in ids && q in ids && p + ":" <= q + ":" ==> p == q)
    && (forall p, u :: p in ids && u in untagged ==> !(p + ":" <= u))
  }

  lemma TaggedPrefix(p: string, r: string)
    requires p != ""
    ensures p + ":" <= ScopedKey(r, Some(p)) && ScopedKey(r, Some(p))[|p| + 1..] == r
  {
  }

  lemma SameTagIsSameFile(p: string, r: string, s: string)
    requires p != "" && ScopedKey(r, Some(p)) == ScopedKey(s, Some(p))
    ensures r == s
  {
    TaggedPrefix(p, r);
    TaggedPrefix(p, s);
  }

  /** Of two prefixes of one text the shorter begins the longer. */
  lemma PrefixesNest(a: string, b: string, text: string)
    requires a <= text && b <= text && |a| <= |b|
    ensures a <= b
  {
  }

  lemma PrefixSharesKey(p: string, longer: string) returns (r: string)
    requires p != "" && p + ":" <= longer
    ensures ScopedKey(r, Some(p)) == longer
  {
    r := longer[|p| + 1..];
    assert longer == (p + ":") + r;
  }

  lemma NoPrefixesTellFiles(ids: set<string>, untagged: set<string>)
    requires "" !in ids && IdsAreNoPrefixes(ids, untagged)
    ensures KeysTellFiles(ids, untagged)
  {
    forall p, r, q, s | p in ids && q in ids && ScopedKey(r, Some(p)) == ScopedKey(s, Some(q)) ensures p == q && r == s {
      var key := ScopedKey(r, Some(p));
      TaggedPrefix(p, r);
      TaggedPrefix(q, s);
      if |p| <= |q| { PrefixesNest(p + ":", q + ":", key); } else { PrefixesNest(q + ":", p + ":", key); }
      SameTagIsSameFile(p, r, s);
    }
    forall p, r, u | p in ids && u in untagged ensures ScopedKey(r, Some(p)) != ScopedKey(u, None) {
      TaggedPrefix(p, r);
    }
  }

  lemma ToldFilesHaveNoPrefixes(ids: set<string>, untagged: set<string>)
    requires "" !in ids && KeysTellFiles(ids, untagged)
    ensures IdsAreNoPrefixes(ids, untagged)
  {
    forall p, q | p in ids && q in ids && p + ":" <= q + ":" ensures p == q {
      var r := PrefixSharesKey(p, q + ":");
      assert ScopedKey("", Some(q)) == q + ":";
    }
    forall p, u | p in ids && u in untagged ensures !(p + ":" <= u) {
      if p + ":" <= u { var r := PrefixSharesKey(p, u); }
    }
  }

  /** File keys tell files apart exactly when no project id with its colon begins another or an untagged path. */
  lemma KeysTellFilesIff(ids: set<string>, untagged: set<string>)
    requires "" !in ids
    ensures KeysTellFiles(ids, untagged) <==> IdsAreNoPrefixes(ids, untagged)
  {
    if IdsAreNoPrefixes(ids, untagged) { NoPrefixesTellFiles(ids, untagged); }
    if KeysTellFiles(ids, untagged) { ToldFilesHaveNoPrefixes(ids, untagged); }
  }

  /** Ids and untagged paths without colons are such; the paths inside projects are free. */
  lemma ColonFreeIdsSuffice(ids: set<string>, untagged: set<string>)
    requires (forall p :: p in ids ==> NoColon(p)) && (forall u :: u in untagged ==> NoColon(u))
    ensures IdsAreNoPrefixes(ids, untagged)
  {
    forall p, q | p in ids && q in ids && p + ":" <= q + ":" ensures p == q {
      assert (p + ":")[|p|] == ':' == (q + ":")[|p|];
      assert |p| == |q|;
      assert (p + ":")[..|p|] == p && (q + ":")[..|p|] == q;
    }
    forall p, u | p in ids && u in untagged ensures !(p + ":" <= u) {
      assert (p + ":")[|p|] == ':';
    }
  }

  /** The failure for an untagged path that begins with a project id: the project's file "b" has the key of "a:b". */
  lemma ColonsCollide()
    ensures !KeysTellFiles({"a"}, {"a:b"})
  {
    assert ScopedKey("b", Some("a")) == "a:b" == ScopedKey("a:b", None);
  }

  lemma DigitsHaveNoColon(n: nat)
    ensures NoColon(Decimal.Print(n))
  {
  }

  /** Two strings cut at their last colon have equal parts. */
  lemma SplitAtLastColon(a: string, b: string, c: string, d: string)
    requires NoColon(b) && NoColon(d) && a + ":" + b == c + ":" + d
    ensures a == c && b == d
  {
    var s := a + ":" + b;
    assert s[|a|] == ':' && s[|c|] == ':';
    assert forall i :: |a| < i < |s| ==> s[i] == b[i - |a| - 1] != ':';
    assert forall i :: |c| < i < |s| ==> s[i] == d[i - |c| - 1] != ':';
    assert s[..|a|] == a && s[..|c|] == c;
    assert s[|a| + 1..] == b && s[|c| + 1..] == d;
  }

  lemma SymbolKeyParts(raw: string, symbol: Symbol, project: Option<string>)
    ensures SymbolKey(raw, symbol, project) == ScopedKey(raw, project) + ":" + symbol.name + ":" + Decimal.Print(symbol.lineStart)
  {
    if project.Some? && project.value != "" {
      var tail := ":" + symbol.name + ":" + Decimal.Print(symbol.lineStart);
      assert raw + ":" + symbol.name + ":" + Decimal.Print(symbol.lineStart) == raw + tail;
      assert (project.value + ":" + raw) + tail == ScopedKey(raw, project) + ":" + symbol.name + ":" + Decimal.Print(symbol.lineStart);
    }
  }

  /** Symbol keys of names without colons are equal exactly for one file key, one name and one line. */
  lemma SymbolKeysEqualIff(
    raw: string, symbol: Symbol, project: Option<string>, raw': string, symbol': Symbol, project': Option<string>)
    requires NoColon(symbol.name) && NoColon(symbol'.name)
    ensures SymbolKey(raw, symbol, project) == SymbolKey(raw', symbol', project') <==>
              ScopedKey(raw, project) == ScopedKey(raw', project') && symbol.name == symbol'.name && symbol.lineStart == symbol'.lineStart
  {
    SymbolKeyParts(raw, symbol, project);
    SymbolKeyParts(raw', symbol', project');
    if SymbolKey(raw, symbol, project) == SymbolKey(raw', symbol', project') {
      var key, key' := ScopedKey(raw, project), ScopedKey(raw', project');
      DigitsHaveNoColon(symbol.lineStart);
      DigitsHaveNoColon(symbol'.lineStart);
      SplitAtLastColon(key + ":" + symbol.name, Decimal.Print(symbol.lineStart), key' + ":" + symbol'.name, Decimal.Print(symbol'.lineStart));
      SplitAtLastColon(key, symbol.name, key', symbol'.name);
      Decimal.PrintInjective(symbol.lineStart, symbol'.lineStart);
    }
  }

  // ---- Store operations ----

  function StoreFile(s: Store, path: string, node: FileNode): Store {
    s.(files := s.files[path := node])
  }

  /** MERGE on the id; the CONTAINS edge needs the file node. */
  function StoreSymbol(s: Store, id: string, node: SymbolNode): Store {
    s.(symbols := s.symbols[id := node],
       contains := if node.filePath in s.files then s.contains + {Contains(node.filePath, node.symbol.lineStart, id)} else s.contains)
  }

  function StoreImport(s: Store, path: string, what: Import): Store {
    if path in s.files then s.(imports := s.imports + {Imports(path, what)}, modules := s.modules + {what.source}) else s
  }

  function ContainedIn(s: Store, path: string): set<string> {
    set e <- s.contains | e.path == path :: e.id
  }

  /** DETACH DELETE of the file and the symbols it contains: their edges go too, module nodes stay. */
  function DeleteFile(s: Store, path: string): Store {
    if path !in s.files then s
    else
      var doomed := ContainedIn(s, path);
      s.(files := s.files - {path}, symbols := s.symbols - doomed,
         contains := (set e <- s.contains | e.path != path && e.id !in doomed),
         imports := (set e <- s.imports | e.path != path))
  }

  // ---- Indexing one file ----

  /** A file of a project (or of the untagged workspace) with what its content parses to. */
  datatype Source = Source(raw: string, project: Option<string>, parse: Parse)

  datatype Op = Op(f: Source, force: bool, now: int)

  function PathOf(f: Source): string {
    ScopedKey(f.raw, f.project)
  }

  function FileNodeOf(f: Source, now: int): FileNode
    requires f.parse.Parsed?
  {
    FileNode(f.parse.hash, f.parse.details, f.project, now)
  }

  function IdOf(f: Source, symbol: Symbol): string {
    SymbolKey(f.raw, symbol, f.project)
  }

  function NodeOf(f: Source, symbol: Symbol): SymbolNode {
    SymbolNode(symbol, PathOf(f), f.project)
  }

  function StoreSymbols(s: Store, f: Source, n: nat): Store
    requires f.parse.Parsed? && n <= |f.parse.symbols|
  {
    if n == 0 then s
    else
      var symbol := f.parse.symbols[n - 1];
      StoreSymbol(StoreSymbols(s, f, n - 1), IdOf(f, symbol), NodeOf(f, symbol))
  }

  function StoreImports(s: Store, f: Source, n: nat): Store
    requires f.parse.Parsed? && n <= |f.parse.imports|
  {
    if n == 0 then s else StoreImport(StoreImports(s, f, n - 1), PathOf(f), f.parse.imports[n - 1])
  }

  /** Delete-then-store. */
  function Reindex(s: Store, f: Source, now: int): Store
    requires f.parse.Parsed?
  {
    var s1 := StoreFile(DeleteFile(s, PathOf(f)), PathOf(f), FileNodeOf(f, now));
    StoreImports(StoreSymbols(s1, f, |f.parse.symbols|), f, |f.parse.imports|)
  }

  predicate Skips(s: Store, op: Op) {
    !op.force && op.f.parse.Parsed? && PathOf(op.f) in s.files && s.files[PathOf(op.f)].hash == op.f.parse.hash
  }

  function Index(s: Store, op: Op): Store {
    if op.f.parse == ParseError || Skips(s, op) then s else Reindex(s, op.f, op.now)
  }

  function Run(s: Store, ops: seq<Op>): Store {
    if ops == [] then s else Index(Run(s, ops[..|ops| - 1]), ops[|ops| - 1])
  }

  function Forced(ops: seq<Op>): seq<Op> {
    seq(|ops|, i requires 0 <= i < |ops| => ops[i].(force := true))
  }

  // ---- What one file's index is ----

  /** The symbol nodes the first `n` symbols give: of two symbols with one key the later wins. */
  function FreshSymbols(f: Source, n: nat): map<string, SymbolNode>
    requires f.parse.Parsed? && n <= |f.parse.symbols|
  {
    if n == 0 then map[]
    else FreshSymbols(f, n - 1)[IdOf(f, f.parse.symbols[n - 1]) := NodeOf(f, f.parse.symbols[n - 1])]
  }

  function Symbols(f: Source): map<string, SymbolNode>
    requires f.parse.Parsed?
  {
    FreshSymbols(f, |f.parse.symbols|)
  }

  function EdgeTo(f: Source, symbol: Symbol): Contains {
    Contains(PathOf(f), symbol.lineStart, IdOf(f, symbol))
  }

  function FreshContains(f: Source): set<Contains>
    requires f.parse.Parsed?
  {
    set symbol <- f.parse.symbols :: EdgeTo(f, symbol)
  }

  function FreshImports(f: Source): set<Imports>
    requires f.parse.Parsed?
  {
    set i <- f.parse.imports :: Imports(PathOf(f), i)
  }

  function Sources(f: Source): set<string>
    requires f.parse.Parsed?
  {
    set i <- f.parse.imports :: i.source
  }

  /** Symbol names without colons. */
  predicate Clean(f: Source) {
    f.parse.Parsed? ==> forall symbol <- f.parse.symbols :: NoColon(symbol.name)
  }

  predicate SameFile(f: Source, g: Source) {
    f.raw == g.raw && f.project == g.project
  }

  /** Equal file keys mean the same file. */
  predicate FilesTold(ops: seq<Op>) {
    forall a, b :: a in ops && b in ops && PathOf(a.f) == PathOf(b.f) ==> SameFile(a.f, b.f)
  }

  predicate AllClean(ops: seq<Op>) {
    (forall op <- ops :: Clean(op.f)) && FilesTold(ops)
  }

  predicate InScope(f: Source, ids: set<string>, untagged: set<string>) {
    if f.project.Some? then f.project.value in ids else f.raw in untagged
  }

  lemma ScopedFilesApart(f: Source, g: Source, ids: set<string>, untagged: set<string>)
    requires KeysTellFiles(ids, untagged) && InScope(f, ids, untagged) && InScope(g, ids, untagged)
    ensures PathOf(f) == PathOf(g) ==> SameFile(f, g)
  {
    match (f.project, g.project)
    case (Some(p), Some(q)) =>
    case (Some(p), None) => assert ScopedKey(f.raw, Some(p)) != ScopedKey(g.raw, None);
    case (None, Some(q)) => assert ScopedKey(g.raw, Some(q)) != ScopedKey(f.raw, None);
    case (None, None) =>
  }

  /** Files of projects and untagged paths without such prefixes are told apart. */
  lemma ScopesTellFiles(ops: seq<Op>, ids: set<string>, untagged: set<string>)
    requires "" !in ids && IdsAreNoPrefixes(ids, untagged) && forall op <- ops :: InScope(op.f, ids, untagged)
    ensures FilesTold(ops)
  {
    NoPrefixesTellFiles(ids, untagged);
    forall a, b | a in ops && b in ops ensures PathOf(a.f) == PathOf(b.f) ==> SameFile(a.f, b.f) {
      ScopedFilesApart(a.f, b.f, ids, untagged);
    }
  }

  predicate Collide(a: Source, b: Source) {
    && PathOf(a) == PathOf(b) && a.parse.Parsed? && b.parse.Parsed?
    && a.parse.hash == b.parse.hash && a.parse != b.parse
  }

  /** Equal hashes of contents at one path mean equal contents. */
  predicate CollisionFree(ops: seq<Op>) {
    forall a, b :: a in ops && b in ops ==> !Collide(a.f, b.f)
  }

  // ---- The invariant: the store is what the last indexed contents say ----

  /** The last successfully parsed content of each path. */
  type Contents = last: map<string, Source> | forall p <- last :: last[p].parse.Parsed? && Clean(last[p]) && PathOf(last[p]) == p

  /** The store without time stamps and without the module nodes, which are never deleted. */
  ghost predicate FilesAgree(files: map<string, FileNode>, last: Contents) {
    files.Keys == last.Keys && forall p :: p in last ==> SameNode(files[p], FileNodeOf(last[p], 0))
  }

  ghost predicate NoStraySymbols(symbols: map<string, SymbolNode>, last: Contents) {
    forall id :: id in symbols ==> symbols[id].filePath in last && id in Symbols(last[symbols[id].filePath])
  }

  ghost predicate HasSymbol(symbols: map<string, SymbolNode>, f: Source, id: string)
    requires f.parse.Parsed? && id in Symbols(f)
  {
    id in symbols && symbols[id] == Symbols(f)[id]
  }

  ghost predicate AllSymbols(symbols: map<string, SymbolNode>, last: Contents) {
    forall p, id :: p in last && id in Symbols(last[p]) ==> HasSymbol(symbols, last[p], id)
  }

  ghost predicate SymbolsAgree(symbols: map<string, SymbolNode>, last: Contents) {
    NoStraySymbols(symbols, last) && AllSymbols(symbols, last)
  }

  ghost predicate ContainsAgree(contains: set<Contains>, last: Contents) {
    forall e :: e in contains <==> e.path in last && e in FreshContains(last[e.path])
  }

  ghost predicate ImportsAgree(imports: set<Imports>, last: Contents) {
    forall e :: e in imports <==> e.path in last && e in FreshImports(last[e.path])
  }

  ghost predicate ModulesAgree(modules: set<string>, last: Contents) {
    forall p :: p in last ==> Sources(last[p]) <= modules
  }

  ghost predicate Inv(s: Store, last: Contents) {
    && FilesAgree(s.files, last) && SymbolsAgree(s.symbols, last) && ContainsAgree(s.contains, last)
    && ImportsAgree(s.imports, last) && ModulesAgree(s.modules, last)
  }

  /** Equal but for the time stamp. */
  ghost predicate SameNode(a: FileNode, b: FileNode) {
    a.(lastIndexed := b.lastIndexed) == b
  }

  ghost predicate SameStore(s: Store, t: Store) {
    && s.files.Keys == t.files.Keys
    && (forall p :: p in s.files ==> SameNode(s.files[p], t.files[p]))
    && s.symbols == t.symbols && s.contains == t.contains && s.imports == t.imports && s.modules == t.modules
  }

  lemma {:induction false} FreshSymbolKeys(f: Source, n: nat, id: string)
    requires f.parse.Parsed? && n <= |f.parse.symbols|
    ensures id in FreshSymbols(f, n) <==> exists i :: 0 <= i < n && id == IdOf(f, f.parse.symbols[i])
    ensures id in FreshSymbols(f, n) ==> FreshSymbols(f, n)[id].filePath == PathOf(f)
  {
    if n > 0 {
      FreshSymbolKeys(f, n - 1, id);
      if i :| 0 <= i < n - 1 && id == IdOf(f, f.parse.symbols[i]) {
        assert 0 <= i < n;
      }
    }
  }

  /** The CONTAINS edges of a file lead to its symbols and to no others. */
  lemma EdgesMatchSymbols(f: Source, id: string)
    requires f.parse.Parsed?
    ensures id in Symbols(f) <==> exists e :: e in FreshContains(f) && e.id == id
  {
    FreshSymbolKeys(f, |f.parse.symbols|, id);
    if id in Symbols(f) {
      var i :| 0 <= i < |f.parse.symbols| && id == IdOf(f, f.parse.symbols[i]);
      assert EdgeTo(f, f.parse.symbols[i]) in FreshContains(f);
    }
    if e :| e in FreshContains(f) && e.id == id {
      var symbol :| symbol in f.parse.symbols && e == EdgeTo(f, symbol);
      var i :| 0 <= i < |f.parse.symbols| && f.parse.symbols[i] == symbol;
    }
  }

  /** No symbol key is shared by two files. */
  lemma KeysApart(a: Source, b: Source, id: string)
    requires a.parse.Parsed? && b.parse.Parsed? && Clean(a) && Clean(b)
    requires id in Symbols(a) && id in Symbols(b)
    ensures PathOf(a) == PathOf(b)
  {
    FreshSymbolKeys(a, |a.parse.symbols|, id);
    FreshSymbolKeys(b, |b.parse.symbols|, id);
    var i :| 0 <= i < |a.parse.symbols| && id == IdOf(a, a.parse.symbols[i]);
    var j :| 0 <= j < |b.parse.symbols| && id == IdOf(b, b.parse.symbols[j]);
    SymbolKeysEqualIff(a.raw, a.parse.symbols[i], a.project, b.raw, b.parse.symbols[j], b.project);
  }

  function EdgesUpTo(f: Source, n: nat): set<Contains>
    requires f.parse.Parsed? && n <= |f.parse.symbols|
  {
    if n == 0 then {} else EdgesUpTo(f, n - 1) + {EdgeTo(f, f.parse.symbols[n - 1])}
  }

  function ImportsUpTo(f: Source, n: nat): set<Imports>
    requires f.parse.Parsed? && n <= |f.parse.imports|
  {
    if n == 0 then {} else ImportsUpTo(f, n - 1) + {Imports(PathOf(f), f.parse.imports[n - 1])}
  }

  function SourcesUpTo(f: Source, n: nat): set<string>
    requires f.parse.Parsed? && n <= |f.parse.imports|
  {
    if n == 0 then {} else SourcesUpTo(f, n - 1) + {f.parse.imports[n - 1].source}
  }

  lemma {:induction false} EdgesUpToAll(f: Source, n: nat, e: Contains)
    requires f.parse.Parsed? && n <= |f.parse.symbols|
    ensures e in EdgesUpTo(f, n) <==> exists i :: 0 <= i < n && e == EdgeTo(f, f.parse.symbols[i])
  {
    if n > 0 {
      EdgesUpToAll(f, n - 1, e);
    }
  }

  lemma {:induction false} ImportsUpToAll(f: Source, n: nat, e: Imports, m: string)
    requires f.parse.Parsed? && n <= |f.parse.imports|
    ensures e in ImportsUpTo(f, n) <==> exists i :: 0 <= i < n && e == Imports(PathOf(f), f.parse.imports[i])
    ensures m in SourcesUpTo(f, n) <==> exists i :: 0 <= i < n && m == f.parse.imports[i].source
  {
    if n > 0 {
      ImportsUpToAll(f, n - 1, e, m);
    }
  }

  lemma EdgesAreFresh(f: Source)
    requires f.parse.Parsed?
    ensures EdgesUpTo(f, |f.parse.symbols|) == FreshContains(f)
  {
    forall e ensures e in EdgesUpTo(f, |f.parse.symbols|) <==> e in FreshContains(f) {
      EdgesUpToAll(f, |f.parse.symbols|, e);
      if symbol :| symbol in f.parse.symbols && e == EdgeTo(f, symbol) {
        var i :| 0 <= i < |f.parse.symbols| && f.parse.symbols[i] == symbol;
      }
    }
  }

  lemma ImportsAreFresh(f: Source)
    requires f.parse.Parsed?
    ensures ImportsUpTo(f, |f.parse.imports|) == FreshImports(f)
    ensures SourcesUpTo(f, |f.parse.imports|) == Sources(f)
  {
    forall e ensures e in ImportsUpTo(f, |f.parse.imports|) <==> e in FreshImports(f) {
      ImportsUpToAll(f, |f.parse.imports|, e, "");
      if what :| what in f.parse.imports && e == Imports(PathOf(f), what) {
        var i :| 0 <= i < |f.parse.imports| && f.parse.imports[i] == what;
      }
    }
    forall m ensures m in SourcesUpTo(f, |f.parse.imports|) <==> m in Sources(f) {
      ImportsUpToAll(f, |f.parse.imports|, Imports("", Import("", 0, "")), m);
      if what :| what in f.parse.imports && m == what.source {
        var i :| 0 <= i < |f.parse.imports| && f.parse.imports[i] == what;
      }
    }
  }

  lemma PlusUpdate<K, V>(a: map<K, V>, b: map<K, V>, k: K, v: V)
    ensures (a + b)[k := v] == a + b[k := v]
  {
  }

  lemma PlusOne<T>(a: set<T>, b: set<T>, x: T)
    ensures (a + b) + {x} == a + (b + {x})
  {
  }

  /** What storing the symbols one by one adds up to. */
  lemma {:induction false} StoreSymbolsEffect(s: Store, f: Source, n: nat)
    requires f.parse.Parsed? && n <= |f.parse.symbols| && PathOf(f) in s.files
    ensures StoreSymbols(s, f, n) == s.(symbols := s.symbols + FreshSymbols(f, n), contains := s.contains + EdgesUpTo(f, n))
  {
    if n > 0 {
      var symbol := f.parse.symbols[n - 1];
      StoreSymbolsEffect(s, f, n - 1);
      PlusUpdate(s.symbols, FreshSymbols(f, n - 1), IdOf(f, symbol), NodeOf(f, symbol));
      PlusOne(s.contains, EdgesUpTo(f, n - 1), EdgeTo(f, symbol));
    }
  }

  lemma {:induction false} StoreImportsEffect(s: Store, f: Source, n: nat)
    requires f.parse.Parsed? && n <= |f.parse.imports| && PathOf(f) in s.files
    ensures StoreImports(s, f, n) == s.(imports := s.imports + ImportsUpTo(f, n), modules := s.modules + SourcesUpTo(f, n))
  {
    if n > 0 {
      StoreImportsEffect(s, f, n - 1);
    }
  }

  /** Delete-then-store, field by field. */
  lemma ReindexEffect(s: Store, f: Source, now: int)
    requires f.parse.Parsed?
    ensures var d := DeleteFile(s, PathOf(f));
            Reindex(s, f, now) == Store(
              d.files[PathOf(f) := FileNodeOf(f, now)], d.symbols + Symbols(f), d.contains + FreshContains(f),
              d.imports + FreshImports(f), d.modules + Sources(f))
  {
    var s1 := StoreFile(DeleteFile(s, PathOf(f)), PathOf(f), FileNodeOf(f, now));
    StoreSymbolsEffect(s1, f, |f.parse.symbols|);
    StoreImportsEffect(StoreSymbols(s1, f, |f.parse.symbols|), f, |f.parse.imports|);
    EdgesAreFresh(f);
    ImportsAreFresh(f);
  }

  /** DELETE reaches exactly the file's own symbols. */
  lemma DoomedAreOwn(s: Store, last: Contents, path: string, id: string)
    requires Inv(s, last) && path in last
    ensures id in ContainedIn(s, path) <==> id in Symbols(last[path])
  {
    EdgesMatchSymbols(last[path], id);
    if e :| e in FreshContains(last[path]) && e.id == id { assert e in s.contains; }
  }

  ghost function Drop(last: Contents, path: string): Contents {
    last - {path}
  }

  lemma KeptSymbol(s: Store, last: Contents, path: string, p: string, id: string)
    requires Inv(s, last) && path in last && p in Drop(last, path) && id in Symbols(last[p])
    ensures HasSymbol(DeleteFile(s, path).symbols, last[p], id)
  {
    assert HasSymbol(s.symbols, last[p], id);
    DoomedAreOwn(s, last, path, id);
    if id in Symbols(last[path]) { KeysApart(last[p], last[path], id); }
  }

  lemma KeptSymbolIsOther(s: Store, last: Contents, path: string, id: string)
    requires Inv(s, last) && path in last && id in DeleteFile(s, path).symbols
    ensures id in s.symbols && DeleteFile(s, path).symbols[id] == s.symbols[id]
    ensures s.symbols[id].filePath in Drop(last, path) && id in Symbols(last[s.symbols[id].filePath])
  {
    DoomedAreOwn(s, last, path, id);
  }

  lemma DeleteKeepsSymbols(s: Store, last: Contents, path: string)
    requires Inv(s, last) && path in last
    ensures NoStraySymbols(DeleteFile(s, path).symbols, Drop(last, path))
    ensures AllSymbols(DeleteFile(s, path).symbols, Drop(last, path))
  {
    forall id | id in DeleteFile(s, path).symbols {
      KeptSymbolIsOther(s, last, path, id);
    }
    var rest := Drop(last, path);
    forall p, id | p in rest && id in Symbols(rest[p]) ensures HasSymbol(DeleteFile(s, path).symbols, rest[p], id) {
      KeptSymbol(s, last, path, p, id);
    }
  }

  lemma DeleteKeepsEdge(s: Store, last: Contents, path: string, e: Contains)
    requires Inv(s, last) && path in last
    ensures e in DeleteFile(s, path).contains <==> e.path in Drop(last, path) && e in FreshContains(last[e.path])
  {
    if e in s.contains && e.path != path {
      DoomedAreOwn(s, last, path, e.id);
      EdgesMatchSymbols(last[e.path], e.id);
      if e.id in Symbols(last[path]) { KeysApart(last[e.path], last[path], e.id); }
    }
  }

  lemma DeleteKeepsInv(s: Store, last: Contents, path: string)
    requires Inv(s, last)
    ensures Inv(DeleteFile(s, path), Drop(last, path))
  {
    if path in last {
      DeleteKeepsSymbols(s, last, path);
      forall e { DeleteKeepsEdge(s, last, path, e); }
    } else {
      assert Drop(last, path) == last;
    }
  }

  lemma AddSymbols(symbols: map<string, SymbolNode>, last: Contents, f: Source)
    requires f.parse.Parsed? && Clean(f) && PathOf(f) !in last && SymbolsAgree(symbols, last)
    ensures SymbolsAgree(symbols + Symbols(f), last[PathOf(f) := f])
  {
    var t, last' := symbols + Symbols(f), last[PathOf(f) := f];
    forall id | id in t ensures t[id].filePath in last' && id in Symbols(last'[t[id].filePath]) {
      FreshSymbolKeys(f, |f.parse.symbols|, id);
    }
    forall p, id | p in last' && id in Symbols(last'[p]) ensures HasSymbol(t, last'[p], id) {
      if p != PathOf(f) { assert HasSymbol(symbols, last[p], id); }
      if p != PathOf(f) && id in Symbols(f) { KeysApart(last[p], f, id); }
    }
  }

  lemma AddEdges(contains: set<Contains>, imports: set<Imports>, modules: set<string>, last: Contents, f: Source)
    requires f.parse.Parsed? && Clean(f) && PathOf(f) !in last
    requires ContainsAgree(contains, last) && ImportsAgree(imports, last) && ModulesAgree(modules, last)
    ensures ContainsAgree(contains + FreshContains(f), last[PathOf(f) := f])
    ensures ImportsAgree(imports + FreshImports(f), last[PathOf(f) := f])
    ensures ModulesAgree(modules + Sources(f), last[PathOf(f) := f])
  {
  }

  lemma DeletedFiles(s: Store, last: Contents, f: Source, now: int)
    requires Inv(s, last) && f.parse.Parsed? && Clean(f)
    ensures FilesAgree(DeleteFile(s, PathOf(f)).files[PathOf(f) := FileNodeOf(f, now)], last[PathOf(f) := f])
    ensures Drop(last, PathOf(f))[PathOf(f) := f] == last[PathOf(f) := f]
  {
  }

  /** Re-indexing a file makes the store say what the new content says, whatever was indexed there before. */
  lemma ReindexKeepsInv(s: Store, last: Contents, f: Source, now: int)
    requires Inv(s, last) && f.parse.Parsed? && Clean(f)
    ensures Inv(Reindex(s, f, now), last[PathOf(f) := f])
  {
    var d, rest := DeleteFile(s, PathOf(f)), Drop(last, PathOf(f));
    ReindexEffect(s, f, now);
    DeletedFiles(s, last, f, now);
    assert SymbolsAgree(d.symbols + Symbols(f), rest[PathOf(f) := f]) by {
      DeleteKeepsInv(s, last, PathOf(f));
      AddSymbols(d.symbols, rest, f);
    }
    assert ContainsAgree(d.contains + FreshContains(f), rest[PathOf(f) := f])
      && ImportsAgree(d.imports + FreshImports(f), rest[PathOf(f) := f])
      && ModulesAgree(d.modules + Sources(f), rest[PathOf(f) := f]) by {
      DeleteKeepsInv(s, last, PathOf(f));
      AddEdges(d.contains, d.imports, d.modules, rest, f);
    }
  }

  ghost function Last(ops: seq<Op>): Contents
    requires AllClean(ops)
    ensures forall p :: p in Last(ops) ==> exists op :: op in ops && op.f == Last(ops)[p]
  {
    if ops == [] then map[]
    else
      var op, before := ops[|ops| - 1], Last(ops[..|ops| - 1]);
      assert forall o :: o in ops[..|ops| - 1] ==> o in ops;
      if op.f.parse.Parsed? then before[PathOf(op.f) := op.f] else before
  }

  /** Skipping a file whose hash is stored is right for the new content too: it is the stored content. */
  lemma SkippedIsStored(s: Store, ops: seq<Op>, op: Op)
    requires AllClean(ops) && Inv(s, Last(ops)) && AllClean(ops + [op]) && Skips(s, op) && CollisionFree(ops + [op])
    ensures PathOf(op.f) in Last(ops) && Last(ops)[PathOf(op.f)] == op.f
  {
    var was := Last(ops)[PathOf(op.f)];
    var old_op :| old_op in ops && old_op.f == was;
    assert old_op in ops + [op] && op in ops + [op];
    assert SameFile(op.f, was);
  }

  lemma SkipKeepsInv(s: Store, before: seq<Op>, op: Op)
    requires AllClean(before + [op]) && CollisionFree(before + [op]) && AllClean(before)
    requires Inv(s, Last(before)) && op.f.parse.Parsed? && Skips(s, op)
    ensures Last(before)[PathOf(op.f) := op.f] == Last(before)
  {
    SkippedIsStored(s, before, op);
  }

  lemma IndexKeepsInv(s: Store, before: seq<Op>, op: Op)
    requires AllClean(before + [op]) && CollisionFree(before + [op]) && AllClean(before) && Clean(op.f)
    requires Inv(s, Last(before))
    ensures Inv(Index(s, op), if op.f.parse.Parsed? then Last(before)[PathOf(op.f) := op.f] else Last(before))
  {
    if op.f.parse.Parsed? {
      if Skips(s, op) {
        SkipKeepsInv(s, before, op);
      } else {
        ReindexKeepsInv(s, Last(before), op.f, op.now);
      }
    }
  }

  lemma {:induction false} RunKeepsInv(ops: seq<Op>)
    requires AllClean(ops) && CollisionFree(ops)
    ensures Inv(Run(EMPTY, ops), Last(ops))
  {
    if ops != [] {
      var before, op := ops[..|ops| - 1], ops[|ops| - 1];
      assert ops == before + [op];
      RunKeepsInv(before);
      IndexKeepsInv(Run(EMPTY, before), before, op);
    }
  }

  // ---- Main results ----

  lemma SymbolsDetermined(a: map<string, SymbolNode>, b: map<string, SymbolNode>, last: Contents, id: string)
    requires SymbolsAgree(a, last) && SymbolsAgree(b, last) && id in a
    ensures id in b && b[id] == a[id]
  {
    assert HasSymbol(a, last[a[id].filePath], id) && HasSymbol(b, last[a[id].filePath], id);
  }

  lemma SymbolsWithin(a: map<string, SymbolNode>, b: map<string, SymbolNode>, last: Contents)
    requires SymbolsAgree(a, last) && SymbolsAgree(b, last)
    ensures forall id :: id in a ==> id in b && b[id] == a[id]
  {
    forall id | id in a ensures id in b && b[id] == a[id] { SymbolsDetermined(a, b, last, id); }
  }

  lemma MapsEqual<K, V>(a: map<K, V>, b: map<K, V>)
    requires forall k :: k in a ==> k in b && b[k] == a[k]
    requires forall k :: k in b ==> k in a && a[k] == b[k]
    ensures a == b
  {
    assert a.Keys == b.Keys;
  }

  lemma SymbolMapsEqual(a: map<string, SymbolNode>, b: map<string, SymbolNode>, last: Contents)
    requires SymbolsAgree(a, last) && SymbolsAgree(b, last)
    ensures a == b
  {
    SymbolsWithin(a, b, last);
    SymbolsWithin(b, a, last);
    MapsEqual(a, b);
  }

  lemma EdgesEqual(s: Store, t: Store, last: Contents)
    requires ContainsAgree(s.contains, last) && ContainsAgree(t.contains, last)
    requires ImportsAgree(s.imports, last) && ImportsAgree(t.imports, last)
    ensures s.contains == t.contains && s.imports == t.imports
  {
    forall e: Contains ensures e in s.contains <==> e in t.contains {}
    forall e: Imports ensures e in s.imports <==> e in t.imports {}
  }

  /** The invariant leaves only time stamps and left-over module nodes open. */
  lemma InvDetermines(s: Store, t: Store, last: Contents)
    requires Inv(s, last) && Inv(t, last) && s.modules == t.modules
    ensures SameStore(s, t)
  {
    SymbolMapsEqual(s.symbols, t.symbols, last);
    EdgesEqual(s, t, last);
  }

  lemma ForcedPrefix(ops: seq<Op>)
    requires ops != []
    ensures Forced(ops)[..|ops| - 1] == Forced(ops[..|ops| - 1])
  {
  }

  lemma CleanPrefix(ops: seq<Op>)
    requires ops != [] && AllClean(ops)
    ensures AllClean(ops[..|ops| - 1])
    ensures CollisionFree(ops) ==> CollisionFree(ops[..|ops| - 1])
  {
    forall o | o in ops[..|ops| - 1] ensures o in ops {}
  }

  lemma LastSnoc(ops: seq<Op>, f: Source)
    requires ops != [] && AllClean(ops) && AllClean(ops[..|ops| - 1]) && ops[|ops| - 1].f == f
    ensures Last(ops) == if f.parse.Parsed? then Last(ops[..|ops| - 1])[PathOf(f) := f] else Last(ops[..|ops| - 1])
  {
  }

  lemma {:induction false} SameSourcesSameLast(a: seq<Op>, b: seq<Op>)
    requires AllClean(a) && AllClean(b) && |a| == |b|
    requires forall i :: 0 <= i < |a| ==> a[i].f == b[i].f
    ensures Last(a) == Last(b)
  {
    if a != [] {
      var n := |a| - 1;
      CleanPrefix(a);
      CleanPrefix(b);
      SameSourcesSameLast(a[..n], b[..n]);
      LastSnoc(a, a[n].f);
      LastSnoc(b, a[n].f);
    }
  }

  lemma ForcedLast(ops: seq<Op>)
    requires AllClean(ops) && AllClean(Forced(ops))
    ensures Last(Forced(ops)) == Last(ops)
  {
    SameSourcesSameLast(ops, Forced(ops));
  }

  lemma ReindexModules(s: Store, f: Source, now: int)
    requires f.parse.Parsed?
    ensures Reindex(s, f, now).modules == s.modules + Sources(f)
  {
    ReindexEffect(s, f, now);
  }

  /** A skipped file's modules are in the store already. */
  lemma IndexModules(s: Store, before: seq<Op>, op: Op)
    requires AllClean(before + [op]) && CollisionFree(before + [op]) && AllClean(before) && Clean(op.f)
    requires Inv(s, Last(before)) && op.f.parse.Parsed?
    ensures Index(s, op).modules == s.modules + Sources(op.f)
  {
    if Skips(s, op) {
      SkippedIsStored(s, before, op);
    } else {
      ReindexModules(s, op.f, op.now);
    }
  }

  lemma ForcedStep(ops: seq<Op>)
    requires ops != []
    ensures var op := ops[|ops| - 1];
            Run(EMPTY, Forced(ops)) == Index(Run(EMPTY, Forced(ops[..|ops| - 1])), op.(force := true))
  {
    ForcedPrefix(ops);
  }

  lemma SameModulesStep(s: Store, t: Store, before: seq<Op>, op: Op)
    requires AllClean(before + [op]) && CollisionFree(before + [op]) && AllClean(before) && Clean(op.f)
    requires Inv(s, Last(before)) && s.modules == t.modules
    ensures Index(s, op).modules == Index(t, op.(force := true)).modules
  {
    if op.f.parse.Parsed? {
      IndexModules(s, before, op);
      ReindexModules(t, op.f, op.now);
    }
  }

  lemma {:induction false} SameModules(ops: seq<Op>)
    requires AllClean(ops) && CollisionFree(ops)
    ensures Run(EMPTY, ops).modules == Run(EMPTY, Forced(ops)).modules
  {
    if ops != [] {
      var before, op := ops[..|ops| - 1], ops[|ops| - 1];
      assert ops == before + [op];
      CleanPrefix(ops);
      SameModules(before);
      RunKeepsInv(before);
      ForcedStep(ops);
      SameModulesStep(Run(EMPTY, before), Run(EMPTY, Forced(before)), before, op);
    }
  }

  lemma ForcedIsClean(ops: seq<Op>)
    requires AllClean(ops) && CollisionFree(ops)
    ensures AllClean(Forced(ops)) && CollisionFree(Forced(ops))
  {
    forall a | a in Forced(ops) ensures exists b :: b in ops && b.f == a.f {
      var i :| 0 <= i < |ops| && Forced(ops)[i] == a;
      assert ops[i] in ops;
    }
  }

  /**
   Any mix of forced and hash-skipped indexing of any files leaves the same store as forcing every
   one of them, up to time stamps.
   */
  lemma IncrementalEqualsForced(ops: seq<Op>)
    requires AllClean(ops) && CollisionFree(ops)
    ensures SameStore(Run(EMPTY, ops), Run(EMPTY, Forced(ops)))
  {
    ForcedIsClean(ops);
    RunKeepsInv(ops);
    RunKeepsInv(Forced(ops));
    SameModules(ops);
    ForcedLast(ops);
    InvDetermines(Run(EMPTY, ops), Run(EMPTY, Forced(ops)), Last(ops));
  }

  /** The nodes and edges of one file, its file node up to the time stamp. */
  ghost predicate SameView(s: Store, t: Store, p: string) {
    && (p in s.files <==> p in t.files)
    && (p in s.files && p in t.files ==> SameNode(s.files[p], t.files[p]))
    && (forall id :: SymbolAt(s, p, id) == SymbolAt(t, p, id))
    && (forall e: Contains :: e.path == p ==> (e in s.contains <==> e in t.contains))
    && (forall e: Imports :: e.path == p ==> (e in s.imports <==> e in t.imports))
  }

  /** The symbol node with this id, if it belongs to file `p`. */
  ghost function SymbolAt(s: Store, p: string, id: string): Option<SymbolNode> {
    if id in s.symbols && s.symbols[id].filePath == p then Some(s.symbols[id]) else None
  }

  lemma SymbolAtDetermined(s: Store, last: Contents, p: string, id: string)
    requires SymbolsAgree(s.symbols, last)
    ensures SymbolAt(s, p, id) == if p in last && id in Symbols(last[p]) then Some(Symbols(last[p])[id]) else None
  {
    if p in last {
      FreshSymbolKeys(last[p], |last[p].parse.symbols|, id);
      if id in Symbols(last[p]) { assert HasSymbol(s.symbols, last[p], id); }
    }
  }

  lemma ViewDetermined(s: Store, last: Contents, t: Store, last': Contents, p: string)
    requires Inv(s, last) && Inv(t, last')
    requires (p in last <==> p in last') && (p in last && p in last' ==> last[p] == last'[p])
    ensures SameView(s, t, p)
  {
    forall id ensures SymbolAt(s, p, id) == SymbolAt(t, p, id) {
      SymbolAtDetermined(s, last, p, id);
      SymbolAtDetermined(t, last', p, id);
    }
  }

  lemma RebuildInv(f: Source, now: int) returns (only: Contents)
    requires f.parse.Parsed? && Clean(f)
    ensures only.Keys == {PathOf(f)} && only[PathOf(f)] == f
    ensures Inv(Reindex(EMPTY, f, now), only)
  {
    var none: Contents := map[];
    only := none[PathOf(f) := f];
    ReindexKeepsInv(EMPTY, none, f, now);
  }

  /** After any such run a file's nodes are those of a forced index of its latest content in an empty store. */
  lemma AgreesWithRebuild(ops: seq<Op>, p: string, now: int)
    requires AllClean(ops) && CollisionFree(ops) && p in Last(ops)
    ensures SameView(Run(EMPTY, ops), Reindex(EMPTY, Last(ops)[p], now), p)
  {
    var last := Last(ops);
    var f := last[p];
    RunKeepsInv(ops);
    var only := RebuildInv(f, now);
    ViewDetermined(Run(EMPTY, ops), last, Reindex(EMPTY, f, now), only, p);
  }

  lemma OthersKept(s: Store, before: seq<Op>, op: Op, q: string)
    requires AllClean(before + [op]) && CollisionFree(before + [op]) && AllClean(before) && Clean(op.f)
    requires Inv(s, Last(before)) && q != PathOf(op.f)
    ensures SameView(s, Index(s, op), q)
  {
    IndexKeepsInv(s, before, op);
    var last := Last(before);
    var after: Contents := if op.f.parse.Parsed? then last[PathOf(op.f) := op.f] else last;
    ViewDetermined(s, last, Index(s, op), after, q);
  }

  /** Indexing one file changes no other file's nodes, in its own project or in another. */
  lemma OnlyItsOwnNodes(ops: seq<Op>, op: Op, q: string)
    requires AllClean(ops + [op]) && CollisionFree(ops + [op]) && q != PathOf(op.f)
    ensures SameView(Run(EMPTY, ops), Index(Run(EMPTY, ops), op), q)
  {
    assert (ops + [op])[..|ops|] == ops;
    CleanPrefix(ops + [op]);
    assert Clean(op.f) by { assert op in ops + [op]; }
    RunKeepsInv(ops);
    OthersKept(Run(EMPTY, ops), ops, op, q);
  }

  /** What collision-freedom buys: a colliding new content is never indexed without force. */
  lemma CollisionIsNeverIndexed(s: Store, f: Source, g: Source, t: int, u: int)
    requires Collide(f, g)
    ensures Index(Index(s, Op(f, true, t)), Op(g, false, u)) == Index(s, Op(f, true, t))
  {
    ReindexEffect(s, f, t);
  }

  // ---- The objects ----

  class CodeGraphClient {
    var files: map<string, FileNode>
    var symbols: map<string, SymbolNode>
    var contains: set<Contains>
    var imports: set<Imports>
    var modules: set<string>

    ghost function Abs(): Store
      reads this
    {
      Store(files, symbols, contains, imports, modules)
    }

    constructor ()
      ensures Abs() == EMPTY
    {
      files, symbols, contains, imports, modules := map[], map[], {}, {}, {};
    }

    method GetFile(path: string) returns (node: Option<FileNode>)
      ensures node == if path in files then Some(files[path]) else None
    {
      node := if path in files then Some(files[path]) else None;
    }

    method StoreFileNode(path: string, node: FileNode)
      modifies this
      ensures Abs() == StoreFile(old(Abs()), path, node)
    {
      files := files[path := node];
    }

    method StoreSymbolNode(id: string, node: SymbolNode)
      modifies this
      ensures Abs() == StoreSymbol(old(Abs()), id, node)
    {
      symbols := symbols[id := node];
      if node.filePath in files {
        contains := contains + {Contains(node.filePath, node.symbol.lineStart, id)};
      }
    }

    method StoreImportEdge(path: string, what: Import)
      modifies this
      ensures Abs() == StoreImport(old(Abs()), path, what)
    {
      if path in files {
        modules := modules + {what.source};
        imports := imports + {Imports(path, what)};
      }
    }

    method DeleteFileNodes(path: string)
      modifies this
      ensures Abs() == DeleteFile(old(Abs()), path)
    {
      if path in files {
        var doomed := set e <- contains | e.path == path :: e.id;
        symbols := symbols - doomed;
        contains := set e <- contains | e.path != path && e.id !in doomed;
        imports := set e <- imports | e.path != path;
        files := files - {path};
      }
    }
  }

  class CodeIndexerService {
    const client: CodeGraphClient

    constructor (client: CodeGraphClient)
      ensures this.client == client
    {
      this.client := client;
    }

    /** `_index_file`: false when no parser takes the file or the parse fails. */
    method IndexFile(op: Op) returns (ok: bool)
      modifies client
      ensures client.Abs() == Index(old(client.Abs()), op)
      ensures ok <==> op.f.parse.Parsed?
    {
      var f := op.f;
      if f.parse == ParseError {
        return false;
      }
      var path := PathOf(f);
      if !op.force {
        var existing := client.GetFile(path);
        if existing.Some? && existing.value.hash == f.parse.hash {
          return true;
        }
      }
      client.DeleteFileNodes(path);
      client.StoreFileNode(path, FileNodeOf(f, op.now));
      ghost var s1 := client.Abs();
      for i := 0 to |f.parse.symbols|
        invariant client.Abs() == StoreSymbols(s1, f, i)
      {
        client.StoreSymbolNode(IdOf(f, f.parse.symbols[i]), NodeOf(f, f.parse.symbols[i]));
      }
      ghost var s2 := client.Abs();
      for i := 0 to |f.parse.imports|
        invariant client.Abs() == StoreImports(s2, f, i)
      {
        client.StoreImportEdge(path, f.parse.imports[i]);
      }
      return true;
    }

    /** `index_project`, with the files found below the root if that is a directory. */
    method IndexProject(workspacePath: string, root: string, isDir: bool, ops: seq<Op>) returns (r: IndexResponse)
      modifies client
      ensures client.Abs() == if isDir then Run(old(client.Abs()), ops) else old(client.Abs())
      ensures isDir ==> r.indexed == Parses(ops, |ops|) && r.errors == Failures(root, ops, |ops|)
      ensures !isDir ==> r.indexed == 0 && r.errors == [NotFound(workspacePath, root)]
      ensures r.removed == 0
    {
      if !isDir {
        return IndexResponse(0, 0, [NotFound(workspacePath, root)]);
      }
      var indexed, errors := 0, [];
      for i := 0 to |ops|
        invariant client.Abs() == Run(old(client.Abs()), ops[..i])
        invariant indexed == Parses(ops, i) && errors == Failures(root, ops, i)
      {
        assert ops[..i + 1][..i] == ops[..i];
        var ok := IndexFile(ops[i]);
        if ok {
          indexed := indexed + 1;
        } else {
          errors := errors + [FailedToIndex(root, ops[i].f.raw)];
        }
      }
      assert ops[..|ops|] == ops;
      r := IndexResponse(indexed, 0, errors);
    }
  }

  /** The answer, without its duration. */
  datatype IndexResponse = IndexResponse(indexed: nat, removed: nat, errors: seq<string>)

  function FailedToIndex(root: string, raw: string): string {
    "Failed to index: " + root + "/" + raw
  }

  function NotFound(workspacePath: string, root: string): string {
    "Directory not found: " + workspacePath + " (resolved to " + root + " inside the container)"
  }

  function Parses(ops: seq<Op>, n: nat): nat
    requires n <= |ops|
  {
    if n == 0 then 0 else Parses(ops, n - 1) + if ops[n - 1].f.parse.Parsed? then 1 else 0
  }

  function Failures(root: string, ops: seq<Op>, n: nat): seq<string>
    requires n <= |ops|
  {
    if n == 0 then []
    else Failures(root, ops, n - 1) + if ops[n - 1].f.parse.Parsed? then [] else [FailedToIndex(root, ops[n - 1].f.raw)]
  }

  /** Every file found is counted once, as indexed or as an error. */
  lemma {:induction false} EveryFileCounted(root: string, ops: seq<Op>, n: nat)
    requires n <= |ops|
    ensures Parses(ops, n) + |Failures(root, ops, n)| == n
  {
    if n > 0 { EveryFileCounted(root, ops, n - 1); }
  }
}
