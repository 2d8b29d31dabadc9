// Flattening a program and everything it imports into one list of items: a
// depth-first walk over the file graph that detects cycles, renames what each
// file defines, and drops definitions it has already taken.
module Imports {
  import opened Ast
  import R = Renaming
  import Renamer

  type Path = string

  // A definition's identity: its file and position, kept by every copy.
  datatype Span = Span(file: Path, at: nat)

  // An import names the file its module path was found at, if any. `Nameless`
  // items (compile-time assertions) have no identity. An initializer or an
  // asserted condition is the trailing expression of an item's body.
  datatype Entry = Import(found: Option<Path>, qualifier: string) | Def(name: string, body: Block, exported: bool) | Nameless(body: Block)

  // A file that does not parse cleanly has no entries to offer.
  datatype File = File(entries: seq<Entry>, clean: bool)

  type Files = map<Path, File>

  datatype Item = Item(span: Option<Span>, flat: string, body: Block)

  datatype Diag = E500(file: Path) | E501 | E503(file: Path, qualifier: string, name: string) | Syntax(file: Path)

  // --- what a file's own items are renamed by ---

  function OwnNames(es: seq<Entry>): set<string> { set e <- es | e.Def? :: e.name }

  function ExportedNames(es: seq<Entry>): set<string> { set e <- es | e.Def? && e.exported :: e.name }

  // What the first `i` entries import, under which qualifiers.
  function ExportsUpTo(files: Files, es: seq<Entry>, i: nat): map<string, set<string>>
    requires i <= |es|
  {
    if i == 0 then map[]
    else
      var (m, e) := (ExportsUpTo(files, es, i - 1), es[i - 1]);
      if e.Import? && e.found.Some? && e.found.value in files then m[e.qualifier := ExportedNames(files[e.found.value].entries)] else m
  }

  function ModuleOf(files: Files, p: Path, prefix: string): R.Module
    requires p in files
  {
    var es := files[p].entries;
    R.Module(OwnNames(es), prefix, ExportsUpTo(files, es, |es|))
  }

  // Nothing in the file refers to what an import does not export.
  ghost predicate Tidy(files: Files, p: Path, prefix: string)
    requires p in files
  {
    forall e <- files[p].entries :: !e.Import? ==> R.BlockErrors(ModuleOf(files, p, prefix), e.body) == []
  }

  // --- the file graph ---

  ghost predicate ImportsFile(files: Files, p: Path, q: Path) {
    p in files && exists e <- files[p].entries :: e.Import? && e.found == Some(q)
  }

  ghost predicate Chain(files: Files, chain: seq<Path>) {
    chain != [] && forall i :: 0 <= i < |chain| - 1 ==> ImportsFile(files, chain[i], chain[i + 1])
  }

  ghost predicate ChainFromTo(files: Files, chain: seq<Path>, p: Path, q: Path) {
    Chain(files, chain) && chain[0] == p && chain[|chain| - 1] == q
  }

  ghost predicate Reach(files: Files, p: Path, q: Path) {
    exists chain :: ChainFromTo(files, chain, p, q)
  }

  ghost predicate DefAt(files: Files, d: Span) {
    d.file in files && d.at < |files[d.file].entries| && files[d.file].entries[d.at].Def?
  }

  ghost predicate Below(files: Files, p: Path, d: Span) { DefAt(files, d) && Reach(files, p, d.file) }

  // The file can be used: it is there, it parses, and its imports are found and
  // refer only to what their own imports export.
  ghost predicate FileOk(files: Files, p: Path) {
    p in files && files[p].clean && forall e <- files[p].entries :: e.Import? ==>
      e.found.Some? && (e.found.value in files ==> Tidy(files, e.found.value, e.qualifier))
  }

  ghost predicate NoRepeat(s: seq<Path>) { forall i, j :: 0 <= i < j < |s| ==> s[i] != s[j] }

  ghost predicate Avoids(s: seq<Path>, v: seq<Path>) { forall x <- s :: x !in v }

  // Nothing reachable from `p` is broken, and no import chain from `p` comes
  // back to a file of its own or of `v`.
  ghost predicate Sound(files: Files, p: Path, v: seq<Path>) {
    forall chain :: Chain(files, chain) && chain[0] == p ==> SoundChain(files, chain, v)
  }

  ghost predicate SoundChain(files: Files, chain: seq<Path>, v: seq<Path>)
    requires chain != []
  {
    FileOk(files, chain[|chain| - 1]) && NoRepeat(chain[1..]) && Avoids(chain[1..], v)
  }

  lemma ReachSelf(files: Files, p: Path)
    ensures Reach(files, p, p)
  {
    assert ChainFromTo(files, [p], p, p);
  }

  lemma ReachThrough(files: Files, p: Path, c: Path, q: Path)
    requires ImportsFile(files, p, c) && Reach(files, c, q)
    ensures Reach(files, p, q)
  {
    var chain :| ChainFromTo(files, chain, c, q);
    var longer := [p] + chain;
    forall i | 0 <= i < |longer| - 1 ensures ImportsFile(files, longer[i], longer[i + 1]) {
      if i > 0 { assert ImportsFile(files, chain[i - 1], chain[i]); }
    }
    assert ChainFromTo(files, longer, p, q);
  }

  // What a file reaches is itself and what its imports reach.
  lemma ReachSplits(files: Files, p: Path, q: Path)
    requires Reach(files, p, q)
    ensures p == q || exists c :: ImportsFile(files, p, c) && Reach(files, c, q)
  {
    var chain :| ChainFromTo(files, chain, p, q);
    if |chain| > 1 {
      assert ImportsFile(files, chain[0], chain[1]);
      TailChain(files, chain);
      assert ChainFromTo(files, chain[1..], chain[1], q);
    }
  }

  lemma TailChain(files: Files, chain: seq<Path>)
    requires Chain(files, chain) && |chain| > 1
    ensures Chain(files, chain[1..])
  {
    forall i | 0 <= i < |chain[1..]| - 1 ensures ImportsFile(files, chain[1..][i], chain[1..][i + 1]) {
      assert ImportsFile(files, chain[i + 1], chain[i + 1 + 1]);
    }
  }

  // Soundness of a file is soundness of each of its imports, one deeper.
  lemma {:induction false} SoundImport(files: Files, p: Path, v: seq<Path>, c: Path)
    requires Sound(files, p, v) && ImportsFile(files, p, c)
    ensures c !in v && Sound(files, c, v + [c])
  {
    assert Chain(files, [p, c]);
    assert SoundChain(files, [p, c], v);
    assert [p, c][1..] == [c];
    forall chain | Chain(files, chain) && chain[0] == c ensures SoundChain(files, chain, v + [c]) {
      var longer := [p] + chain;
      forall i | 0 <= i < |longer| - 1 ensures ImportsFile(files, longer[i], longer[i + 1]) {
        if i > 0 { assert ImportsFile(files, chain[i - 1], chain[i]); }
      }
      assert Chain(files, longer);
      assert SoundChain(files, longer, v);
      assert longer[1..] == chain;
      forall i | 0 <= i < |chain[1..]| ensures chain[1..][i] !in v + [c] {
        assert chain[1..][i] == chain[i + 1] && chain[i + 1] in chain && chain[0] != chain[i + 1];
      }
      assert NoRepeat(chain[1..]);
    }
  }

  lemma {:induction false} SoundFromImports(files: Files, p: Path, v: seq<Path>)
    requires FileOk(files, p) && forall c :: ImportsFile(files, p, c) ==> c !in v && Sound(files, c, v + [c])
    ensures Sound(files, p, v)
  {
    forall chain | Chain(files, chain) && chain[0] == p ensures SoundChain(files, chain, v) {
      if |chain| > 1 {
        var (c, rest) := (chain[1], chain[1..]);
        assert ImportsFile(files, chain[0], chain[1]);
        TailChain(files, chain);
        assert SoundChain(files, rest, v + [c]);
        assert rest == [c] + rest[1..];
        forall i | 0 <= i < |rest| ensures rest[i] !in v && forall j :: i < j < |rest| ==> rest[i] != rest[j] {
          if i > 0 {
            assert rest[i] == rest[1..][i - 1];
            assert rest[1..][i - 1] in rest[1..];
            forall j | i < j < |rest| ensures rest[i] != rest[j] { assert rest[j] == rest[1..][j - 1]; }
          } else {
            forall j | 0 < j < |rest| ensures rest[0] != rest[j] { assert rest[j] == rest[1..][j - 1] && rest[1..][j - 1] in rest[1..]; }
          }
        }
      }
    }
  }

  // --- what the result promises ---

  function SpansOf(items: seq<Item>): set<Span> { set it <- items | it.span.Some? :: it.span.value }

  ghost predicate Distinct(items: seq<Item>) {
    forall i, j :: 0 <= i < j < |items| && items[i].span.Some? ==> items[i].span != items[j].span
  }

  // Every definition comes after all those of the files its own file imports,
  // directly or not.
  ghost predicate Ordered(files: Files, items: seq<Item>) {
    forall j: nat, d: Span :: j < |items| && items[j].span.Some? && d.file != items[j].span.value.file && Below(files, items[j].span.value.file, d)
      ==> d in SpansOf(items[..j])
  }

  function Qualify(prefix: string, name: string): string { if prefix == "" then name else prefix + "." + name }

  // Each definition is named under the qualifier of its file, and its body
  // renamed.
  ghost predicate Named(files: Files, alias: map<Path, string>, items: seq<Item>) {
    forall it <- items :: it.span.Some? ==> NamedItem(files, alias, it)
  }

  ghost predicate NamedItem(files: Files, alias: map<Path, string>, it: Item)
    requires it.span.Some?
  {
    var d := it.span.value;
    DefAt(files, d) && d.file in alias &&
    var e := files[d.file].entries[d.at];
    it.flat == Qualify(alias[d.file], e.name) && it.body == R.RwBlock(ModuleOf(files, d.file, alias[d.file]), e.body)
  }

  // Everybody imports a file under the same qualifier.
  ghost predicate OneAlias(files: Files, alias: map<Path, string>) {
    forall p <- files, e <- files[p].entries :: e.Import? && e.found.Some? ==> e.found.value in alias && alias[e.found.value] == e.qualifier
  }

  // All definitions of the wanted set, each once, in dependency order.
  ghost predicate Flattened(files: Files, items: seq<Item>, wanted: iset<Span>) {
    (forall d :: d in SpansOf(items) <==> d in wanted) && Distinct(items) && Ordered(files, items)
  }

  ghost predicate BelowEntry(files: Files, e: Entry, d: Span) { e.Import? && e.found.Some? && Below(files, e.found.value, d) }

  ghost predicate BelowSome(files: Files, es: seq<Entry>, d: Span) { exists e <- es :: BelowEntry(files, e, d) }

  ghost function BelowImports(files: Files, p: Path, i: nat): iset<Span>
    requires p in files && i <= |files[p].entries|
  {
    iset d: Span | BelowSome(files, files[p].entries[..i], d)
  }

  ghost function BelowAll(files: Files, p: Path): iset<Span> { iset d: Span | Below(files, p, d) }

  // --- the walk ---

  lemma SpansConcat(a: seq<Item>, b: Item)
    ensures SpansOf(a + [b]) == SpansOf(a) + if b.span.Some? then {b.span.value} else {}
  {
    forall d | d in SpansOf(a) ensures d in SpansOf(a + [b]) {
      var it :| it in a && it.span.Some? && it.span.value == d;
      assert it in a + [b];
    }
    if b.span.Some? { assert b in a + [b]; }
  }

  // `it` can be pushed: what its file depends on is already there.
  ghost predicate Supported(files: Files, items: seq<Item>, it: Item) {
    it.span.Some? ==> forall d: Span :: d.file != it.span.value.file && Below(files, it.span.value.file, d) ==> d in SpansOf(items)
  }

  method PushUnique(items: seq<Item>, seen: set<Span>, it: Item) returns (r: seq<Item>, s: set<Span>)
    ensures (it.span.Some? && it.span.value in seen) ==> r == items && s == seen
    ensures !(it.span.Some? && it.span.value in seen) ==> r == items + [it] && s == seen + if it.span.Some? then {it.span.value} else {}
  {
    r, s := items, seen;
    match it.span {
      case Some(d) =>
        if d !in seen {
          s := s + {d};
          r := r + [it];
        }
      case None => r := r + [it];
    }
  }

  // One more item, unless its definition is already there.
  lemma Pushed(files: Files, alias: map<Path, string>, items: seq<Item>, it: Item)
    requires Distinct(items) && Ordered(files, items) && Supported(files, items, it)
    requires !(it.span.Some? && it.span.value in SpansOf(items))
    ensures Distinct(items + [it]) && Ordered(files, items + [it])
    ensures SpansOf(items + [it]) == SpansOf(items) + if it.span.Some? then {it.span.value} else {}
    ensures Named(files, alias, items) && Named(files, alias, [it]) ==> Named(files, alias, items + [it])
  {
    SpansConcat(items, it);
    var n := items + [it];
    forall i, j | 0 <= i < j < |n| && n[i].span.Some? ensures n[i].span != n[j].span {
      if j == |items| { assert items[i] in items; }
    }
    forall j: nat, d: Span | j < |n| && n[j].span.Some? && d.file != n[j].span.value.file && Below(files, n[j].span.value.file, d)
      ensures d in SpansOf(n[..j])
    {
      if j < |items| { assert n[..j] == items[..j]; } else { assert n[..j] == items; }
    }
    if Named(files, alias, items) && Named(files, alias, [it]) { assert it in [it]; }
  }

  class ImportResolver {
    const files: Files
    var diags: seq<Diag>
    var visiting: seq<Path>
    // Parses that can be used again, whatever has gone wrong since.
    var cache: set<Path>

    ghost predicate Valid()
      reads this
    {
      forall p <- cache :: p in files && files[p].clean
    }

    constructor (files: Files)
      ensures this.files == files && diags == [] && visiting == [] && cache == {}
    {
      this.files := files;
      diags, visiting, cache := [], [], {};
    }

    method LoadAndParse(p: Path) returns (r: Option<File>)
      requires Valid()
      modifies this`diags, this`cache
      ensures Valid() && old(diags) <= diags
      ensures r.Some? ==> p in files && r.value == files[p] && files[p].clean
      ensures old(diags) == [] ==> (diags == [] <==> r.Some?) && (r.Some? <==> p in files && files[p].clean)
    {
      if p in cache { return Some(files[p]); }
      if p !in files {
        diags := diags + [E501];
        return None;
      }
      if !files[p].clean { diags := diags + [Syntax(p)]; }
      if diags != [] { return None; }
      cache := cache + {p};
      return Some(files[p]);
    }

    // Whether the file was entered. One that is already being visited is not.
    method CheckCycle(p: Path) returns (pushed: bool)
      modifies this`diags, this`visiting
      ensures pushed <==> p !in old(visiting)
      ensures pushed ==> visiting == old(visiting) + [p] && diags == old(diags)
      ensures !pushed ==> visiting == old(visiting) && diags == old(diags) + [E500(p)]
    {
      if p in visiting {
        diags := diags + [E500(p)];
        pushed := false;
      } else {
        visiting := visiting + [p];
        pushed := true;
      }
    }

    method MergeChild(items0: seq<Item>, seen0: set<Span>, child: seq<Item>, ghost alias: map<Path, string>) returns (items: seq<Item>, seen: set<Span>)
      requires seen0 == SpansOf(items0)
      ensures seen == SpansOf(items)
      ensures Distinct(items0) && Ordered(files, items0) && Distinct(child) && Ordered(files, child) ==>
        Distinct(items) && Ordered(files, items) && SpansOf(items) == SpansOf(items0) + SpansOf(child)
        && (Named(files, alias, items0) && Named(files, alias, child) ==> Named(files, alias, items))
    {
      items, seen := items0, seen0;
      ghost var good := Distinct(items0) && Ordered(files, items0) && Distinct(child) && Ordered(files, child);
      for i := 0 to |child|
        invariant seen == SpansOf(items)
        invariant good ==> Distinct(items) && Ordered(files, items) && SpansOf(items) == SpansOf(items0) + SpansOf(child[..i])
        invariant good && Named(files, alias, items0) && Named(files, alias, child) ==> Named(files, alias, items)
      {
        var it := child[i];
        assert child[..i + 1] == child[..i] + [it];
        SpansConcat(child[..i], it);
        SpansConcat(items, it);
        if good && !(it.span.Some? && it.span.value in seen) {
          forall d: Span | it.span.Some? && d.file != it.span.value.file && Below(files, it.span.value.file, d) ensures d in SpansOf(items) {
            assert d in SpansOf(child[..i]);
          }
          Pushed(files, alias, items, it);
        }
        items, seen := PushUnique(items, seen, it);
      }
      assert child[..|child|] == child;
    }

    // What is still to be visited; entering a file makes it smaller.
    ghost function Unvisited(): set<Path>
      reads this
    {
      set p <- files | p !in visiting
    }

    // The imports of `p` up to `i`, all usable one level deeper.
    ghost predicate ImportsSound(p: Path, i: nat, v: seq<Path>)
      requires p in files && i <= |files[p].entries|
    {
      forall j :: 0 <= j < i && files[p].entries[j].Import? ==> ImportSound(files[p].entries[j], v)
    }

    ghost predicate ImportSound(e: Entry, v: seq<Path>)
      requires e.Import?
    {
      && e.found.Some? && e.found.value in files && files[e.found.value].clean && Tidy(files, e.found.value, e.qualifier)
      && e.found.value !in v && Sound(files, e.found.value, v + [e.found.value])
    }

    lemma AllImportsSound(p: Path, v: seq<Path>)
      requires p in files && files[p].clean
      ensures ImportsSound(p, |files[p].entries|, v) <==> Sound(files, p, v)
    {
      var es := files[p].entries;
      if ImportsSound(p, |es|, v) {
        forall e | e in es && e.Import? ensures ImportSound(e, v) { var j :| 0 <= j < |es| && es[j] == e; }
        SoundFromImports(files, p, v);
      }
      if Sound(files, p, v) {
        assert Chain(files, [p]);
        assert SoundChain(files, [p], v);
        forall j | 0 <= j < |es| && es[j].Import? ensures ImportSound(es[j], v) {
          assert es[j] in es;
          var c := es[j].found.value;
          SoundImport(files, p, v, c);
          assert Chain(files, [c]);
          assert SoundChain(files, [c], v + [c]);
        }
      }
    }

    // The imports up to `i` have been flattened into `items`.
    ghost predicate ImportsDone(p: Path, i: nat, items: seq<Item>, seen: set<Span>)
      requires p in files && i <= |files[p].entries|
    {
      seen == SpansOf(items) && Flattened(files, items, BelowImports(files, p, i))
    }

    lemma OneMore(p: Path, i: nat, items: seq<Item>, child: seq<Item>, merged: seq<Item>)
      requires p in files && i < |files[p].entries| && Flattened(files, items, BelowImports(files, p, i))
      requires var e := files[p].entries[i];
        if e.Import? then e.found.Some? && Flattened(files, child, BelowAll(files, e.found.value)) else child == []
      requires Distinct(merged) && Ordered(files, merged) && SpansOf(merged) == SpansOf(items) + SpansOf(child)
      ensures Flattened(files, merged, BelowImports(files, p, i + 1))
    {
      var e := files[p].entries[i];
      assert files[p].entries[..i + 1] == files[p].entries[..i] + [e];
      forall d ensures d in SpansOf(merged) <==> d in BelowImports(files, p, i + 1) {
        assert d in BelowImports(files, p, i + 1) <==> d in BelowImports(files, p, i) || BelowEntry(files, e, d);
        if !e.Import? { assert !BelowEntry(files, e, d) && SpansOf(child) == {}; }
      }
    }

    // Flattens `p`, which is being visited, under `prefix`. Nothing goes wrong
    // exactly when everything reachable is usable, no chain comes back, and no
    // reference is to what is not exported; then every definition reachable is
    // there once, after all it depends on. The stack of visited files is left as
    // it was found, error or not.
    method ResolveImports(p: Path, prefix: string, ghost alias: map<Path, string>) returns (items: seq<Item>)
      requires Valid() && p in files && files[p].clean
      modifies this
      ensures Valid() && visiting == old(visiting) && old(diags) <= diags
      ensures old(diags) == [] ==> (diags == [] <==> Sound(files, p, visiting) && Tidy(files, p, prefix))
      ensures diags == [] ==> Flattened(files, items, BelowAll(files, p))
      ensures diags == [] && OneAlias(files, alias) && p in alias && alias[p] == prefix ==> Named(files, alias, items)
      decreases Unvisited(), 1
    {
      var es := files[p].entries;
      items := [];
      var seen: set<Span> := {};
      var own: seq<Item> := [];
      var exports: map<string, set<string>> := map[];
      for i := 0 to |es|
        invariant Valid() && visiting == old(visiting) && old(diags) <= diags
        invariant old(diags) == [] ==> (diags == [] <==> ImportsSound(p, i, visiting))
        invariant seen == SpansOf(items)
        invariant diags == [] ==> ImportsDone(p, i, items, seen) && exports == ExportsUpTo(files, es, i)
        invariant diags == [] && OneAlias(files, alias) ==> Named(files, alias, items)
        invariant own == OwnItems(es, i, p)
      {
        match es[i] {
          case Import(_, _) =>
            items, seen, exports := ResolveEntry(p, i, items, seen, exports, alias);
          case Def(name, body, _) =>
            own := own + [Item(Some(Span(p, i)), name, body)];
            if diags == [] { OneMore(p, i, items, [], items); }
          case Nameless(body) =>
            own := own + [Item(None, "", body)];
            if diags == [] { OneMore(p, i, items, [], items); }
        }
      }
      AllImportsSound(p, visiting);
      var m := R.Module(OwnNames(es), prefix, exports);
      ghost var before := diags;
      own := RenameOwn(m, p, own);
      if before == [] { TidyExactly(p, prefix); }
      items := PushOwn(p, prefix, items, seen, own, alias);
    }

    // The file's own items renamed, and their export violations reported.
    method RenameOwn(m: R.Module, p: Path, own: seq<Item>) returns (r: seq<Item>)
      modifies this`diags
      ensures r == RenamedItems(m, own) && diags == old(diags) + Violations(p, ItemErrors(m, own, |own|))
    {
      var renamer := new Renamer.Renamer(m);
      r := [];
      for i := 0 to |own|
        invariant fresh(renamer) && renamer.m == m && renamer.errors == ItemErrors(m, own, i) && |r| == i && diags == old(diags)
        invariant forall j :: 0 <= j < i ==> r[j] == RenamedItem(m, own[j])
      {
        var body := renamer.RewriteBlock(own[i].body);
        r := r + [own[i].(flat := if own[i].span.Some? then m.Map(own[i].flat) else own[i].flat, body := body)];
      }
      diags := diags + Violations(p, renamer.errors);
    }

    static function Violations(p: Path, errors: seq<(string, string)>): (r: seq<Diag>)
      ensures |r| == |errors|
    {
      seq(|errors|, i requires 0 <= i < |errors| => E503(p, errors[i].0, errors[i].1))
    }

    static function RenamedItem(m: R.Module, it: Item): Item {
      it.(flat := if it.span.Some? then m.Map(it.flat) else it.flat, body := R.RwBlock(m, it.body))
    }

    static function RenamedItems(m: R.Module, own: seq<Item>): (r: seq<Item>)
      ensures |r| == |own|
    {
      seq(|own|, i requires 0 <= i < |own| => RenamedItem(m, own[i]))
    }

    static function ItemErrors(m: R.Module, own: seq<Item>, i: nat): seq<(string, string)>
      requires i <= |own|
    {
      if i == 0 then [] else ItemErrors(m, own, i - 1) + R.BlockErrors(m, own[i - 1].body)
    }

    // The file is tidy exactly when renaming its items reports nothing.
    lemma TidyExactly(p: Path, prefix: string)
      requires p in files
      ensures var (es, m) := (files[p].entries, ModuleOf(files, p, prefix));
        Tidy(files, p, prefix) <==> ItemErrors(m, OwnItems(es, |es|, p), |OwnItems(es, |es|, p)|) == []
    {
      var (es, m) := (files[p].entries, ModuleOf(files, p, prefix));
      ErrorsUpTo(es, |es|, p, m);
      if Tidy(files, p, prefix) {
        forall k | 0 <= k < |es| && !es[k].Import? ensures R.BlockErrors(m, es[k].body) == [] { assert es[k] in es; }
      }
    }

    lemma {:induction false} ErrorsUpTo(es: seq<Entry>, i: nat, p: Path, m: R.Module)
      requires i <= |es|
      ensures ItemErrors(m, OwnItems(es, i, p), |OwnItems(es, i, p)|) == [] <==>
        forall k :: 0 <= k < i && !es[k].Import? ==> R.BlockErrors(m, es[k].body) == []
      decreases i
    {
      if i > 0 {
        ErrorsUpTo(es, i - 1, p, m);
        if es[i - 1].Def? {
          OneMoreErrors(m, OwnItems(es, i - 1, p), Item(Some(Span(p, i - 1)), es[i - 1].name, es[i - 1].body));
        } else if es[i - 1].Nameless? {
          OneMoreErrors(m, OwnItems(es, i - 1, p), Item(None, "", es[i - 1].body));
        }
      }
    }

    lemma OneMoreErrors(m: R.Module, own: seq<Item>, it: Item)
      ensures ItemErrors(m, own + [it], |own| + 1) == ItemErrors(m, own, |own|) + R.BlockErrors(m, it.body)
    {
      assert (own + [it])[..|own|] == own;
      ErrorsOfPrefix(m, own, own + [it], |own|);
    }

    lemma {:induction false} ErrorsOfPrefix(m: R.Module, a: seq<Item>, b: seq<Item>, i: nat)
      requires i <= |a| <= |b| && b[..|a|] == a
      ensures ItemErrors(m, b, i) == ItemErrors(m, a, i)
      decreases i
    {
      if i > 0 {
        ErrorsOfPrefix(m, a, b, i - 1);
        assert b[i - 1] == b[..|a|][i - 1];
      }
    }

    // One import: found, entered, loaded, flattened and merged, or reported.
    method ResolveEntry(p: Path, i: nat, items0: seq<Item>, seen0: set<Span>, exports0: map<string, set<string>>, ghost alias: map<Path, string>)
      returns (items: seq<Item>, seen: set<Span>, exports: map<string, set<string>>)
      requires Valid() && p in files && i < |files[p].entries| && files[p].entries[i].Import? && seen0 == SpansOf(items0)
      requires diags == [] ==> ImportsDone(p, i, items0, seen0) && exports0 == ExportsUpTo(files, files[p].entries, i)
      requires diags == [] && OneAlias(files, alias) ==> Named(files, alias, items0)
      modifies this
      ensures Valid() && visiting == old(visiting) && old(diags) <= diags
      ensures old(diags) == [] ==> (diags == [] <==> ImportSound(files[p].entries[i], visiting))
      ensures seen == SpansOf(items)
      ensures diags == [] ==> ImportsDone(p, i + 1, items, seen) && exports == ExportsUpTo(files, files[p].entries, i + 1)
      ensures diags == [] && OneAlias(files, alias) ==> Named(files, alias, items)
      decreases Unvisited(), 0
    {
      var e := files[p].entries[i];
      items, seen, exports := items0, seen0, exports0;
      if e.found == None {
        diags := diags + [E501];
        return;
      }
      var c := e.found.value;
      var pushed := CheckCycle(c);
      if !pushed { return; }
      var loaded := LoadAndParse(c);
      if loaded == None {
        visiting := visiting[..|visiting| - 1];
        return;
      }
      exports := exports[e.qualifier := ExportedNames(loaded.value.entries)];
      assert c in old(Unvisited()) && c !in Unvisited();
      var child := ResolveImports(c, e.qualifier, alias);
      visiting := visiting[..|visiting| - 1];
      assert e in files[p].entries;
      items, seen := MergeChild(items, seen, child, alias);
      if diags == [] { OneMore(p, i, items0, child, items); }
    }

    // This file's own items, so far, as they stand in it.
    static function OwnItems(es: seq<Entry>, i: nat, p: Path): seq<Item>
      requires i <= |es|
    {
      if i == 0 then []
      else
        match es[i - 1]
        case Import(_, _) => OwnItems(es, i - 1, p)
        case Def(name, body, _) => OwnItems(es, i - 1, p) + [Item(Some(Span(p, i - 1)), name, body)]
        case Nameless(body) => OwnItems(es, i - 1, p) + [Item(None, "", body)]
    }

    lemma {:induction false} OwnItemsAre(es: seq<Entry>, i: nat, p: Path)
      requires i <= |es|
      ensures forall it <- OwnItems(es, i, p) :: it.span.Some? ==>
        it.span.value.file == p && it.span.value.at < i && es[it.span.value.at].Def? && it.flat == es[it.span.value.at].name && it.body == es[it.span.value.at].body
      ensures forall k :: 0 <= k < i && es[k].Def? ==> Span(p, k) in SpansOf(OwnItems(es, i, p))
      decreases i
    {
      if i > 0 {
        OwnItemsAre(es, i - 1, p);
        if es[i - 1].Def? { SpansConcat(OwnItems(es, i - 1, p), Item(Some(Span(p, i - 1)), es[i - 1].name, es[i - 1].body)); }
        if es[i - 1].Nameless? { SpansConcat(OwnItems(es, i - 1, p), Item(None, "", es[i - 1].body)); }
      }
    }

    // The same of the renamed items, which are the file's own under its prefix.
    lemma {:induction false} RenamedAre(files: Files, p: Path, prefix: string, own: seq<Item>)
      requires p in files && own == RenamedItems(ModuleOf(files, p, prefix), OwnItems(files[p].entries, |files[p].entries|, p))
      ensures SpansOf(own) == SpansOf(OwnItems(files[p].entries, |files[p].entries|, p))
      ensures forall it <- own :: it.span.Some? ==> it.span.value.file == p && DefAt(files, it.span.value) && NamedItem(files, map[p := prefix], it)
    {
      var (es, m) := (files[p].entries, ModuleOf(files, p, prefix));
      var raw := OwnItems(es, |es|, p);
      OwnItemsAre(es, |es|, p);
      forall d ensures d in SpansOf(own) <==> d in SpansOf(raw) {
        if d in SpansOf(own) { var it :| it in own && it.span == Some(d); var i :| 0 <= i < |own| && own[i] == it; assert raw[i] in raw && raw[i].span == Some(d); }
        if d in SpansOf(raw) { var it :| it in raw && it.span == Some(d); var i :| 0 <= i < |raw| && raw[i] == it; assert own[i] in own && own[i].span == Some(d); }
      }
      forall it | it in own && it.span.Some? ensures it.span.value.file == p && DefAt(files, it.span.value) && NamedItem(files, map[p := prefix], it) {
        var i :| 0 <= i < |own| && own[i] == it;
        assert raw[i] in raw && es[it.span.value.at] in es;
      }
    }

    // Then the file's own items, after everything imported.
    method PushOwn(p: Path, prefix: string, items0: seq<Item>, seen0: set<Span>, own: seq<Item>, ghost alias: map<Path, string>) returns (items: seq<Item>)
      requires p in files && seen0 == SpansOf(items0)
      requires diags == [] ==> own == RenamedItems(ModuleOf(files, p, prefix), OwnItems(files[p].entries, |files[p].entries|, p))
      requires diags == [] ==> ImportsDone(p, |files[p].entries|, items0, seen0)
      requires diags == [] && OneAlias(files, alias) ==> Named(files, alias, items0)
      ensures diags == [] ==> Flattened(files, items, BelowAll(files, p))
      ensures diags == [] && OneAlias(files, alias) && p in alias && alias[p] == prefix ==> Named(files, alias, items)
    {
      items := items0;
      var seen := seen0;
      if diags == [] { RenamedAre(files, p, prefix, own); }
      ghost var named := OneAlias(files, alias) && p in alias && alias[p] == prefix;
      for i := 0 to |own|
        invariant seen == SpansOf(items)
        invariant diags == [] ==> Distinct(items) && Ordered(files, items) && SpansOf(items) == SpansOf(items0) + SpansOf(own[..i])
        invariant diags == [] && named ==> Named(files, alias, items)
      {
        var it := own[i];
        assert it in own;
        assert own[..i + 1] == own[..i] + [it];
        SpansConcat(own[..i], it);
        SpansConcat(items, it);
        if diags == [] && !(it.span.Some? && it.span.value in seen) {
          if it.span.Some? { OwnSupported(p, items0, it); }
          Pushed(files, alias, items, it);
        }
        items, seen := PushUnique(items, seen, it);
      }
      assert own[..|own|] == own;
      if diags == [] {
        forall d ensures d in SpansOf(items) <==> d in BelowAll(files, p) { AllBelow(p, d, items0); }
      }
    }

    lemma OwnSupported(p: Path, items0: seq<Item>, it: Item)
      requires p in files && Flattened(files, items0, BelowImports(files, p, |files[p].entries|)) && it.span.Some? && it.span.value.file == p
      ensures Supported(files, items0, it)
    {
      forall d: Span | d.file != p && Below(files, p, d) ensures d in SpansOf(items0) { BelowSplits(p, d); }
    }

    lemma BelowSplits(p: Path, d: Span)
      requires p in files
      ensures Below(files, p, d) <==> (d.file == p && DefAt(files, d)) || d in BelowImports(files, p, |files[p].entries|)
    {
      var es := files[p].entries;
      assert es[..|es|] == es;
      ReachSelf(files, p);
      if Below(files, p, d) && d.file != p {
        ReachSplits(files, p, d.file);
        var c :| ImportsFile(files, p, c) && Reach(files, c, d.file);
        var e :| e in es && e.Import? && e.found == Some(c);
        assert BelowEntry(files, e, d);
      }
      if d in BelowImports(files, p, |es|) {
        var e :| e in es[..|es|] && BelowEntry(files, e, d);
        ReachThrough(files, p, e.found.value, d.file);
      }
    }

    lemma AllBelow(p: Path, d: Span, items0: seq<Item>)
      requires p in files && Flattened(files, items0, BelowImports(files, p, |files[p].entries|))
      ensures d in SpansOf(items0) + SpansOf(OwnItems(files[p].entries, |files[p].entries|, p)) <==> d in BelowAll(files, p)
    {
      OwnItemsAre(files[p].entries, |files[p].entries|, p);
      BelowSplits(p, d);
    }

    // The whole program, from its root file.
    method Resolve(root: Path, ghost alias: map<Path, string>) returns (items: seq<Item>)
      requires Valid() && visiting == [] && diags == [] && root in files && files[root].clean
      modifies this
      ensures diags == [] <==> Sound(files, root, [root]) && Tidy(files, root, "")
      ensures diags == [] ==> Flattened(files, items, BelowAll(files, root))
      ensures diags == [] && OneAlias(files, alias) && root in alias && alias[root] == "" ==> Named(files, alias, items)
    {
      visiting := visiting + [root];
      items := ResolveImports(root, "", alias);
    }
  }

  // At the root, soundness says that nothing reachable is broken and that no
  // import chain repeats a file.
  lemma SoundRoot(files: Files, root: Path)
    ensures Sound(files, root, [root]) <==> forall chain :: Chain(files, chain) && chain[0] == root ==> FileOk(files, chain[|chain| - 1]) && NoRepeat(chain)
  {
    forall chain | Chain(files, chain) && chain[0] == root
      ensures SoundChain(files, chain, [root]) <==> FileOk(files, chain[|chain| - 1]) && NoRepeat(chain)
    {
      assert chain == [root] + chain[1..];
      if SoundChain(files, chain, [root]) {
        forall i, j | 0 <= i < j < |chain| ensures chain[i] != chain[j] {
          assert chain[j] == chain[1..][j - 1] && chain[1..][j - 1] in chain[1..];
          if i > 0 { assert chain[i] == chain[1..][i - 1]; }
        }
      }
      if NoRepeat(chain) {
        forall i | 0 <= i < |chain[1..]| ensures chain[1..][i] !in [root] { assert chain[1..][i] == chain[i + 1]; }
      }
    }
  }
}
