/** What regenerating a stub file guarantees, and when a first run is already final. */
module ShimExportsLaws {
  import opened Common
  import opened ShimExports

  // ---------------------------------------------------------------------------------------
  // One run
  // ---------------------------------------------------------------------------------------

  lemma {:induction false} MissingAre(upstream: seq<Symbol>, names: set<Name>, s: Symbol)
    ensures s in Missing(upstream, names) <==> s in upstream && s.name !in names
  {
    if upstream != [] {
      MissingAre(upstream[1..], names, s);
    }
  }

  lemma StubExports(upstream: seq<Symbol>, names: set<Name>, x: Name)
    ensures x in Direct(Stub(Missing(upstream, names))) <==> x !in names && exists s :: s in upstream && s.name == x
  {
    var missing := Missing(upstream, names);
    if x in Direct(Stub(missing)) {
      var s :| s in missing && s.name == x;
      MissingAre(upstream, names, s);
    }
    if x !in names {
      forall s | s in upstream && s.name == x
        ensures s in missing
      {
        MissingAre(upstream, names, s);
      }
    }
  }

  /** The stub file takes exactly the upstream names that the walk did not find. */
  lemma StubComplementsWalk(files: Files, root: Path, auto: Path, upstream: seq<Symbol>, x: Name)
    requires root in files && root != auto
    ensures x in Direct(Regenerated(files, root, auto, upstream)[auto]) <==>
            x !in Names(files, {auto}, Strip(files[root])) && exists s :: s in upstream && s.name == x
  {
    StubExports(upstream, Names(files, {auto}, Strip(files[root])), x);
  }

  // ---------------------------------------------------------------------------------------
  // What the next run finds
  // ---------------------------------------------------------------------------------------

  /** Star exports that differ at most in the avoided module. */
  ghost predicate AlikeSources(a: Source, b: Source, auto: Path) {
    forall t :: t != auto ==> (t in a.stars <==> t in b.stars)
  }

  ghost predicate Alike(a: Files, b: Files, auto: Path) {
    && (forall n :: n != auto ==> (n in a <==> n in b))
    && (forall n :: n != auto && n in a ==> AlikeSources(a[n], b[n], auto))
  }

  lemma ChainAlike(a: Files, b: Files, auto: Path, from: Source, from': Source, p: seq<Path>)
    requires Alike(a, b, auto) && AlikeSources(from, from', auto) && Chain(a, {auto}, from, p)
    ensures Chain(b, {auto}, from', p)
  {
    forall i | 0 <= i < |p|
      ensures p[i] in b && p[i] !in {auto}
    {
      assert p[i] in a && p[i] !in {auto};
    }
    forall i | 0 < i < |p|
      ensures p[i] in b[p[i - 1]].stars
    {
      assert p[i] in a[p[i - 1]].stars && p[i] !in {auto} && p[i - 1] in a && p[i - 1] !in {auto};
      assert AlikeSources(a[p[i - 1]], b[p[i - 1]], auto);
    }
    assert p[0] in a && p[0] !in {auto};
  }

  lemma ReachableAlike(a: Files, b: Files, auto: Path, from: Source, from': Source, n: Path)
    requires Alike(a, b, auto) && Alike(b, a, auto) && AlikeSources(from, from', auto)
             && AlikeSources(from', from, auto)
    ensures Reachable(a, {auto}, from, n) <==> Reachable(b, {auto}, from', n)
  {
    if Reachable(a, {auto}, from, n) {
      var p :| Chain(a, {auto}, from, p) && p[|p| - 1] == n;
      ChainAlike(a, b, auto, from, from', p);
    }
    if Reachable(b, {auto}, from', n) {
      var p :| Chain(b, {auto}, from', p) && p[|p| - 1] == n;
      ChainAlike(b, a, auto, from', from, p);
    }
  }

  lemma ReachableIsElsewhere(files: Files, auto: Path, from: Source, n: Path)
    requires Reachable(files, {auto}, from, n)
    ensures n in files && n != auto
  {
    var p :| Chain(files, {auto}, from, p) && p[|p| - 1] == n;
    assert p[|p| - 1] in files && p[|p| - 1] !in {auto};
  }

  /** The files with the module already stripped. */
  function Clean(files: Files, root: Path): Files
    requires root in files
  {
    files[root := Strip(files[root])]
  }

  /** The names found when no placeholder of the module itself counts. */
  ghost function OwnNames(files: Files, root: Path, auto: Path): set<Name>
    requires root in files
  {
    Names(Clean(files, root), {auto}, Strip(files[root]))
  }

  /** The module is star-exported by something it star-exports. */
  ghost predicate OnCycle(files: Files, root: Path, auto: Path)
    requires root in files
  {
    Reachable(files, {auto}, files[root], root)
  }

  lemma RegeneratedAlike(files: Files, root: Path, auto: Path, upstream: seq<Symbol>)
    requires root in files && root != auto
    ensures var next := Regenerated(files, root, auto, upstream);
            && Alike(Clean(files, root), next, auto) && Alike(next, Clean(files, root), auto)
            && Alike(files, Clean(files, root), auto) && Alike(Clean(files, root), files, auto)
            && AlikeSources(Strip(files[root]), next[root], auto) && AlikeSources(next[root], Strip(files[root]), auto)
            && Direct(next[root]) == files[root].names && next[root].placeholders == {}
  {
  }

  /** A walk on alike files finds the same names, if the modules other than the stub file export the same. */
  lemma NamesAlike(a: Files, b: Files, auto: Path, from: Source, from': Source)
    requires Alike(a, b, auto) && Alike(b, a, auto) && AlikeSources(from, from', auto)
             && AlikeSources(from', from, auto)
    requires forall n :: n != auto && n in a ==> Direct(a[n]) == Direct(b[n])
    requires Direct(from) == Direct(from')
    ensures Names(a, {auto}, from) == Names(b, {auto}, from')
  {
    forall x
      ensures Provides(a, {auto}, from, x) <==> Provides(b, {auto}, from', x)
    {
      if n :| Reachable(a, {auto}, from, n) && n in a && x in Direct(a[n]) {
        ReachableAlike(a, b, auto, from, from', n);
        ReachableIsElsewhere(a, auto, from, n);
      }
      if n :| Reachable(b, {auto}, from', n) && n in b && x in Direct(b[n]) {
        ReachableAlike(a, b, auto, from, from', n);
        ReachableIsElsewhere(b, auto, from', n);
      }
    }
    NamesAre(a, {auto}, from);
    NamesAre(b, {auto}, from');
  }

  /** The next run finds the module's own names. */
  lemma NextRunFinds(files: Files, root: Path, auto: Path, upstream: seq<Symbol>)
    requires root in files && root != auto
    ensures var next := Regenerated(files, root, auto, upstream);
            && Names(next, {auto}, Strip(next[root])) == OwnNames(files, root, auto)
            && OwnNames(next, root, auto) == OwnNames(files, root, auto)
  {
    var next := Regenerated(files, root, auto, upstream);
    RegeneratedAlike(files, root, auto, upstream);
    assert Strip(next[root]) == next[root] && Clean(next, root) == next;
    NamesAlike(Clean(files, root), next, auto, Strip(files[root]), next[root]);
  }

  /** A run also counts the module's own placeholders, if the walk comes back to the file on disk. */
  lemma RunFinds(files: Files, root: Path, auto: Path, x: Name)
    requires root in files && root != auto
    ensures x in Names(files, {auto}, Strip(files[root])) <==>
            x in OwnNames(files, root, auto) || (OnCycle(files, root, auto) && x in files[root].placeholders)
  {
    var (clean, src) := (Clean(files, root), Strip(files[root]));
    NamesAre(files, {auto}, src);
    NamesAre(clean, {auto}, src);
    ReachableAlike(files, files, auto, files[root], src, root);
    if n :| Reachable(files, {auto}, src, n) && n in files && x in Direct(files[n]) {
      ReachableAlike(files, clean, auto, src, src, n);
      assert n != root ==> x in Direct(clean[n]);
    }
    if n :| Reachable(clean, {auto}, src, n) && n in clean && x in Direct(clean[n]) {
      ReachableAlike(files, clean, auto, src, src, n);
      assert n in files && x in Direct(files[n]);
    }
    if Reachable(files, {auto}, src, root) && x in files[root].placeholders {
      assert x in Direct(files[root]);
    }
  }

  // ---------------------------------------------------------------------------------------
  // Completeness and stability
  // ---------------------------------------------------------------------------------------

  /** Every upstream export is found by a walk or stubbed. */
  ghost predicate Complete(files: Files, root: Path, auto: Path, upstream: seq<Symbol>)
    requires root in files && auto in files
  {
    forall s :: s in upstream ==> s.name in Names(files, {auto}, files[root]) + Direct(files[auto])
  }

  /** No upstream export is provided by nothing but a placeholder that the walk reads back through a cycle. */
  ghost predicate NothingLost(files: Files, root: Path, auto: Path, upstream: seq<Symbol>)
    requires root in files
  {
    OnCycle(files, root, auto) ==>
      forall s :: s in upstream && s.name in files[root].placeholders ==> s.name in OwnNames(files, root, auto)
  }

  lemma StillMissing(files: Files, root: Path, auto: Path, upstream: seq<Symbol>, s: Symbol)
    requires root in files && root != auto && s in upstream
    ensures var next := Regenerated(files, root, auto, upstream);
            s.name in OwnNames(files, root, auto) + Direct(next[auto]) <==>
            s.name in OwnNames(files, root, auto) || !(OnCycle(files, root, auto) && s.name in files[root].placeholders)
  {
    StubComplementsWalk(files, root, auto, upstream, s.name);
    RunFinds(files, root, auto, s.name);
  }

  /** After one run every upstream export is there, exactly when nothing was lost. */
  lemma CompleteExactly(files: Files, root: Path, auto: Path, upstream: seq<Symbol>)
    requires root in files && root != auto
    ensures Complete(Regenerated(files, root, auto, upstream), root, auto, upstream)
            <==> NothingLost(files, root, auto, upstream)
  {
    var next := Regenerated(files, root, auto, upstream);
    NextRunFinds(files, root, auto, upstream);
    RegeneratedAlike(files, root, auto, upstream);
    assert Strip(next[root]) == next[root];
    forall s | s in upstream
      ensures s.name in Names(next, {auto}, next[root]) + Direct(next[auto]) <==>
              s.name in OwnNames(files, root, auto)
              || !(OnCycle(files, root, auto) && s.name in files[root].placeholders)
    {
      StillMissing(files, root, auto, upstream, s);
    }
  }

  /** Nothing is exported both by the stub file and by what the module reaches otherwise. */
  lemma NoAmbiguity(files: Files, root: Path, auto: Path, upstream: seq<Symbol>, x: Name)
    requires root in files && root != auto
    ensures var next := Regenerated(files, root, auto, upstream);
            !(x in Names(next, {auto}, next[root]) && x in Direct(next[auto]))
  {
    var next := Regenerated(files, root, auto, upstream);
    NextRunFinds(files, root, auto, upstream);
    RegeneratedAlike(files, root, auto, upstream);
    assert Strip(next[root]) == next[root];
    StubComplementsWalk(files, root, auto, upstream, x);
    RunFinds(files, root, auto, x);
  }

  lemma SameStub(upstream: seq<Symbol>, a: set<Name>, b: set<Name>)
    requires forall s :: s in upstream ==> (s.name in a <==> s.name in b)
    ensures Missing(upstream, a) == Missing(upstream, b)
  {
    if upstream != [] {
      SameStub(upstream[1..], a, b);
    }
  }

  /** A second run changes nothing, exactly when nothing was lost in the first. */
  lemma StableExactly(files: Files, root: Path, auto: Path, upstream: seq<Symbol>)
    requires root in files && root != auto
    ensures var next := Regenerated(files, root, auto, upstream);
            Regenerated(next, root, auto, upstream) == next <==> NothingLost(files, root, auto, upstream)
  {
    var next := Regenerated(files, root, auto, upstream);
    var again := Regenerated(next, root, auto, upstream);
    var (first, second) := (Names(files, {auto}, Strip(files[root])), OwnNames(files, root, auto));
    NextRunFinds(files, root, auto, upstream);
    RegeneratedAlike(files, root, auto, upstream);
    assert Augment(Strip(next[root]), auto) == next[root];
    forall s | s in upstream
      ensures s.name in first
              <==> s.name in second || (OnCycle(files, root, auto) && s.name in files[root].placeholders)
      ensures s.name in Direct(next[auto]) <==> s.name !in first
      ensures s.name in Direct(again[auto]) <==> s.name !in second
    {
      RunFinds(files, root, auto, s.name);
      StubComplementsWalk(files, root, auto, upstream, s.name);
      StubComplementsWalk(next, root, auto, upstream, s.name);
    }
    if NothingLost(files, root, auto, upstream) {
      SameStub(upstream, first, second);
      assert again == next;
    }
  }

  /** The second run is always final: it is complete, and a third changes nothing. */
  lemma SecondRunIsFinal(files: Files, root: Path, auto: Path, upstream: seq<Symbol>)
    requires root in files && root != auto
    ensures var second := Regenerated(Regenerated(files, root, auto, upstream), root, auto, upstream);
            Complete(second, root, auto, upstream) && Regenerated(second, root, auto, upstream) == second
  {
    var next := Regenerated(files, root, auto, upstream);
    RegeneratedAlike(files, root, auto, upstream);
    assert NothingLost(next, root, auto, upstream);
    CompleteExactly(next, root, auto, upstream);
    StableExactly(next, root, auto, upstream);
  }

  /** Two modules that star-export each other, and a placeholder: a first run drops the export. */
  lemma PlaceholderOnCycleIsLost()
    ensures exists files: Files, root: Path, auto: Path, upstream: seq<Symbol> ::
      root in files && root != auto && !Complete(Regenerated(files, root, auto, upstream), root, auto, upstream)
  {
    var files: Files := map["a" := Source({}, {"x"}, ["b"], false), "b" := Source({}, {}, ["a"], false)];
    var upstream := [Symbol("x", false)];
    TwoOnCycle(files, "a", "b", "auto");
    NobodyExports(Clean(files, "a"), {"auto"}, Strip(files["a"]), "x");
    LossIsIncompleteness(files, "a", "auto", upstream, upstream[0]);
  }

  lemma TwoOnCycle(files: Files, root: Path, other: Path, auto: Path)
    requires root in files && other in files && root != auto && other != auto
    requires other in files[root].stars && root in files[other].stars
    ensures OnCycle(files, root, auto)
  {
    assert Chain(files, {auto}, files[root], [other, root]);
  }

  lemma NobodyExports(files: Files, avoid: set<Path>, from: Source, x: Name)
    requires x !in Direct(from) && forall n :: n in files ==> x !in Direct(files[n])
    ensures x !in Names(files, avoid, from)
  {
  }

  lemma LossIsIncompleteness(files: Files, root: Path, auto: Path, upstream: seq<Symbol>, s: Symbol)
    requires root in files && root != auto && OnCycle(files, root, auto)
    requires s in upstream && s.name in files[root].placeholders && s.name !in OwnNames(files, root, auto)
    ensures !Complete(Regenerated(files, root, auto, upstream), root, auto, upstream)
  {
    CompleteExactly(files, root, auto, upstream);
  }

  /** Completeness is what importers see, as long as the module star-exports its stub file. */
  lemma CompleteIsVisible(files: Files, root: Path, auto: Path, upstream: seq<Symbol>, s: Symbol)
    requires root in files && auto in files && Complete(files, root, auto, upstream) && s in upstream
    requires auto in files[root].stars
    ensures Provides(files, {}, files[root], s.name)
  {
    if s.name in Direct(files[auto]) {
      ReachableStar(files, {}, files[root], auto);
    } else {
      NamesAre(files, {auto}, files[root]);
      if n :| Reachable(files, {auto}, files[root], n) && n in files && s.name in Direct(files[n]) {
        var p :| Chain(files, {auto}, files[root], p) && p[|p| - 1] == n;
        assert Chain(files, {}, files[root], p);
      }
    }
  }

  // ---------------------------------------------------------------------------------------
  // What is written
  // ---------------------------------------------------------------------------------------

  /** Some upstream symbol of this kind and name is not found by the walk. */
  ghost predicate IsStubbed(files: Files, root: Path, auto: Path, upstream: seq<Symbol>, x: Name, isConst: bool)
    requires root in files
  {
    x !in Names(files, {auto}, Strip(files[root])) && Symbol(x, isConst) in upstream
  }

  /** The stub file holds the missing symbols, constants as placeholders, and exports nothing on. */
  lemma StubExactly(files: Files, root: Path, auto: Path, upstream: seq<Symbol>, x: Name)
    requires root in files && root != auto
    ensures var stub := Regenerated(files, root, auto, upstream)[auto];
            && (x in stub.placeholders <==> IsStubbed(files, root, auto, upstream, x, true))
            && (x in stub.names <==> IsStubbed(files, root, auto, upstream, x, false))
            && stub.stars == []
  {
    var names := Names(files, {auto}, Strip(files[root]));
    MissingAre(upstream, names, Symbol(x, true));
    MissingAre(upstream, names, Symbol(x, false));
    var stub := Stub(Missing(upstream, names));
    if x in stub.placeholders {
      var s :| s in Missing(upstream, names) && s.isConst && s.name == x;
      assert s == Symbol(x, true);
    }
    if x in stub.names {
      var s :| s in Missing(upstream, names) && !s.isConst && s.name == x;
      assert s == Symbol(x, false);
    }
  }

  /**
   The module keeps its names and star exports and loses its placeholders; unless the block is already there, it
   star-exports the stub file before everything else. No third file changes.
   */
  lemma ModuleExactly(files: Files, root: Path, auto: Path, upstream: seq<Symbol>, n: Path)
    requires root in files && root != auto
    ensures var next := Regenerated(files, root, auto, upstream);
            && next[root].names == files[root].names && next[root].placeholders == {} && next[root].marked
            && next[root].stars == (if files[root].marked then [] else [auto]) + files[root].stars
            && (n != root && n != auto ==> Get(next, n) == Get(files, n))
  {
    assert [] + files[root].stars == files[root].stars;
  }

  /** When nothing was lost, importers of the module see every upstream export after one run. */
  lemma EverythingIsVisible(files: Files, root: Path, auto: Path, upstream: seq<Symbol>, s: Symbol)
    requires root in files && root != auto && s in upstream
    requires files[root].marked ==> auto in files[root].stars
    requires NothingLost(files, root, auto, upstream)
    ensures var next := Regenerated(files, root, auto, upstream); Provides(next, {}, next[root], s.name)
  {
    var next := Regenerated(files, root, auto, upstream);
    CompleteExactly(files, root, auto, upstream);
    ModuleExactly(files, root, auto, upstream, root);
    CompleteIsVisible(next, root, auto, upstream, s);
  }
}
