/**
 The star-export walk of generate-sdk-shims.ts and the stub file computed from it. A module is what the
 generator reads off its text: the names it exports itself, the placeholder constants among them that
 regeneration strips, its relative star exports in order, and whether the augment block is there.
 */
module ShimExports {
  type Path = string
  type Name = string

  datatype Source = Source(names: set<Name>, placeholders: set<Name>, stars: seq<Path>, marked: bool)

  /** An upstream export; constants are rendered as `undefined` placeholders. */
  datatype Symbol = Symbol(name: Name, isConst: bool)

  type Files = map<Path, Source>

  function Direct(s: Source): set<Name> {
    s.names + s.placeholders
  }

  function Strip(s: Source): Source {
    s.(placeholders := {})
  }

  /** Puts the star export of the stub file first, unless the block is already there. */
  function Augment(s: Source, auto: Path): Source {
    if s.marked then s else s.(marked := true, stars := [auto] + s.stars)
  }

  // ---------------------------------------------------------------------------------------
  // Reachability
  // ---------------------------------------------------------------------------------------

  /** A chain of existing modules, none of them to be avoided, each a star export of the one before. */
  ghost predicate Chain(files: Files, avoid: set<Path>, from: Source, p: seq<Path>) {
    && p != [] && p[0] in from.stars
    && (forall i :: 0 <= i < |p| ==> p[i] in files && p[i] !in avoid)
    && (forall i :: 0 < i < |p| ==> p[i] in files[p[i - 1]].stars)
  }

  ghost predicate Reachable(files: Files, avoid: set<Path>, from: Source, n: Path) {
    exists p :: Chain(files, avoid, from, p) && p[|p| - 1] == n
  }

  /** The module exports the name itself or through a chain. */
  ghost predicate Provides(files: Files, avoid: set<Path>, from: Source, x: Name) {
    || x in Direct(from)
    || exists n :: Reachable(files, avoid, from, n) && n in files && x in Direct(files[n])
  }

  function AllNames(files: Files): set<Name> {
    set n, x | n in files && x in Direct(files[n]) :: x
  }

  ghost function Names(files: Files, avoid: set<Path>, from: Source): set<Name> {
    set x | x in AllNames(files) + Direct(from) && Provides(files, avoid, from, x)
  }

  lemma NamesAre(files: Files, avoid: set<Path>, from: Source)
    ensures forall x :: x in Names(files, avoid, from) <==> Provides(files, avoid, from, x)
  {
  }

  lemma ReachableStar(files: Files, avoid: set<Path>, from: Source, t: Path)
    requires t in from.stars && t in files && t !in avoid
    ensures Reachable(files, avoid, from, t)
  {
    assert Chain(files, avoid, from, [t]);
  }

  lemma ReachableThrough(files: Files, avoid: set<Path>, more: set<Path>, from: Source, t: Path, n: Path)
    requires t in from.stars && t in files && t !in avoid && avoid <= more
    requires Reachable(files, more, files[t], n)
    ensures Reachable(files, avoid, from, n)
  {
    var p :| Chain(files, more, files[t], p) && p[|p| - 1] == n;
    var q := [t] + p;
    forall i | 0 < i < |q|
      ensures q[i] in files[q[i - 1]].stars
    {
      assert q[i] == p[i - 1];
    }
    assert Chain(files, avoid, from, q);
  }

  /** Visited modules that are closed under star exports contain every chain. */
  lemma {:induction false} ClosedContains(files: Files, avoid: set<Path>, from: Source, visited: set<Path>,
                                          p: seq<Path>, i: nat)
    requires Chain(files, avoid, from, p) && i < |p|
    requires StarsIn(from, visited) && Closed(files, visited - avoid, visited)
    ensures p[i] in visited
  {
    if i > 0 {
      ClosedContains(files, avoid, from, visited, p, i - 1);
    }
  }

  ghost predicate StarsIn(s: Source, visited: set<Path>) {
    forall t :: t in s.stars ==> t in visited
  }

  ghost predicate Closed(files: Files, nodes: set<Path>, visited: set<Path>) {
    forall n :: n in nodes && n in files ==> StarsIn(files[n], visited)
  }

  // ---------------------------------------------------------------------------------------
  // The walk
  // ---------------------------------------------------------------------------------------

  ghost predicate AllReachable(files: Files, avoid: set<Path>, from: Source, nodes: set<Path>) {
    forall n :: n in nodes && n in files ==> Reachable(files, avoid, from, n)
  }

  /** Exactly the names of the source and of these modules. */
  ghost predicate NamesOf(files: Files, from: Source, nodes: set<Path>, names: set<Name>) {
    forall x :: x in names <==> x in Direct(from) || exists n :: n in nodes && n in files && x in Direct(files[n])
  }

  lemma NamesGrow(files: Files, from: Source, nodes: set<Path>, names: set<Name>, t: Path, inside: set<Path>,
                  child: set<Name>)
    requires NamesOf(files, from, nodes, names) && t in files && NamesOf(files, files[t], inside, child)
    ensures NamesOf(files, from, nodes + {t} + inside, names + child)
  {
    forall x
      ensures x in names + child <==>
              x in Direct(from) || exists n :: n in nodes + {t} + inside && n in files && x in Direct(files[n])
    {
      if n :| n in nodes + {t} + inside && n in files && x in Direct(files[n]) {
        assert n in nodes || n == t || n in inside;
      }
    }
  }

  lemma ReachableGrows(files: Files, avoid: set<Path>, more: set<Path>, from: Source, nodes: set<Path>, t: Path,
                       inside: set<Path>)
    requires AllReachable(files, avoid, from, nodes)
    requires t in from.stars && t in files && t !in avoid && avoid <= more
    requires AllReachable(files, more, files[t], inside)
    ensures AllReachable(files, avoid, from, nodes + {t} + inside)
  {
    ReachableStar(files, avoid, from, t);
    forall n | n in inside && n in files
      ensures Reachable(files, avoid, from, n)
    {
      ReachableThrough(files, avoid, more, from, t, n);
    }
  }

  class Walk {
    const files: Files
    var visited: set<Path>

    constructor (files: Files, seed: set<Path>)
      ensures this.files == files && visited == seed
    {
      this.files, visited := files, seed;
    }

    method Extract(src: Source) returns (names: set<Name>)
      modifies this
      ensures old(visited) <= visited && StarsIn(src, visited)
      ensures Closed(files, visited - old(visited), visited)
      ensures AllReachable(files, old(visited), src, visited - old(visited))
      ensures NamesOf(files, src, visited - old(visited), names)
      decreases files.Keys - visited
    {
      names := Direct(src);
      ghost var seed := visited;
      for i := 0 to |src.stars|
        invariant seed <= visited && forall t :: t in src.stars[..i] ==> t in visited
        invariant Closed(files, visited - seed, visited)
        invariant AllReachable(files, seed, src, visited - seed)
        invariant NamesOf(files, src, visited - seed, names)
      {
        var target := src.stars[i];
        if target in visited {
          continue;
        }
        ghost var before := visited;
        visited := visited + {target};
        if target !in files {
          NamesOfMissing(files, src, before - seed, names, target);
          assert visited - seed == before - seed + {target};
          continue;
        }
        assert files.Keys - visited < files.Keys - seed by {
          assert target in files.Keys - seed;
        }
        ghost var more := visited;
        var child := Extract(files[target]);
        NamesGrow(files, src, before - seed, names, target, visited - more, child);
        ReachableGrows(files, seed, more, src, before - seed, target, visited - more);
        assert visited - seed == before - seed + {target} + (visited - more);
        names := names + child;
      }
      assert src.stars[..|src.stars|] == src.stars;
    }
  }

  lemma NamesOfMissing(files: Files, from: Source, nodes: set<Path>, names: set<Name>, t: Path)
    requires NamesOf(files, from, nodes, names) && t !in files
    ensures NamesOf(files, from, nodes + {t}, names)
  {
    forall x
      ensures x in names <==> x in Direct(from) || exists n :: n in nodes + {t} && n in files && x in Direct(files[n])
    {
    }
  }

  /** What a finished walk has found is exactly what is reachable without the seeds. */
  lemma WalkFindsExactly(files: Files, seed: set<Path>, src: Source, visited: set<Path>, names: set<Name>)
    requires seed <= visited && StarsIn(src, visited) && Closed(files, visited - seed, visited)
    requires AllReachable(files, seed, src, visited - seed) && NamesOf(files, src, visited - seed, names)
    ensures names == Names(files, seed, src)
  {
    forall n
      ensures Reachable(files, seed, src, n) <==> n in visited - seed && n in files
    {
      if Reachable(files, seed, src, n) {
        var p :| Chain(files, seed, src, p) && p[|p| - 1] == n;
        ClosedContains(files, seed, src, visited, p, |p| - 1);
      }
    }
    NamesAre(files, seed, src);
    forall x
      ensures x in names <==> x in Names(files, seed, src)
    {
      if x in names && x !in Direct(src) {
        var n :| n in visited - seed && n in files && x in Direct(files[n]);
        assert Reachable(files, seed, src, n) && n in files && x in Direct(files[n]);
      }
    }
  }

  method ExtractHandwrittenExports(files: Files, src: Source, auto: Path) returns (names: set<Name>)
    ensures names == Names(files, {auto}, src)
  {
    var walk := new Walk(files, {auto});
    names := walk.Extract(src);
    WalkFindsExactly(files, {auto}, src, walk.visited, names);
  }

  // ---------------------------------------------------------------------------------------
  // Regenerating the stub file of one handwritten module
  // ---------------------------------------------------------------------------------------

  function Missing(upstream: seq<Symbol>, names: set<Name>): seq<Symbol> {
    if upstream == [] then []
    else if upstream[0].name in names then Missing(upstream[1..], names)
    else [upstream[0]] + Missing(upstream[1..], names)
  }

  function Stub(symbols: seq<Symbol>): Source {
    Source(set s | s in symbols && !s.isConst :: s.name, set s | s in symbols && s.isConst :: s.name, [], false)
  }

  function Write(files: Files, root: Path, auto: Path, src: Source, missing: seq<Symbol>): Files {
    files[auto := Stub(missing)][root := Augment(src, auto)]
  }

  ghost function Regenerated(files: Files, root: Path, auto: Path, upstream: seq<Symbol>): Files
    requires root in files
  {
    var src := Strip(files[root]);
    Write(files, root, auto, src, Missing(upstream, Names(files, {auto}, src)))
  }

  method Regenerate(files: Files, root: Path, auto: Path, upstream: seq<Symbol>) returns (written: Files)
    requires root in files
    ensures written == Regenerated(files, root, auto, upstream)
  {
    var src := Strip(files[root]);
    var names := ExtractHandwrittenExports(files, src, auto);
    written := Write(files, root, auto, src, Missing(upstream, names));
  }
}
