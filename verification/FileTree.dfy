/** A symlink-free file tree over absolute locations, and walking it by a path. */
module FileTree {
  import opened Strings
  import opened Paths
  import opened PathGuard

  datatype Entry = Dir | File(data: string)

  type Tree = map<Location, Entry>

  datatype Found = Missing | There(entry: Entry)

  function At(t: Tree, loc: Location): Found {
    if loc in t then There(t[loc]) else Missing
  }

  predicate IsDir(t: Tree, loc: Location) { At(t, loc) == There(Dir) }

  predicate IsFile(t: Tree, loc: Location) { At(t, loc).There? && At(t, loc).entry.File? }

  function Parent(loc: Location): Location {
    if loc == [] then [] else loc[..|loc| - 1]
  }

  predicate HasParent(t: Tree, loc: Location) { IsDir(t, Parent(loc)) }

  /** The root is a directory and so is the parent of every entry. (Instantiated by mentioning
      HasParent, so that the solver does not climb on its own.) */
  predicate WellFormed(t: Tree) {
    IsDir(t, []) && forall loc {:trigger HasParent(t, loc)} | loc in t :: HasParent(t, loc)
  }

  // ---------------------------------------------------------------- walking

  datatype Walked = NotFound | Reached(loc: Location)

  /** Path resolution in the tree: every component is looked up in an existing directory. */
  function TreeWalk(t: Tree, loc: Location, cs: seq<string>): Walked
    decreases |cs|
  {
    if cs == [] then (if loc in t then Reached(loc) else NotFound)
    else if !IsDir(t, loc) then NotFound
    else TreeWalk(t, Step(loc, cs[0]), cs[1..])
  }

  function TreeLocate(t: Tree, cwd: Location, p: string): Walked {
    TreeWalk(t, if IsAbs(p) then [] else cwd, Split(p, SEP))
  }

  lemma {:induction false} TreeWalkConcat(t: Tree, loc: Location, a: seq<string>, b: seq<string>)
    ensures TreeWalk(t, loc, a).Reached? ==> TreeWalk(t, loc, a + b) == TreeWalk(t, TreeWalk(t, loc, a).loc, b)
    decreases |a|
  {
    if a == [] {
      assert a + b == b;
    } else {
      assert (a + b)[1..] == a[1..] + b;
      TreeWalkConcat(t, Step(loc, a[0]), a[1..], b);
    }
  }

  /** A walk that succeeds ends where the lexical walk does. */
  lemma {:induction false} TreeWalkIsWalk(t: Tree, loc: Location, cs: seq<string>)
    ensures TreeWalk(t, loc, cs).Reached? ==>
              TreeWalk(t, loc, cs).loc == Walk(loc, cs) && Walk(loc, cs) in t
    decreases |cs|
  {
    if cs != [] { TreeWalkIsWalk(t, Step(loc, cs[0]), cs[1..]); }
  }

  /** In a well-formed tree a canonical stack reaches its location iff the location exists. */
  lemma {:induction false} TreeWalkCanonical(t: Tree, loc: Location, stack: seq<string>)
    requires WellFormed(t) && IsDir(t, loc) && Canonical(false, stack)
    ensures TreeWalk(t, loc, stack) ==
            if Walk(loc, stack) in t then Reached(Walk(loc, stack)) else NotFound
    decreases |stack|
  {
    if stack == [] {
    } else {
      var next, rest := Step(loc, stack[0]), stack[1..];
      assert Canonical(false, rest);
      if stack[0] == ".." {
        assert next == Parent(loc) && HasParent(t, loc);
        TreeWalkCanonical(t, next, rest);
      } else {
        NamesOnly(stack);
        DescendFinds(t, next, rest);
        WalkNames(next, rest);
      }
    }
  }

  lemma {:induction false} DescendFinds(t: Tree, loc: Location, names: seq<string>)
    requires WellFormed(t) && Proper(names)
    ensures TreeWalk(t, loc, names) == if loc + names in t then Reached(loc + names) else NotFound
    decreases |names|
  {
    if names == [] {
      assert loc + names == loc;
    } else if !IsDir(t, loc) {
      NothingBelow(t, loc, names);
    } else {
      var c, rest := names[0], names[1..];
      assert Ordinary(c) by { assert c in names; }
      assert Proper(rest) by { assert forall d | d in rest :: d in names; }
      DescendFinds(t, loc + [c], rest);
      assert loc + [c] + rest == loc + names;
    }
  }

  /** Nothing lies below what is not a directory. */
  lemma {:induction false} NothingBelow(t: Tree, loc: Location, names: seq<string>)
    requires WellFormed(t) && !IsDir(t, loc) && names != []
    ensures loc + names !in t
    decreases |names|
  {
    var upper := names[..|names| - 1];
    assert Parent(loc + names) == loc + upper;
    assert loc + names in t ==> HasParent(t, loc + names);
    if upper == [] {
      assert loc + upper == loc;
    } else {
      NothingBelow(t, loc, upper);
    }
  }

  lemma SkipEmpty(t: Tree, loc: Location, c: string, cs: seq<string>)
    requires IsDir(t, loc) && (c == "" || c == ".")
    ensures TreeWalk(t, loc, [c] + cs) == TreeWalk(t, loc, cs)
  {
    assert ([c] + cs)[1..] == cs;
  }

  lemma EmptyRenderedWalk(t: Tree, start: Location, rooted: bool)
    requires IsDir(t, start)
    ensures TreeWalk(t, start, Split(Render(rooted, []), SEP)) == Reached(start)
  {
    if rooted {
      SplitConcat("", "", SEP);
      SkipEmpty(t, start, "", [""]);
      SkipEmpty(t, start, "", []);
      assert [""] + [] == [""];
    } else {
      SplitSingle(".", SEP);
      SkipEmpty(t, start, ".", []);
      assert ["."] + [] == ["."];
    }
  }

  lemma RenderedWalk(t: Tree, start: Location, rooted: bool, stack: seq<string>)
    requires Canonical(rooted, stack) && IsDir(t, start)
    ensures TreeWalk(t, start, Split(Render(rooted, stack), SEP)) == TreeWalk(t, start, stack)
  {
    RenderStack(rooted, stack);
    if stack == [] {
      EmptyRenderedWalk(t, start, rooted);
    } else if rooted {
      SkipEmpty(t, start, "", stack);
    } else {
      assert [] + stack == stack;
    }
  }

  /** A cleaned path resolves iff its location exists. */
  lemma CleanedLocate(t: Tree, cwd: Location, p: string)
    requires WellFormed(t) && IsDir(t, cwd) && Clean(p) == p
    ensures TreeLocate(t, cwd, p) ==
            if Locate(cwd, p) in t then Reached(Locate(cwd, p)) else NotFound
  {
    var start := if IsAbs(p) then [] else cwd;
    StackCanonical(p);
    CleanSameLocation(cwd, p);
    RenderedWalk(t, start, IsAbs(p), Stack(p));
    TreeWalkCanonical(t, start, Stack(p));
  }

  /** Cleaning keeps the node: wherever a path leads in a well-formed symlink-free tree, its
      cleaned form leads too. */
  lemma CleanKeepsNode(t: Tree, cwd: Location, p: string)
    requires WellFormed(t) && IsDir(t, cwd) && TreeLocate(t, cwd, p).Reached?
    ensures TreeLocate(t, cwd, Clean(p)) == TreeLocate(t, cwd, p)
  {
    CleanSameLocation(cwd, p);
    CleanIdempotent(p);
    TreeWalkIsWalk(t, if IsAbs(p) then [] else cwd, Split(p, SEP));
    CleanedLocate(t, cwd, Clean(p));
  }

  /** Not conversely: `a/../b` needs the directory `a`, its cleaned form `b` does not. */
  lemma CleanMayReachMore(a: string, b: string) returns (t: Tree, p: string)
    requires Ordinary(a) && Ordinary(b) && a != b
    ensures p == Join([a, "..", b], SEP) && WellFormed(t)
    ensures TreeLocate(t, [], p) == NotFound && TreeLocate(t, [], Clean(p)) == Reached([b])
  {
    t := map[[] := Dir, [b] := File("")];
    assert Parent([b]) == [];
    p := Join([a, "..", b], SEP);
    SplitJoin([a, "..", b], SEP);
    ClimbBack(a, b);
    assert !IsAbs(p) && [] + [a] == [a];
    assert TreeWalk(t, [], [a, "..", b]) == NotFound;
    CleanIdempotent(p);
    CleanedLocate(t, [], Clean(p));
    CleanSameLocation([], p);
    WalkNames([], [b]);
    assert [] + [b] == [b] && Stack(p) == [b];
    assert Locate([], Clean(p)) == [b] && [b] in t;
  }

  lemma ClimbBack(a: string, b: string)
    requires Ordinary(a) && Ordinary(b)
    ensures PushAll(false, [], [a, "..", b]) == [b]
  {
    var cs := [a, "..", b];
    assert cs[1..] == ["..", b] && ["..", b][1..] == [b] && [b][1..] == [];
    assert [a][..0] == [];
    assert PushAll(false, [], [b]) == [b];
    assert PushAll(false, [a], ["..", b]) == PushAll(false, [], [b]);
  }

  // ---------------------------------------------------------------- creating directories

  /** A file at or above the location. */
  predicate Blocked(t: Tree, loc: Location) {
    exists i :: 0 <= i <= |loc| && IsFile(t, loc[..i])
  }

  function Ancestors(loc: Location): set<Location> {
    set i | 0 <= i <= |loc| :: loc[..i]
  }

  /** The tree with every directory on the way to the location. */
  function WithDirs(t: Tree, loc: Location): Tree {
    t + map l | l in Ancestors(loc) && l !in t :: Dir
  }

  lemma WithDirsAt(t: Tree, loc: Location, l: Location)
    ensures At(WithDirs(t, loc), l) == if l <= loc && l !in t then There(Dir) else At(t, l)
  {
    assert l in Ancestors(loc) <==> l <= loc by {
      if l <= loc { assert l == loc[..|l|]; }
    }
  }

  lemma WithDirsWellFormed(t: Tree, loc: Location)
    requires WellFormed(t) && !Blocked(t, loc)
    ensures WellFormed(WithDirs(t, loc)) && IsDir(WithDirs(t, loc), loc)
  {
    var u := WithDirs(t, loc);
    forall l | l <= loc ensures IsDir(u, l) {
      WithDirsAt(t, loc, l);
      assert l == loc[..|l|];
      assert !IsFile(t, loc[..|l|]);
    }
    forall l | l in u ensures HasParent(u, l) {
      WithDirsAt(t, loc, l);
      assert l in t ==> HasParent(t, l);
      WithDirsAt(t, loc, Parent(l));
      if l <= loc { assert Parent(l) <= loc; }
    }
    assert [] <= loc;
  }

  lemma {:induction false} AboveIsDir(t: Tree, loc: Location, l: Location)
    requires WellFormed(t) && loc in t && l < loc
    ensures IsDir(t, l)
    decreases |loc|
  {
    assert HasParent(t, loc);
    assert l <= Parent(loc);
    if l != Parent(loc) { AboveIsDir(t, Parent(loc), l); }
  }

  /** Creating a directory that exists changes nothing. */
  lemma WithDirsOfDir(t: Tree, loc: Location)
    requires WellFormed(t) && IsDir(t, loc)
    ensures !Blocked(t, loc) && WithDirs(t, loc) == t
  {
    forall i | 0 <= i <= |loc| ensures IsDir(t, loc[..i]) {
      if i < |loc| { AboveIsDir(t, loc, loc[..i]); } else { assert loc[..i] == loc; }
    }
    forall l ensures At(WithDirs(t, loc), l) == At(t, l) {
      WithDirsAt(t, loc, l);
      if l <= loc { assert l == loc[..|l|]; }
    }
    SameEntries(WithDirs(t, loc), t);
  }

  lemma SameEntries(t: Tree, u: Tree)
    requires forall l :: At(t, l) == At(u, l)
    ensures t == u
  {
    forall l ensures l in t <==> l in u { assert At(t, l) == At(u, l); }
    forall l | l in t ensures t[l] == u[l] { assert At(t, l) == At(u, l); }
  }

  /** Writing a file where there is no directory keeps the tree well formed. */
  lemma PutFileWellFormed(t: Tree, loc: Location, data: string)
    requires WellFormed(t) && IsDir(t, Parent(loc)) && !IsDir(t, loc)
    ensures WellFormed(t[loc := File(data)])
  {
    var u := t[loc := File(data)];
    forall l | l in u ensures HasParent(u, l) {
      assert l in t ==> HasParent(t, l);
      if l == loc { assert Parent(loc) != loc; }
    }
  }

  // ---------------------------------------------------------------- when cleaning keeps the node

  function Start(cwd: Location, p: string): Location { if IsAbs(p) then [] else cwd }

  /** Every directory the path goes through exists. */
  predicate WayOpen(t: Tree, loc: Location, cs: seq<string>) {
    forall i | 0 <= i < |cs| :: IsDir(t, Walk(loc, cs[..i]))
  }

  lemma WayOpenHead(t: Tree, loc: Location, cs: seq<string>)
    requires cs != []
    ensures WayOpen(t, loc, cs) <==> IsDir(t, loc) && WayOpen(t, Step(loc, cs[0]), cs[1..])
  {
    forall i | 0 <= i < |cs| - 1 ensures Walk(Step(loc, cs[0]), cs[1..][..i]) == Walk(loc, cs[..i + 1]) {
      assert cs[..i + 1][0] == cs[0] && cs[..i + 1][1..] == cs[1..][..i];
    }
    assert Walk(loc, cs[..0]) == loc;
    if WayOpen(t, loc, cs) {
      assert IsDir(t, Walk(loc, cs[..0]));
      forall i | 0 <= i < |cs[1..]| ensures IsDir(t, Walk(Step(loc, cs[0]), cs[1..][..i])) {
        assert IsDir(t, Walk(loc, cs[..i + 1]));
      }
    }
    if IsDir(t, loc) && WayOpen(t, Step(loc, cs[0]), cs[1..]) {
      forall i | 0 <= i < |cs| ensures IsDir(t, Walk(loc, cs[..i])) {
        if i > 0 { assert IsDir(t, Walk(Step(loc, cs[0]), cs[1..][..i - 1])); }
      }
    }
  }

  /** A walk succeeds iff its end exists and every component on the way is looked up in a
      directory. */
  lemma {:induction false} TreeWalkIff(t: Tree, loc: Location, cs: seq<string>)
    ensures TreeWalk(t, loc, cs).Reached? <==> Walk(loc, cs) in t && WayOpen(t, loc, cs)
    decreases |cs|
  {
    if cs == [] {
    } else {
      WayOpenHead(t, loc, cs);
      TreeWalkIff(t, Step(loc, cs[0]), cs[1..]);
    }
  }

  /** A path and its cleaned form reach the same node, or neither reaches any, iff the path goes
      through existing directories only or leads to nothing. */
  lemma CleanSameNodeIff(t: Tree, cwd: Location, p: string)
    requires WellFormed(t) && IsDir(t, cwd)
    ensures TreeLocate(t, cwd, p) == TreeLocate(t, cwd, Clean(p)) <==>
            (Locate(cwd, p) in t ==> WayOpen(t, Start(cwd, p), Split(p, SEP)))
  {
    TreeWalkIff(t, Start(cwd, p), Split(p, SEP));
    TreeWalkIsWalk(t, Start(cwd, p), Split(p, SEP));
    CleanSameLocation(cwd, p);
    CleanIdempotent(p);
    CleanedLocate(t, cwd, Clean(p));
  }

  /** The stack after the first i components. */
  function StackAt(p: string, i: nat): seq<string>
    requires i <= |Split(p, SEP)|
  {
    PushAll(IsAbs(p), [], Split(p, SEP)[..i])
  }

  /** Decided by the text alone: before each component the path has no name on its stack, or
      stands properly above its destination. */
  predicate Direct(p: string) {
    forall i | 0 <= i < |Split(p, SEP)| :: Names(StackAt(p, i)) == [] || StackAt(p, i) < Stack(p)
  }

  lemma StackAtFacts(cwd: Location, p: string, i: nat)
    requires i <= |Split(p, SEP)|
    ensures Canonical(IsAbs(p), StackAt(p, i))
    ensures Walk(Start(cwd, p), Split(p, SEP)[..i]) == Walk(Start(cwd, p), StackAt(p, i))
  {
    var cs := Split(p, SEP);
    assert forall c | c in cs[..i] :: c in cs;
    PushAllCanonical(IsAbs(p), [], cs[..i]);
    WalkPushAll(IsAbs(p), Start(cwd, p), [], cs[..i]);
  }

  /** A stack without names stays at or above where it starts. */
  lemma WalkUp(loc: Location, rooted: bool, stack: seq<string>)
    requires Canonical(rooted, stack) && Names(stack) == [] && (rooted ==> loc == [])
    ensures Walk(loc, stack) <= loc
  {
    if rooted {
      assert stack == [];
    } else {
      WalkCanonical(loc, stack);
    }
  }

  /** Extending a stack that holds a name goes further down. */
  lemma WalkDown(loc: Location, rooted: bool, lower: seq<string>, stack: seq<string>)
    requires Canonical(rooted, stack) && lower < stack && Names(lower) != []
    ensures Walk(loc, lower) < Walk(loc, stack)
  {
    var rest := stack[|lower|..];
    assert stack == lower + rest;
    WalkConcat(loc, lower, rest);
    var u := Ups(lower);
    assert lower[u] == stack[u];
    forall i | 0 <= i < |rest| ensures Ordinary(rest[i]) {
      assert rest[i] == stack[|lower| + i] && u < |lower| + i;
    }
    WalkNames(Walk(loc, lower), rest);
  }

  lemma UpIsDir(t: Tree, loc: Location, l: Location)
    requires WellFormed(t) && IsDir(t, loc) && l <= loc
    ensures IsDir(t, l)
  {
    if l != loc { AboveIsDir(t, loc, l); }
  }

  lemma DirectIsOpen(t: Tree, cwd: Location, p: string, i: nat)
    requires WellFormed(t) && IsDir(t, cwd) && Locate(cwd, p) in t && Direct(p)
    requires i < |Split(p, SEP)|
    ensures IsDir(t, Walk(Start(cwd, p), Split(p, SEP)[..i]))
  {
    var start, s := Start(cwd, p), StackAt(p, i);
    StackAtFacts(cwd, p, i);
    if Names(s) == [] {
      WalkUp(start, IsAbs(p), s);
      UpIsDir(t, start, Walk(start, s));
    } else {
      StackCanonical(p);
      CleanSameLocation(cwd, p);
      WalkDown(start, IsAbs(p), s, Stack(p));
      AboveIsDir(t, Locate(cwd, p), Walk(start, s));
    }
  }

  /** The tree that holds the directories of `cwd`, and `loc` as a file unless it is above them. */
  function Sparse(cwd: Location, loc: Location): Tree {
    var t := WithDirs(WithDirs(map[[] := Dir], cwd), Parent(loc));
    if loc in t then t else t[loc := File("")]
  }

  lemma SparseHolds(cwd: Location, loc: Location, l: Location)
    ensures IsDir(Sparse(cwd, loc), cwd) && loc in Sparse(cwd, loc)
    ensures l != [] && !(l <= cwd) && !(l < loc) ==> !IsDir(Sparse(cwd, loc), l)
  {
    var root: Tree := map[[] := Dir];
    var t := WithDirs(root, cwd);
    WithDirsAt(root, cwd, l);
    WithDirsAt(t, Parent(loc), l);
    WithDirsAt(root, cwd, cwd);
    WithDirsAt(t, Parent(loc), cwd);
    if l <= Parent(loc) { assert loc != [] ==> l < loc; }
    if l == loc && loc != [] { assert !(loc <= Parent(loc)); }
  }

  lemma SparseWellFormed(cwd: Location, loc: Location)
    ensures WellFormed(Sparse(cwd, loc))
  {
    var root: Tree := map[[] := Dir];
    assert HasParent(root, []);
    WithDirsWellFormed(root, cwd);
    var t := WithDirs(root, cwd);
    forall l ensures !IsFile(t, l) { WithDirsAt(root, cwd, l); }
    WithDirsWellFormed(t, Parent(loc));
    var u := WithDirs(t, Parent(loc));
    if loc !in u { PutFileWellFormed(u, loc, ""); }
  }

  lemma RootedElsewhere(a: seq<string>, b: seq<string>)
    requires Canonical(true, a) && Canonical(true, b) && a != [] && !(a < b)
    ensures Walk([], a) == a && !(a < Walk([], b))
  {
    WalkNames([], a);
    WalkNames([], b);
  }

  /** From a deep directory with one fresh name a stack that holds a name leads neither above that
      directory nor, unless it is a proper prefix, above where another stack leads. */
  lemma ClimbsAway(a: seq<string>, b: seq<string>, f: string, cwd: Location)
    requires Canonical(false, a) && Canonical(false, b) && Names(a) != [] && !(a < b)
    requires |cwd| > |a| + |b| && Repeats(cwd, f) && f !in a && f !in b
    ensures !(Walk(cwd, a) <= cwd) && !(Walk(cwd, a) < Walk(cwd, b))
  {
    NotUpward(a, f, cwd);
    PrefixFromWalks(a, b, f, cwd);
    NotProperly(a, b, Walk(cwd, a), Walk(cwd, b));
  }

  lemma NotProperly(a: seq<string>, b: seq<string>, x: Location, y: Location)
    requires !(a < b) && (x <= y ==> a <= b) && (a == b ==> x == y)
    ensures !(x < y)
  {
  }

  lemma PrefixFromWalks(a: seq<string>, b: seq<string>, f: string, cwd: Location)
    requires Canonical(false, a) && Canonical(false, b) && Names(a) != []
    requires |cwd| > |a| + |b| && Repeats(cwd, f) && f !in a && f !in b
    ensures Walk(cwd, a) <= Walk(cwd, b) ==> a <= b
  {
    if Walk(cwd, a) <= Walk(cwd, b) {
      LastOfCanonical(a);
      RenderStack(false, a);
      RenderStack(false, b);
      RelativeUnder(Render(false, a), Render(false, b), f, cwd);
    }
  }

  lemma LastOfCanonical(a: seq<string>)
    requires Canonical(false, a) && Names(a) != []
    ensures a != [] && a[|a| - 1] != ".."
  {
    assert a[Ups(a)] != "..";
  }

  lemma NotUpward(a: seq<string>, f: string, cwd: Location)
    requires Canonical(false, a) && Names(a) != [] && |cwd| > |a| && f !in a && Repeats(cwd, f)
    ensures !(Walk(cwd, a) <= cwd)
  {
    WalkCanonical(cwd, a);
    var n := |cwd| - Ups(a);
    assert Walk(cwd, a)[n] == Names(a)[0] == a[Ups(a)];
    assert a[Ups(a)] in a;
  }

  /** The paths whose cleaned form reaches the same node in every tree and from every directory
      are exactly the direct ones. */
  lemma KeepsNodeEverywhereIff(p: string)
    ensures (forall t, cwd | WellFormed(t) && IsDir(t, cwd) ::
               TreeLocate(t, cwd, p) == TreeLocate(t, cwd, Clean(p)))
            <==> Direct(p)
  {
    if Direct(p) {
      forall t, cwd | WellFormed(t) && IsDir(t, cwd)
        ensures TreeLocate(t, cwd, p) == TreeLocate(t, cwd, Clean(p))
      {
        CleanSameNodeIff(t, cwd, p);
        if Locate(cwd, p) in t {
          forall i | 0 <= i < |Split(p, SEP)| { DirectIsOpen(t, cwd, p, i); }
        }
      }
    } else {
      var t, cwd := IndirectFails(p);
      assert WellFormed(t) && IsDir(t, cwd);
    }
  }

  lemma IndirectFails(p: string) returns (t: Tree, cwd: Location)
    requires !Direct(p)
    ensures WellFormed(t) && IsDir(t, cwd) && TreeLocate(t, cwd, p) != TreeLocate(t, cwd, Clean(p))
  {
    var i :| 0 <= i < |Split(p, SEP)| && Names(StackAt(p, i)) != [] && !(StackAt(p, i) < Stack(p));
    var a, b := StackAt(p, i), Stack(p);
    cwd := if IsAbs(p) then [] else FreshDir(a + b, |a| + |b| + 1);
    StackAtFacts(cwd, p, i);
    StackCanonical(p);
    if IsAbs(p) {
      RootedElsewhere(a, b);
    } else {
      var f := cwd[0];
      assert f in cwd && f !in a + b;
      ClimbsAway(a, b, f, cwd);
    }
    CleanSameLocation(cwd, p);
    var loc := Locate(cwd, p);
    t := Sparse(cwd, loc);
    SparseHolds(cwd, loc, Walk(cwd, a));
    SparseWellFormed(cwd, loc);
    CleanSameNodeIff(t, cwd, p);
  }
}
