/** Lexical Unix paths: Go's path/filepath Clean, Join and Dir as a stack of components, and the
    meaning of a path as a walk over directory locations. */
module Paths {
  import opened Strings

  /** An absolute location: the names on the way down from the root. */
  type Location = seq<string>

  const SEP := '/'

  predicate IsAbs(p: string) { p != "" && p[0] == SEP }

  predicate Ordinary(c: string) { c != "" && c != "." && c != ".." && SEP !in c }

  predicate Proper(loc: Location) { forall c | c in loc :: Ordinary(c) }

  // ---------------------------------------------------------------- the component stack

  /** One component of a path pushed on the stack of those kept so far. */
  function Push(rooted: bool, stack: seq<string>, c: string): seq<string> {
    if c == "" || c == "." then stack
    else if c == ".." then
      if stack != [] && stack[|stack| - 1] != ".." then stack[..|stack| - 1]
      else if rooted then stack
      else stack + [".."]
    else stack + [c]
  }

  function PushAll(rooted: bool, stack: seq<string>, cs: seq<string>): seq<string>
    decreases |cs|
  {
    if cs == [] then stack else PushAll(rooted, Push(rooted, stack, cs[0]), cs[1..])
  }

  function Stack(p: string): seq<string> { PushAll(IsAbs(p), [], Split(p, SEP)) }

  function Render(rooted: bool, stack: seq<string>): string {
    if rooted then [SEP] + Join(stack, SEP)
    else if stack == [] then "."
    else Join(stack, SEP)
  }

  /** filepath.Clean */
  function Clean(p: string): string { Render(IsAbs(p), Stack(p)) }

  /** filepath.Join of two elements: a leading empty element is ignored. */
  function JoinPath(a: string, b: string): string {
    if a != "" then Clean(a + [SEP] + b) else if b != "" then Clean(b) else ""
  }

  /** What a stack can hold: leading `..` components, none if rooted, then ordinary names. */
  predicate Canonical(rooted: bool, stack: seq<string>) {
    && (forall i | 0 <= i < |stack| :: Ordinary(stack[i]) || (stack[i] == ".." && !rooted))
    && (forall i, j | 0 <= i < j < |stack| :: stack[j] == ".." ==> stack[i] == "..")
  }

  lemma {:induction false} PushAllCanonical(rooted: bool, stack: seq<string>, cs: seq<string>)
    requires Canonical(rooted, stack)
    requires forall c | c in cs :: SEP !in c
    ensures Canonical(rooted, PushAll(rooted, stack, cs))
    decreases |cs|
  {
    if cs == [] {
    } else {
      PushAllCanonical(rooted, Push(rooted, stack, cs[0]), cs[1..]);
    }
  }

  lemma StackCanonical(p: string)
    ensures Canonical(IsAbs(p), Stack(p))
  {
    PushAllCanonical(IsAbs(p), [], Split(p, SEP));
  }

  lemma {:induction false} PushAllConcat(rooted: bool, stack: seq<string>, a: seq<string>, b: seq<string>)
    ensures PushAll(rooted, stack, a + b) == PushAll(rooted, PushAll(rooted, stack, a), b)
    decreases |a|
  {
    if a == [] {
      assert a + b == b;
    } else {
      assert (a + b)[1..] == a[1..] + b;
      PushAllConcat(rooted, Push(rooted, stack, a[0]), a[1..], b);
    }
  }

  /** Pushing the upper part of a canonical stack on its lower part rebuilds it. */
  lemma {:induction false} PushCanonical(rooted: bool, lower: seq<string>, upper: seq<string>)
    requires Canonical(rooted, lower + upper)
    ensures PushAll(rooted, lower, upper) == lower + upper
    decreases |upper|
  {
    if upper == [] {
      assert lower + upper == lower;
    } else {
      var whole := lower + upper;
      assert whole[|lower|] == upper[0];
      assert lower != [] ==> whole[|lower| - 1] == lower[|lower| - 1];
      assert Push(rooted, lower, upper[0]) == lower + [upper[0]];
      assert lower + [upper[0]] + upper[1..] == whole;
      PushCanonical(rooted, lower + [upper[0]], upper[1..]);
    }
  }

  lemma RenderEmpty(rooted: bool)
    ensures IsAbs(Render(rooted, [])) == rooted && Stack(Render(rooted, [])) == []
  {
    if rooted {
      SplitConcat("", "", SEP);
      assert "" + [SEP] + "" == Render(true, []);
      PushAllConcat(true, [], [""], [""]);
      assert [""][1..] == [];
    } else {
      SplitSingle(".", SEP);
      assert ["."][1..] == [];
    }
  }

  /** Rendering a canonical stack and reading it back gives the same stack and rootedness. */
  lemma RenderStack(rooted: bool, stack: seq<string>)
    requires Canonical(rooted, stack)
    ensures IsAbs(Render(rooted, stack)) == rooted
    ensures Stack(Render(rooted, stack)) == stack
    ensures stack != [] ==>
            Split(Render(rooted, stack), SEP) == (if rooted then [""] else []) + stack
  {
    PushCanonical(rooted, [], stack);
    assert [] + stack == stack;
    if stack == [] {
      RenderEmpty(rooted);
    } else {
      RenderedPieces(rooted, stack);
      assert ([""] + stack)[1..] == stack;
    }
  }

  lemma RenderedPieces(rooted: bool, stack: seq<string>)
    requires stack != [] && forall c | c in stack :: c != "" && SEP !in c
    ensures IsAbs(Render(rooted, stack)) == rooted
    ensures Split(Render(rooted, stack), SEP) == (if rooted then [""] else []) + stack
  {
    SplitJoin(stack, SEP);
    var text := Join(stack, SEP);
    assert stack[0] in stack && text[0] == stack[0][0];
    if rooted {
      SplitConcat("", text, SEP);
      assert "" + [SEP] + text == Render(rooted, stack);
    } else {
      assert [] + stack == stack;
    }
  }

  lemma CleanIdempotent(p: string)
    ensures Clean(Clean(p)) == Clean(p)
    ensures IsAbs(Clean(p)) == IsAbs(p) && Stack(Clean(p)) == Stack(p)
  {
    StackCanonical(p);
    RenderStack(IsAbs(p), Stack(p));
  }

  /** The components appended to a path are pushed on the stack of what precedes them. */
  lemma StackAppend(a: string, b: string)
    requires a != ""
    ensures IsAbs(a + [SEP] + b) == IsAbs(a)
    ensures Stack(a + [SEP] + b) == PushAll(IsAbs(a), Stack(a), Split(b, SEP))
  {
    SplitConcat(a, b, SEP);
    PushAllConcat(IsAbs(a), [], Split(a, SEP), Split(b, SEP));
  }

  /** filepath.Dir: the cleaned text up to and including the last separator. */
  function DirPath(p: string): string {
    var cs := Split(p, SEP);
    Clean(Join(cs[..|cs| - 1] + [""], SEP))
  }

  lemma JoinedPieces(rooted: bool, names: seq<string>)
    requires forall c | c in names :: c != "" && SEP !in c
    ensures var q := Join((if rooted then [""] else []) + names + [""], SEP);
            IsAbs(q) == rooted && Split(q, SEP) == (if rooted then [""] else []) + names + [""]
  {
    var pieces := (if rooted then [""] else []) + names + [""];
    SplitJoin(pieces, SEP);
    if !rooted && names != [] {
      assert pieces[0] == names[0] && names[0] in names;
      assert names[0][0] in names[0];
      assert Join(pieces, SEP)[0] == names[0][0];
    }
  }

  /** The directory of a cleaned path that ends in a name drops that name. */
  lemma DirPathStack(p: string, upper: seq<string>, name: string)
    requires Clean(p) == p && Stack(p) == upper + [name]
    ensures Clean(DirPath(p)) == DirPath(p) && IsAbs(DirPath(p)) == IsAbs(p)
    ensures Stack(DirPath(p)) == upper
  {
    StackCanonical(p);
    RenderStack(IsAbs(p), Stack(p));
    var root := if IsAbs(p) then [""] else [];
    var cs := Split(p, SEP);
    assert cs == root + upper + [name];
    assert cs[..|cs| - 1] == root + upper;
    assert forall i | 0 <= i < |upper| :: upper[i] == Stack(p)[i];
    JoinedPieces(IsAbs(p), upper);
    var q := Join(root + upper + [""], SEP);
    CleanIdempotent(q);
    PushEmpties(IsAbs(p), upper);
  }

  lemma PushEmpties(rooted: bool, upper: seq<string>)
    requires Canonical(rooted, upper)
    ensures PushAll(rooted, [], (if rooted then [""] else []) + upper + [""]) == upper
  {
    var root := if rooted then [""] else [];
    PushAllConcat(rooted, [], root + upper, [""]);
    PushAllConcat(rooted, [], root, upper);
    PushCanonical(rooted, [], upper);
    assert [] + upper == upper && [""][1..] == [];
  }

  // ---------------------------------------------------------------- what a path means

  /** One step of a walk; the parent of the root is the root. */
  function Step(loc: Location, c: string): Location {
    if c == "" || c == "." then loc
    else if c == ".." then (if loc == [] then [] else loc[..|loc| - 1])
    else loc + [c]
  }

  function Walk(loc: Location, cs: seq<string>): Location
    decreases |cs|
  {
    if cs == [] then loc else Walk(Step(loc, cs[0]), cs[1..])
  }

  /** The location a path names for a process whose working directory is `cwd`. */
  function Locate(cwd: Location, p: string): Location {
    Walk(if IsAbs(p) then [] else cwd, Split(p, SEP))
  }

  lemma {:induction false} WalkConcat(loc: Location, a: seq<string>, b: seq<string>)
    ensures Walk(loc, a + b) == Walk(Walk(loc, a), b)
    decreases |a|
  {
    if a == [] {
      assert a + b == b;
    } else {
      assert (a + b)[1..] == a[1..] + b;
      WalkConcat(Step(loc, a[0]), a[1..], b);
    }
  }

  lemma WalkSnoc(loc: Location, cs: seq<string>, c: string)
    ensures Walk(loc, cs + [c]) == Step(Walk(loc, cs), c)
  {
    WalkConcat(loc, cs, [c]);
    assert [c][1..] == [];
  }

  /** Pushing components and then walking the stack is walking the components. */
  lemma {:induction false} WalkPushAll(rooted: bool, start: Location, stack: seq<string>, cs: seq<string>)
    requires Canonical(rooted, stack) && (rooted ==> start == [])
    requires forall c | c in cs :: SEP !in c
    ensures Walk(start, PushAll(rooted, stack, cs)) == Walk(Walk(start, stack), cs)
    decreases |cs|
  {
    if cs == [] {
    } else {
      var c := cs[0];
      var next := Push(rooted, stack, c);
      assert Canonical(rooted, next);
      WalkPushAll(rooted, start, next, cs[1..]);
      if next == stack + [c] {
        WalkSnoc(start, stack, c);
      } else if next != stack {
        var lower, last := stack[..|stack| - 1], stack[|stack| - 1];
        assert stack == lower + [last];
        WalkSnoc(start, lower, last);
        var at := Walk(start, lower);
        assert (at + [last])[..|at|] == at;
      }
    }
  }

  /** Clean keeps the meaning: from every working directory both forms name one location. */
  lemma CleanSameLocation(cwd: Location, p: string)
    ensures Locate(cwd, Clean(p)) == Locate(cwd, p)
    ensures Locate(cwd, p) == Walk(if IsAbs(p) then [] else cwd, Stack(p))
  {
    var start := if IsAbs(p) then [] else cwd;
    StackCanonical(p);
    WalkPushAll(IsAbs(p), start, [], Split(p, SEP));
    CleanIdempotent(p);
    WalkPushAll(IsAbs(p), start, [], Split(Clean(p), SEP));
  }

  /** What a joined path names: the second read from where the first leads, or the second alone if the
      first is empty. */
  lemma JoinLocation(cwd: Location, a: string, b: string)
    ensures Locate(cwd, JoinPath(a, b)) ==
            if a == "" then Locate(cwd, b) else Walk(Locate(cwd, a), Split(b, SEP))
  {
    if a != "" {
      CleanSameLocation(cwd, a + [SEP] + b);
      SplitConcat(a, b, SEP);
      WalkConcat(if IsAbs(a) then [] else cwd, Split(a, SEP), Split(b, SEP));
    } else if b != "" {
      CleanSameLocation(cwd, b);
    }
  }

  /** The text of a cleaned path: no empty and no `.` component beyond the root, `..` only at the start of
      a relative path, and `.` or `/` if nothing is left. */
  lemma CleanForm(p: string)
    ensures var cs := Split(Clean(p), SEP);
            if Clean(p) == "." then !IsAbs(p) && Stack(p) == []
            else if Clean(p) == "/" then IsAbs(p) && Stack(p) == []
            else
              && (IsAbs(p) ==> |cs| > 1 && cs[0] == "")
              && (forall i | (if IsAbs(p) then 1 else 0) <= i < |cs| :: Ordinary(cs[i]) || (cs[i] == ".." && !IsAbs(p)))
              && (forall i, j | 0 <= i < j < |cs| :: cs[j] == ".." ==> cs[i] == "..")
  {
    StackCanonical(p);
    RenderStack(IsAbs(p), Stack(p));
    if Stack(p) == [] {
      assert Clean(p) == if IsAbs(p) then "/" else ".";
    } else {
      CleanIdempotent(p);
      RenderEmpty(false);
      RenderEmpty(true);
      CanonicalPieces(IsAbs(p), Stack(p));
    }
  }

  lemma CanonicalPieces(rooted: bool, stack: seq<string>)
    requires Canonical(rooted, stack) && stack != []
    ensures var cs := (if rooted then [""] else []) + stack;
            && (forall i | (if rooted then 1 else 0) <= i < |cs| :: Ordinary(cs[i]) || (cs[i] == ".." && !rooted))
            && (forall i, j | 0 <= i < j < |cs| :: cs[j] == ".." ==> cs[i] == "..")
  {
  }

  // ---------------------------------------------------------------- the meaning in closed form

  /** The number of leading `..` components. */
  function Ups(stack: seq<string>): (k: nat)
    ensures k <= |stack|
    ensures forall i | 0 <= i < k :: stack[i] == ".."
    ensures k < |stack| ==> stack[k] != ".."
  {
    if stack == [] || stack[0] != ".." then 0 else 1 + Ups(stack[1..])
  }

  function Names(stack: seq<string>): seq<string> { stack[Ups(stack)..] }

  /** A canonical stack climbs, then descends. */
  lemma {:induction false} WalkCanonical(loc: Location, stack: seq<string>)
    requires Canonical(false, stack)
    ensures Proper(Names(stack))
    ensures Walk(loc, stack) ==
            (if Ups(stack) <= |loc| then loc[..|loc| - Ups(stack)] else []) + Names(stack)
    decreases |stack|
  {
    if stack == [] {
    } else if stack[0] == ".." {
      assert Canonical(false, stack[1..]);
      WalkCanonical(Step(loc, ".."), stack[1..]);
      assert Names(stack) == Names(stack[1..]);
    } else {
      NamesOnly(stack);
      WalkNames(loc, stack);
      assert Names(stack) == stack && loc[..|loc|] == loc;
    }
  }

  lemma NamesOnly(stack: seq<string>)
    requires Canonical(false, stack) && stack != [] && stack[0] != ".."
    ensures Proper(stack) && Proper(stack[1..])
  {
    assert forall j | 0 < j < |stack| :: stack[j] != "..";
  }

  lemma {:induction false} WalkNames(loc: Location, names: seq<string>)
    requires Proper(names)
    ensures Walk(loc, names) == loc + names
    decreases |names|
  {
    if names == [] {
    } else {
      assert forall c | c in names[1..] :: c in names;
      assert Ordinary(names[0]) by { assert names[0] in names; }
      WalkNames(loc + [names[0]], names[1..]);
      assert loc + [names[0]] + names[1..] == loc + names;
    }
  }

  // ---------------------------------------------------------------- telling paths apart

  function MaxLen(names: seq<string>): (m: nat)
    ensures forall c | c in names :: |c| <= m
  {
    if names == [] then 0
    else var m := MaxLen(names[1..]); if |names[0]| > m then |names[0]| else m
  }

  /** A proper working directory of depth `depth` sharing no name with `avoid`. */
  function FreshDir(avoid: seq<string>, depth: nat): (loc: Location)
    ensures |loc| == depth && Proper(loc)
    ensures forall c | c in loc :: c !in avoid
    ensures forall i | 0 <= i < depth :: loc[i] == loc[0]
  {
    var name := seq(MaxLen(avoid) + 1, _ => 'z');
    assert forall c | c in name :: c == 'z';
    assert name[0] == 'z';
    seq(depth, _ => name)
  }

  /** A directory that repeats one name, which tells climbing out of it from going down. */
  ghost predicate Repeats(cwd: Location, name: string) { forall i | 0 <= i < |cwd| :: cwd[i] == name }

  lemma RootedWalk(p: string)
    requires IsAbs(p)
    ensures Walk([], Stack(p)) == Stack(p)
  {
    StackCanonical(p);
    WalkNames([], Stack(p));
  }

  /** A relative path climbs k levels and then goes down the names x. */
  lemma ClimbParts(p: string, f: string, cwd: Location) returns (k: nat, x: seq<string>)
    requires !IsAbs(p) && |cwd| > |Stack(p)| && f !in Stack(p)
    ensures k == Ups(Stack(p)) && k + |x| == |Stack(p)|
    ensures forall i | 0 <= i < |x| :: x[i] == Stack(p)[k + i]
    ensures f !in x
    ensures Walk(cwd, Stack(p)) == cwd[..|cwd| - k] + x
  {
    k, x := Ups(Stack(p)), Names(Stack(p));
    StackCanonical(p);
    WalkCanonical(cwd, Stack(p));
  }

  lemma SameClimb(cwd: Location, f: string, k: nat, x: seq<string>, l: nat, y: seq<string>)
    requires k <= l <= |cwd| && Repeats(cwd, f) && f !in y
    requires cwd[..|cwd| - k] + x == cwd[..|cwd| - l] + y
    ensures k == l && x == y
  {
    if k < l { ClimbsDiffer(cwd, f, k, x, l, y); }
    assert (cwd[..|cwd| - k] + x)[|cwd| - k..] == x;
    assert (cwd[..|cwd| - l] + y)[|cwd| - l..] == y;
  }

  lemma ClimbsDiffer(cwd: Location, f: string, k: nat, x: seq<string>, l: nat, y: seq<string>)
    requires k < l <= |cwd| && Repeats(cwd, f) && f !in y
    ensures cwd[..|cwd| - k] + x != cwd[..|cwd| - l] + y
  {
    var u, v, i := cwd[..|cwd| - k] + x, cwd[..|cwd| - l] + y, |cwd| - l;
    assert u[i] == f;
    if y != [] { assert v[i] == y[0]; }
  }

  lemma StackByParts(a: seq<string>, b: seq<string>, k: nat, x: seq<string>)
    requires k == Ups(a) == Ups(b) && k + |x| == |a| == |b|
    requires forall i | 0 <= i < |x| :: x[i] == a[k + i] && x[i] == b[k + i]
    ensures a == b
  {
    forall i | 0 <= i < |a| ensures a[i] == b[i] {
      if i >= k { assert a[i] == x[i - k] == b[i]; }
    }
  }

  lemma RelativeSame(p: string, q: string, f: string, cwd: Location)
    requires !IsAbs(p) && !IsAbs(q) && |cwd| > |Stack(p)| + |Stack(q)|
    requires Repeats(cwd, f) && f !in Stack(p) && f !in Stack(q)
    requires Walk(cwd, Stack(p)) == Walk(cwd, Stack(q))
    ensures Stack(p) == Stack(q)
  {
    var k, x := ClimbParts(p, f, cwd);
    var l, y := ClimbParts(q, f, cwd);
    if k <= l { SameClimb(cwd, f, k, x, l, y); } else { SameClimb(cwd, f, l, y, k, x); }
    StackByParts(Stack(p), Stack(q), k, x);
  }

  /** From a deep enough fresh directory, only relative paths stay under its first component. */
  lemma RelativeStays(p: string, f: string, cwd: Location)
    requires |cwd| > |Stack(p)| && Repeats(cwd, f) && f !in Stack(p)
    ensures f in Walk(if IsAbs(p) then [] else cwd, Stack(p)) <==> !IsAbs(p)
  {
    if IsAbs(p) {
      RootedWalk(p);
    } else {
      var k, x := ClimbParts(p, f, cwd);
      assert (cwd[..|cwd| - k] + x)[0] == f;
    }
  }

  lemma SameMeaningSameStack(p: string, q: string, f: string, cwd: Location)
    requires |cwd| > |Stack(p)| + |Stack(q)| && Repeats(cwd, f) && f !in Stack(p) && f !in Stack(q)
    requires Locate(cwd, p) == Locate(cwd, q)
    ensures IsAbs(p) == IsAbs(q) && Stack(p) == Stack(q)
  {
    CleanSameLocation(cwd, p);
    CleanSameLocation(cwd, q);
    RelativeStays(p, f, cwd);
    RelativeStays(q, f, cwd);
    if IsAbs(p) {
      RootedWalk(p);
      RootedWalk(q);
    } else {
      RelativeSame(p, q, f, cwd);
    }
  }

  /** The stack is determined by the meaning: two paths have one cleaned form iff they name the
      same location from every proper working directory. */
  lemma CleanCharacterised(p: string, q: string)
    ensures Clean(p) == Clean(q) <==>
            forall cwd | Proper(cwd) :: Locate(cwd, p) == Locate(cwd, q)
  {
    if Clean(p) == Clean(q) {
      forall cwd | Proper(cwd) ensures Locate(cwd, p) == Locate(cwd, q) {
        CleanSameLocation(cwd, p);
        CleanSameLocation(cwd, q);
      }
    }
    if forall cwd | Proper(cwd) :: Locate(cwd, p) == Locate(cwd, q) {
      var sp, sq := Stack(p), Stack(q);
      var cwd := FreshDir(sp + sq, |sp| + |sq| + 1);
      var f := cwd[0];
      assert f in cwd && f !in sp + sq;
      SameMeaningSameStack(p, q, f, cwd);
    }
  }
}
