/** The lexical containment check (internal/pathguard) shared by the plugin sandbox and the job
    runner, and what it decides about the locations that paths name. */
module PathGuard {
  import opened Strings
  import opened Paths

  datatype Resolved = Inside(path: string) | Escape

  predicate Within(p: string, base: string) {
    p == base || base + [SEP] <= p
  }

  function Resolve(base: string, name: string): Resolved {
    if IsAbs(name) then Escape
    else
      var full := JoinPath(base, name);
      if Within(full, base) then Inside(full) else Escape
  }

  predicate Cleaned(p: string) { Clean(p) == p }

  /** The last component of the base is an ordinary name: not `.`, `/` or a run of `..`. */
  predicate OrdinaryBase(base: string) {
    var s := Stack(base);
    s != [] && s[|s| - 1] != ".."
  }

  /** The named location lies at or under the base's, from whatever directory both are read. */
  ghost predicate Under(base: string, p: string) {
    forall cwd | Proper(cwd) :: Locate(cwd, base) <= Locate(cwd, p)
  }

  /** What the name denotes, before any cleaning. */
  function Destination(base: string, name: string): string { base + [SEP] + name }

  // ---------------------------------------------------------------- strings and components

  lemma CleanedSplit(p: string)
    requires Cleaned(p)
    ensures p != ""
    ensures Stack(p) != [] ==> Split(p, SEP) == (if IsAbs(p) then [""] else []) + Stack(p)
    ensures Stack(p) == [] ==> |p| == 1
  {
    StackCanonical(p);
    RenderStack(IsAbs(p), Stack(p));
  }

  lemma DropCommon<T>(root: seq<T>, a: seq<T>, b: seq<T>, c: seq<T>)
    requires root + a == root + b + c
    ensures a == b + c
  {
    assert (root + a)[|root|..] == a;
    assert (root + b + c)[|root|..] == b + c;
  }

  lemma StringPrefixToComponents(p: string, base: string)
    requires Cleaned(p) && Cleaned(base) && Stack(base) != [] && base + [SEP] <= p
    ensures IsAbs(p) == IsAbs(base) && Stack(base) <= Stack(p)
  {
    CleanedSplit(p);
    CleanedSplit(base);
    var rest := p[|base| + 1..];
    assert p == base + [SEP] + rest;
    SplitConcat(base, rest, SEP);
    assert p[0] == base[0];
    DropCommon(if IsAbs(p) then [""] else [], Stack(p), Stack(base), Split(rest, SEP));
  }

  lemma RenderExtended(rooted: bool, stack: seq<string>, rest: seq<string>)
    requires stack != [] && rest != []
    ensures Render(rooted, stack + rest) == Render(rooted, stack) + [SEP] + Join(rest, SEP)
  {
    JoinConcat(stack, rest, SEP);
  }

  /** On cleaned paths the string test is the component test: `/srv/jobs-evil` is not within
      `/srv/jobs`, because `jobs` and `jobs-evil` are different components. */
  lemma WithinIffComponents(p: string, base: string)
    requires Cleaned(p) && Cleaned(base) && OrdinaryBase(base)
    ensures Within(p, base) <==> IsAbs(p) == IsAbs(base) && Stack(base) <= Stack(p)
  {
    if base + [SEP] <= p { StringPrefixToComponents(p, base); }
    var sb, sp := Stack(base), Stack(p);
    if IsAbs(p) == IsAbs(base) && sb <= sp && sb != sp {
      var rest := sp[|sb|..];
      assert sp == sb + rest;
      RenderExtended(IsAbs(p), sb, rest);
    }
  }

  lemma JoinedStack(base: string, name: string)
    requires Cleaned(base)
    ensures JoinPath(base, name) == Clean(Destination(base, name))
    ensures Cleaned(JoinPath(base, name)) && IsAbs(JoinPath(base, name)) == IsAbs(base)
    ensures Stack(JoinPath(base, name)) == Stack(Destination(base, name))
    ensures Stack(Destination(base, name)) == PushAll(IsAbs(base), Stack(base), Split(name, SEP))
  {
    CleanedSplit(base);
    CleanIdempotent(Destination(base, name));
    StackAppend(base, name);
  }

  // ---------------------------------------------------------------- components and locations

  lemma FreshNotPrefix(cwd: Location, f: string, k: nat, a: seq<string>, l: nat, b: seq<string>)
    requires k <= |cwd| && l <= |cwd| && k != l && a != []
    requires Repeats(cwd, f) && f !in a && f !in b
    ensures !(cwd[..|cwd| - k] + a <= cwd[..|cwd| - l] + b)
  {
    var x, y := cwd[..|cwd| - k] + a, cwd[..|cwd| - l] + b;
    var i := |cwd| - if k < l then l else k;
    if k < l {
      assert x[i] == cwd[i];
      if b != [] { assert y[i] == b[0]; }
    } else {
      assert x[i] == a[0] && y[i] == cwd[i];
    }
  }

  lemma SameClimbPrefix(cwd: Location, k: nat, a: seq<string>, b: seq<string>)
    requires k <= |cwd| && cwd[..|cwd| - k] + a <= cwd[..|cwd| - k] + b
    ensures a <= b
  {
    var n := |cwd| - k;
    var x, y := cwd[..n] + a, cwd[..n] + b;
    assert y[..|x|] == x && x[n..] == a && y[n..] == b;
    assert y[n..][..|a|] == y[..|x|][n..];
  }

  lemma ClimbPrefix(cwd: Location, f: string, k: nat, a: seq<string>, l: nat, b: seq<string>)
    requires k <= |cwd| && l <= |cwd| && a != []
    requires Repeats(cwd, f) && f !in a && f !in b
    requires cwd[..|cwd| - k] + a <= cwd[..|cwd| - l] + b
    ensures k == l && a <= b
  {
    if k != l { FreshNotPrefix(cwd, f, k, a, l, b); }
    SameClimbPrefix(cwd, k, a, b);
  }

  lemma RelativeUnder(base: string, p: string, f: string, cwd: Location)
    requires !IsAbs(base) && !IsAbs(p) && OrdinaryBase(base)
    requires |cwd| > |Stack(base)| + |Stack(p)|
    requires Repeats(cwd, f) && f !in Stack(base) && f !in Stack(p)
    requires Walk(cwd, Stack(base)) <= Walk(cwd, Stack(p))
    ensures Stack(base) <= Stack(p)
  {
    var k, x := ClimbParts(base, f, cwd);
    var l, y := ClimbParts(p, f, cwd);
    ClimbPrefix(cwd, f, k, x, l, y);
    PrefixByParts(Stack(base), Stack(p), k, x, y);
  }

  lemma PrefixByParts(a: seq<string>, b: seq<string>, k: nat, x: seq<string>, y: seq<string>)
    requires k == Ups(a) == Ups(b) && k + |x| == |a| && k + |y| == |b| && x <= y
    requires forall i | 0 <= i < |x| :: x[i] == a[k + i]
    requires forall i | 0 <= i < |y| :: y[i] == b[k + i]
    ensures a <= b
  {
    forall i | 0 <= i < |a| ensures i < |b| && a[i] == b[i] {
      if i >= k { assert a[i] == x[i - k] && y[i - k] == b[i]; }
    }
  }

  lemma UnderToComponents(base: string, p: string)
    requires OrdinaryBase(base) && IsAbs(p) == IsAbs(base) && Under(base, p)
    ensures Stack(base) <= Stack(p)
  {
    var sb, sp := Stack(base), Stack(p);
    var cwd := FreshDir(sb + sp, |sb| + |sp| + 1);
    var name := cwd[0];
    assert name in cwd && name !in sb + sp;
    CleanSameLocation(cwd, base);
    CleanSameLocation(cwd, p);
    assert Locate(cwd, base) <= Locate(cwd, p);
    if IsAbs(base) {
      RootedWalk(base);
      RootedWalk(p);
    } else {
      RelativeUnder(base, p, name, cwd);
    }
  }

  lemma ComponentsToUnder(base: string, p: string)
    requires OrdinaryBase(base) && IsAbs(p) == IsAbs(base) && Stack(base) <= Stack(p)
    ensures Under(base, p)
  {
    var sb, sp := Stack(base), Stack(p);
    StackCanonical(p);
    var rest := sp[|sb|..];
    assert sp == sb + rest;
    assert forall i | 0 <= i < |rest| :: rest[i] == sp[|sb| + i];
    assert sp[|sb| - 1] == sb[|sb| - 1];
    assert Proper(rest);
    forall cwd | Proper(cwd) ensures Locate(cwd, base) <= Locate(cwd, p) {
      var start := if IsAbs(base) then [] else cwd;
      CleanSameLocation(cwd, base);
      CleanSameLocation(cwd, p);
      WalkConcat(start, sb, rest);
      WalkNames(Walk(start, sb), rest);
    }
  }

  /** For an ordinary base, lying at or under it is having its components as a prefix. */
  lemma UnderIffComponents(base: string, p: string)
    requires OrdinaryBase(base) && IsAbs(p) == IsAbs(base)
    ensures Under(base, p) <==> Stack(base) <= Stack(p)
  {
    if Under(base, p) { UnderToComponents(base, p); }
    if Stack(base) <= Stack(p) { ComponentsToUnder(base, p); }
  }

  // ---------------------------------------------------------------- containment is exact

  /** For an ordinary base, a relative name resolves iff its destination lies at or under the
      base, and it resolves to the cleaned path of that destination. */
  lemma ResolveExact(base: string, name: string)
    requires Cleaned(base) && OrdinaryBase(base)
    ensures IsAbs(name) ==> Resolve(base, name) == Escape
    ensures !IsAbs(name) ==>
              Resolve(base, name) == (if Under(base, Destination(base, name))
                                      then Inside(Clean(Destination(base, name))) else Escape)
  {
    JoinedStack(base, name);
    WithinIffComponents(JoinPath(base, name), base);
    UnderIffComponents(base, Destination(base, name));
  }

  /** Whatever the base: an absolute name is refused, and an accepted one yields the cleaned path of its
      destination, which lies within the base by the text. */
  lemma ResolveRule(base: string, name: string)
    requires Cleaned(base)
    ensures IsAbs(name) ==> Resolve(base, name) == Escape
    ensures !IsAbs(name) ==>
              var full := Clean(base + "/" + name);
              Resolve(base, name) == if full == base || base + "/" <= full then Inside(full) else Escape
  {
    CleanedSplit(base);
  }

  ghost predicate ExactOn(base: string, name: string) {
    Resolve(base, name).Inside? <==> Under(base, Destination(base, name))
  }

  lemma UpsOnly(stack: seq<string>)
    requires Canonical(false, stack) && (stack == [] || stack[|stack| - 1] == "..")
    ensures Ups(stack) == |stack| && Names(stack) == []
  {
  }

  /** `.` and `/` reject the name `x`, which lies under them. */
  lemma EmptyStackRejects(base: string)
    requires Cleaned(base) && Stack(base) == []
    ensures !ExactOn(base, "x")
  {
    CleanedSplit(base);
    JoinedStack(base, "x");
    SplitSingle("x", SEP);
    assert ["x"][1..] == [];
    CleanedSplit(JoinPath(base, "x"));
    assert Stack(JoinPath(base, "x")) == ["x"];
    var full := JoinPath(base, "x");
    assert full == Render(IsAbs(base), ["x"]);
    assert full == if IsAbs(base) then "/x" else "x";
    assert base == if IsAbs(base) then "/" else ".";
    forall cwd | Proper(cwd) ensures Locate(cwd, base) <= Locate(cwd, Destination(base, "x")) {
      var start := if IsAbs(base) then [] else cwd;
      CleanSameLocation(cwd, base);
      SplitConcat(base, "x", SEP);
      WalkConcat(start, Split(base, SEP), ["x"]);
    }
  }

  /** A base of `..` components accepts the name `..`, which climbs above it. */
  lemma ClimbingBaseAccepts(base: string)
    requires Cleaned(base) && Stack(base) != [] && !OrdinaryBase(base)
    ensures !ExactOn(base, "..")
  {
    var s, climb := Stack(base), "..";
    ClimbedStack(base, climb);
    JoinConcat(s, [climb], SEP);
    assert JoinPath(base, climb) == base + [SEP] + climb;
    assert Within(JoinPath(base, climb), base);
    var cwd := FreshDir([], |s| + 1);
    CleanSameLocation(cwd, base);
    CleanSameLocation(cwd, Destination(base, climb));
    ClimbsLength(cwd, s);
    ClimbsLength(cwd, s + [climb]);
    assert |Locate(cwd, base)| == 1 && |Locate(cwd, Destination(base, climb))| == 0;
  }

  lemma ClimbedStack(base: string, climb: string)
    requires Cleaned(base) && Stack(base) != [] && !OrdinaryBase(base) && climb == ".."
    ensures !IsAbs(base) && Canonical(false, Stack(base)) && Canonical(false, Stack(base) + [climb])
    ensures Stack(JoinPath(base, climb)) == Stack(Destination(base, climb)) == Stack(base) + [climb]
  {
    StackCanonical(base);
    assert !IsAbs(base);
    StackCanonical(JoinPath(base, climb));
    JoinedStack(base, climb);
    SplitSingle(climb, SEP);
    PushClimb(Stack(base), climb);
  }

  lemma PushClimb(s: seq<string>, climb: string)
    requires s != [] && s[|s| - 1] == climb == ".."
    ensures PushAll(false, s, [climb]) == s + [climb]
  {
    assert [climb][1..] == [];
  }

  lemma ClimbsLength(cwd: Location, s: seq<string>)
    requires Canonical(false, s) && s != [] && s[|s| - 1] == ".." && |s| <= |cwd|
    ensures |Walk(cwd, s)| == |cwd| - |s|
  {
    UpsOnly(s);
    WalkCanonical(cwd, s);
  }

  /** The cleaned bases without an ordinary last component. */
  lemma OrdinaryBaseFailsIff(base: string)
    requires Cleaned(base)
    ensures !OrdinaryBase(base) <==>
            base == "." || base == "/" || (forall c | c in Split(base, SEP) :: c == "..")
  {
    CleanedSplit(base);
    StackCanonical(base);
    if Stack(base) == [] {
      assert base == if IsAbs(base) then "/" else ".";
    } else {
      StackOfCleaned(base);
    }
  }

  lemma ClimbingStack(rooted: bool, s: seq<string>)
    requires Canonical(rooted, s) && s != [] && s[|s| - 1] == ".."
    ensures !rooted && forall c | c in s :: c == ".."
  {
  }

  lemma StackOfCleaned(base: string)
    requires Cleaned(base) && Stack(base) != []
    ensures base != "." && base != "/"
    ensures OrdinaryBase(base) <==> exists c | c in Split(base, SEP) :: c != ".."
  {
    EmptyBases();
    CleanedSplit(base);
    if OrdinaryBase(base) {
      LastComponent(base);
    } else {
      StackCanonical(base);
      ClimbingStack(IsAbs(base), Stack(base));
      assert Split(base, SEP) == Stack(base);
    }
  }

  lemma LastComponent(base: string)
    requires Cleaned(base) && OrdinaryBase(base)
    ensures exists c | c in Split(base, SEP) :: c != ".."
  {
    CleanedSplit(base);
    var cs := Split(base, SEP);
    assert cs[|cs| - 1] in cs;
  }

  lemma EmptyBases()
    ensures Stack(".") == [] && Stack("/") == []
  {
    RenderStack(false, []);
    RenderStack(true, []);
  }

  /** Containment is exact for all relative names iff the base's last component is an ordinary
      name; the cleaned bases left out are `.`, `/` and the runs of `..`. */
  lemma ResolveExactIffOrdinary(base: string)
    requires Cleaned(base)
    ensures (forall name | !IsAbs(name) :: ExactOn(base, name)) <==>
            !(base == "." || base == "/" || (forall c | c in Split(base, SEP) :: c == ".."))
  {
    OrdinaryBaseFailsIff(base);
    if OrdinaryBase(base) {
      forall name | !IsAbs(name) ensures ExactOn(base, name) { ResolveExact(base, name); }
    } else if Stack(base) == [] {
      EmptyStackRejects(base);
      assert !IsAbs("x");
    } else {
      ClimbingBaseAccepts(base);
      assert !IsAbs("..");
    }
  }

  lemma PushReentering(rooted: bool, up: seq<string>, last: string, name: string)
    requires Ordinary(last) && Ordinary(name)
    ensures PushAll(rooted, up + [last], ["..", last, name]) == up + [last] + [name]
  {
    var cs := ["..", last, name];
    assert cs[1..] == [last, name] && [last, name][1..] == [name] && [name][1..] == [];
    assert (up + [last])[..|up|] == up;
    assert Push(rooted, up + [last], cs[0]) == up;
    assert Push(rooted, up, last) == up + [last];
    assert Push(rooted, up + [last], name) == up + [last] + [name];
    assert PushAll(rooted, up + [last], [name]) == up + [last] + [name];
  }

  /** Only the destination is judged: a name that climbs out of the base and comes back in, such
      as `../jobs/x` under `/srv/jobs`, is accepted. */
  lemma ReenteringNameAccepted(base: string, up: seq<string>, last: string, name: string)
    requires Cleaned(base) && Stack(base) == up + [last] && last != ".." && Ordinary(name)
    ensures Resolve(base, ".." + [SEP] + last + [SEP] + name) == Inside(base + [SEP] + name)
  {
    var s, path := up + [last], ".." + [SEP] + last + [SEP] + name;
    StackCanonical(base);
    assert s[|up|] == last;
    SplitSingle("..", SEP);
    SplitSingle(last, SEP);
    SplitSingle(name, SEP);
    SplitConcat("..", last, SEP);
    SplitConcat(".." + [SEP] + last, name, SEP);
    assert Split(path, SEP) == ["..", last, name];
    JoinedStack(base, path);
    PushReentering(IsAbs(base), up, last, name);
    RenderExtended(IsAbs(base), s, [name]);
    assert !IsAbs(path);
  }
}
