/** Exactly which plugins' file sandboxes are independent of each other, over every configuration:
    Host.capsFor (internal/plugin/host.go) with the operations of SandboxedFS (internal/plugin/fs.go)
    by path, whatever the plugins root and the plugin names are. */
module SandboxInterference {
  import opened Strings
  import opened Paths
  import opened PathGuard
  import opened FileTree
  import opened Sandbox
  import opened SandboxIsolation

  // ---------------------------------------------------------------- runs

  /** The directory NewSandboxedFS confines a plugin to. */
  function Confine(root: string, plugin: string): string { Clean(BaseOf(root, plugin)) }

  function Act(t: Tree, cwd: Location, root: string, op: Op): (Tree, Result) {
    var base := Confine(root, op.plugin);
    match op
    case Read(_, name) => ReadPath(t, cwd, base, Resolve(base, name))
    case Write(_, name, data) => WritePath(t, cwd, base, Resolve(base, name), data)
  }

  function RunTogether(t: Tree, cwd: Location, root: string, ops: seq<Op>): seq<Result>
    decreases |ops|
  {
    if ops == [] then []
    else
      var (u, r) := Act(t, cwd, root, ops[0]);
      [r] + RunTogether(u, cwd, root, ops[1..])
  }

  /** The same operations, each on its plugin's own copy of the tree. */
  function RunApart(copies: map<string, Tree>, cwd: Location, root: string, ops: seq<Op>): seq<Result>
    decreases |ops|
  {
    if ops == [] then []
    else
      var p := ops[0].plugin;
      var (v, r) := Act(ViewOf(copies, p), cwd, root, ops[0]);
      [r] + RunApart(copies[p := v], cwd, root, ops[1..])
  }

  predicate Healthy(t: Tree, cwd: Location) { WellFormed(t) && IsDir(t, cwd) }

  function Copies(t: Tree, names: set<string>): map<string, Tree> { map p | p in names :: t }

  /** Whatever the plugins do and whatever the tree holds, each gets the answers it would get if it
      were alone. */
  ghost predicate Independent(cwd: Location, root: string, names: set<string>) {
    forall t, ops | Healthy(t, cwd) && PluginsIn(ops, names) ::
      RunTogether(t, cwd, root, ops) == RunApart(Copies(t, names), cwd, root, ops)
  }

  lemma ActThenAct(t: Tree, cwd: Location, root: string, op1: Op, op2: Op)
    ensures var (u, r) := Act(t, cwd, root, op1);
            RunTogether(t, cwd, root, [op1, op2]) == [r, Act(u, cwd, root, op2).1]
  {
    assert [op1, op2][1..] == [op2] && [op2][1..] == [];
    var (u, r) := Act(t, cwd, root, op1);
    assert RunTogether(u, cwd, root, [op2]) == [Act(u, cwd, root, op2).1];
  }

  /** In a run a plugin reads back what it wrote, under every name with the same normal form. */
  lemma RunReadsBack(t: Tree, cwd: Location, root: string, p: string, n: string, m: string, data: string)
    requires Healthy(t, cwd) && OrdinaryBase(Confine(root, p)) && Clean(n) == Clean(m)
    ensures var rs := RunTogether(t, cwd, root, [Write(p, n, data), Read(p, m)]);
            |rs| == 2 && (rs[0] == Written ==> rs[1] == Data(data))
  {
    var write, read, base := Write(p, n, data), Read(p, m), Confine(root, p);
    ActThenAct(t, cwd, root, write, read);
    ActHealthy(t, cwd, root, write);
    OrdinaryAct(t, cwd, root, write);
    OrdinaryAct(Act(t, cwd, root, write).0, cwd, root, read);
    ConfineIsCleaned(root, p);
    if Act(t, cwd, root, write).1 == Written { WriteThenRead(t, cwd, base, n, m, data); }
  }

  // ---------------------------------------------------------------- three kinds of sandbox

  /** Cleaned to `.` or `/`. */
  predicate AtTop(base: string) { Stack(base) == [] }

  /** Cleaned to a run of `..`. */
  predicate Climbing(base: string) { Stack(base) != [] && !OrdinaryBase(base) }

  /** One of the two refuses everything, or both end in an ordinary name and neither lies at or under
      the other. */
  predicate Compatible(cwd: Location, a: string, b: string) {
    AtTop(a) || AtTop(b) || (OrdinaryBase(a) && OrdinaryBase(b) && Apart(Locate(cwd, a), Locate(cwd, b)))
  }

  predicate AllCompatible(cwd: Location, root: string, names: set<string>) {
    forall a, b | a in names && b in names && a != b :: Compatible(cwd, Confine(root, a), Confine(root, b))
  }

  lemma ConfineIsCleaned(root: string, plugin: string)
    ensures Cleaned(Confine(root, plugin))
  {
    CleanIdempotent(BaseOf(root, plugin));
  }

  /** A plugin is confined to its name read from the plugins root. */
  lemma ConfineLocation(cwd: Location, root: string, plugin: string)
    ensures Locate(cwd, Confine(root, plugin)) ==
            if root == "" then Locate(cwd, plugin) else Walk(Locate(cwd, root), Split(plugin, '/'))
  {
    CleanSameLocation(cwd, BaseOf(root, plugin));
    JoinLocation(cwd, root, plugin);
  }

  // ---------------------------------------------------------------- the tree stays healthy

  lemma DirsHealthy(t: Tree, cwd: Location, loc: Location)
    requires Healthy(t, cwd) && !Blocked(t, loc)
    ensures Healthy(WithDirs(t, loc), cwd) && IsDir(WithDirs(t, loc), loc)
  {
    WithDirsWellFormed(t, loc);
    WithDirsAt(t, loc, cwd);
  }

  lemma PutHealthy(t: Tree, cwd: Location, loc: Location, data: string)
    requires Healthy(t, cwd)
    ensures Healthy(PutAt(t, loc, data).0, cwd)
  {
    if IsDir(t, Parent(loc)) && !IsDir(t, loc) { PutFileWellFormed(t, loc, data); }
  }

  lemma ActHealthy(t: Tree, cwd: Location, root: string, op: Op)
    requires Healthy(t, cwd)
    ensures Healthy(Act(t, cwd, root, op).0, cwd)
  {
    var base := Confine(root, op.plugin);
    var resolved, loc := Resolve(base, op.name), Locate(cwd, base);
    if resolved.Inside? && !Blocked(t, loc) {
      DirsHealthy(t, cwd, loc);
      var t1, dir := WithDirs(t, loc), Locate(cwd, DirPath(resolved.path));
      if op.Write? && !Blocked(t1, dir) {
        DirsHealthy(t1, cwd, dir);
        PutHealthy(WithDirs(t1, dir), cwd, Locate(cwd, resolved.path), op.data);
      }
    }
  }

  // ---------------------------------------------------------------- answers that depend on nothing

  /** A sandbox at the top changes nothing and answers the same in every tree. */
  lemma TopActs(t: Tree, v: Tree, cwd: Location, root: string, op: Op)
    requires Healthy(t, cwd) && Healthy(v, cwd) && AtTop(Confine(root, op.plugin))
    ensures Act(t, cwd, root, op).0 == t && Act(v, cwd, root, op).0 == v
    ensures Act(t, cwd, root, op).1 == Act(v, cwd, root, op).1
  {
    TopAnswer(t, cwd, root, op);
    TopAnswer(v, cwd, root, op);
  }

  lemma TopAnswer(t: Tree, cwd: Location, root: string, op: Op)
    requires Healthy(t, cwd) && AtTop(Confine(root, op.plugin))
    ensures Act(t, cwd, root, op) ==
            (t, Refused(if op.Write? && |op.data| > MAX_FILE_BYTES then FileTooLarge
                        else if Resolve(Confine(root, op.plugin), op.name) == Escape then PathEscape
                        else IoError))
  {
    var base := Confine(root, op.plugin);
    ConfineIsCleaned(root, op.plugin);
    var loc := Locate(cwd, base);
    TopLocation(cwd, base);
    UpIsDir(t, cwd, loc);
    WithDirsOfDir(t, loc);
    if Resolve(base, op.name).Inside? {
      TopAcceptsItself(base, op.name);
      TopDir(base);
    }
  }

  lemma TopLocation(cwd: Location, base: string)
    requires Cleaned(base) && AtTop(base)
    ensures Locate(cwd, base) <= cwd
  {
    CleanSameLocation(cwd, base);
  }

  lemma TopDir(base: string)
    requires Cleaned(base) && AtTop(base)
    ensures DirPath(base) == base
  {
    TopSplit(base);
    var cs := Split(base, SEP);
    if IsAbs(base) {
      assert cs[..|cs| - 1] + [""] == cs;
      JoinSplit(base, SEP);
    } else {
      assert cs[..|cs| - 1] + [""] == [""];
      assert Join([""], SEP) == "";
      assert [""][1..] == [];
      assert Stack("") == [];
      CleanedSplit(base);
    }
  }

  // ---------------------------------------------------------------- compatible sandboxes

  /** What a plugin can tell of the shared tree is what its own copy holds. */
  predicate InStep(t: Tree, v: Tree, cwd: Location, base: string) {
    AtTop(base) ||
    (if OrdinaryBase(base) then
       var home := Locate(cwd, base);
       (Open(t, home) <==> Open(v, home)) && Subtree(t, home) == Subtree(v, home)
     else t == v)
  }

  lemma ViewIsSubtree(t: Tree, home: Location, w: Tree)
    requires View(t, home, w)
    ensures Subtree(t, home) == w
  {
    SubtreeIsView(t, home);
    forall l ensures FileTree.At(Subtree(t, home), l) == FileTree.At(w, l) {
      assert SameAt(t, home, Subtree(t, home), l) && SameAt(t, home, w, l);
    }
    SameEntries(Subtree(t, home), w);
  }

  /** An operation below an ordinary base, in terms of the directory's own tree. */
  function ActAt(t: Tree, home: Location, target: Target, op: Op): (Tree, Result) {
    match op
    case Read(_, _) => ReadAt(t, home, target)
    case Write(_, _, data) => WriteAt(t, home, target, data)
  }

  lemma OrdinaryAct(t: Tree, cwd: Location, root: string, op: Op)
    requires Healthy(t, cwd) && OrdinaryBase(Confine(root, op.plugin))
    ensures var base := Confine(root, op.plugin);
            Act(t, cwd, root, op) == ActAt(t, Locate(cwd, base), TargetOf(base, op.name), op)
  {
    var base := Confine(root, op.plugin);
    ConfineIsCleaned(root, op.plugin);
    OrdinaryRead(t, cwd, base, op.name);
    if op.Write? { OrdinaryWrite(t, cwd, base, op.name, op.data); }
  }

  lemma OpenActs(t: Tree, home: Location, w: Tree, target: Target, op: Op)
    requires View(t, home, w) && Open(t, home)
    ensures ActAt(t, home, target, op).1 == ActAt(w, [], target, op).1
    ensures View(ActAt(t, home, target, op).0, home, ActAt(w, [], target, op).0)
    ensures Open(ActAt(t, home, target, op).0, home)
  {
    var data := if op.Write? then op.data else "";
    ReadRefines(t, home, w, target);
    WriteRefines(t, home, w, target, data);
    OpsStayOpen(t, home, target, data);
  }

  /** Below a file a sandbox can do nothing. */
  lemma BlockedActs(t: Tree, v: Tree, home: Location, target: Target, op: Op)
    requires !Open(t, home) && !Open(v, home)
    ensures ActAt(t, home, target, op).0 == t && ActAt(v, home, target, op).0 == v
    ensures ActAt(t, home, target, op).1 == ActAt(v, home, target, op).1
  {
    ClosedIsBlocked(t, home);
    ClosedIsBlocked(v, home);
  }

  lemma ClosedIsBlocked(t: Tree, home: Location)
    requires !Open(t, home)
    ensures Blocked(t, home)
  {
    var i :| 0 <= i <= |Parent(home)| && IsFile(t, Parent(home)[..i]);
    assert Parent(home)[..i] == home[..i];
  }

  /** The acting plugin gets one answer from the shared tree and from its copy, and they stay in step. */
  lemma OwnAct(t: Tree, v: Tree, home: Location, target: Target, op: Op)
    requires Open(t, home) <==> Open(v, home)
    requires Subtree(t, home) == Subtree(v, home)
    ensures var (t1, r) := ActAt(t, home, target, op);
            var (v1, q) := ActAt(v, home, target, op);
            r == q && (Open(t1, home) <==> Open(v1, home)) && Subtree(t1, home) == Subtree(v1, home)
  {
    if Open(t, home) {
      var w := Subtree(t, home);
      SubtreeIsView(t, home);
      SubtreeIsView(v, home);
      OpenActs(t, home, w, target, op);
      OpenActs(v, home, w, target, op);
      ViewIsSubtree(ActAt(t, home, target, op).0, home, ActAt(w, [], target, op).0);
      ViewIsSubtree(ActAt(v, home, target, op).0, home, ActAt(w, [], target, op).0);
    } else {
      BlockedActs(t, v, home, target, op);
    }
  }

  lemma FilesAboveStay(t: Tree, u: Tree, a: Location, b: Location)
    requires ConfinedTo(t, u, a) && Apart(a, b)
    ensures Open(u, b) <==> Open(t, b)
  {
    forall i | 0 <= i <= |Parent(b)| ensures IsFile(u, Parent(b)[..i]) == IsFile(t, Parent(b)[..i]) {
      var l := Parent(b)[..i];
      assert l == b[..i];
      if a <= l { PrefixTrans(a, l, b); }
    }
  }

  /** Another plugin apart from it sees nothing of the operation. */
  lemma OtherUnmoved(t: Tree, a: Location, b: Location, target: Target, op: Op)
    requires Apart(a, b)
    ensures var u := ActAt(t, a, target, op).0;
            (Open(u, b) <==> Open(t, b)) && Subtree(u, b) == Subtree(t, b)
  {
    var u := ActAt(t, a, target, op).0;
    OpsAreConfined(t, a, target, if op.Write? then op.data else "");
    assert ConfinedTo(t, u, a);
    FilesAboveStay(t, u, a, b);
    SubtreeIsView(t, b);
    SiblingUnchanged(t, u, a, b, Subtree(t, b));
    ViewIsSubtree(u, b, Subtree(t, b));
  }

  /** One operation, seen by its own plugin. */
  lemma ActorInStep(t: Tree, v: Tree, cwd: Location, root: string, op: Op)
    requires Healthy(t, cwd) && Healthy(v, cwd) && InStep(t, v, cwd, Confine(root, op.plugin))
    ensures Act(t, cwd, root, op).1 == Act(v, cwd, root, op).1
    ensures InStep(Act(t, cwd, root, op).0, Act(v, cwd, root, op).0, cwd, Confine(root, op.plugin))
  {
    var base := Confine(root, op.plugin);
    if AtTop(base) {
      TopActs(t, v, cwd, root, op);
    } else if OrdinaryBase(base) {
      OrdinaryAct(t, cwd, root, op);
      OrdinaryAct(v, cwd, root, op);
      OwnAct(t, v, Locate(cwd, base), TargetOf(base, op.name), op);
    }
  }

  /** One operation, seen by a plugin compatible with its own. */
  lemma OtherInStep(t: Tree, v: Tree, cwd: Location, root: string, op: Op, other: string)
    requires Healthy(t, cwd) && Healthy(v, cwd) && InStep(t, v, cwd, Confine(root, other))
    requires Compatible(cwd, Confine(root, op.plugin), Confine(root, other))
    ensures InStep(Act(t, cwd, root, op).0, v, cwd, Confine(root, other))
  {
    var a, b := Confine(root, op.plugin), Confine(root, other);
    if AtTop(a) {
      TopActs(t, v, cwd, root, op);
    } else if !AtTop(b) {
      OrdinaryAct(t, cwd, root, op);
      OtherUnmoved(t, Locate(cwd, a), Locate(cwd, b), TargetOf(a, op.name), op);
    }
  }

  ghost predicate AllInStep(t: Tree, copies: map<string, Tree>, cwd: Location, root: string, names: set<string>) {
    Healthy(t, cwd) &&
    forall p | p in names :: Healthy(ViewOf(copies, p), cwd) && InStep(t, ViewOf(copies, p), cwd, Confine(root, p))
  }

  lemma StepInStep(t: Tree, copies: map<string, Tree>, cwd: Location, root: string, names: set<string>, op: Op)
    requires AllCompatible(cwd, root, names) && AllInStep(t, copies, cwd, root, names) && op.plugin in names
    ensures var (u, r) := Act(t, cwd, root, op);
            var (v, q) := Act(ViewOf(copies, op.plugin), cwd, root, op);
            r == q && AllInStep(u, copies[op.plugin := v], cwd, root, names)
  {
    var n := op.plugin;
    var u, v := Act(t, cwd, root, op).0, Act(ViewOf(copies, n), cwd, root, op).0;
    ActHealthy(t, cwd, root, op);
    ActHealthy(ViewOf(copies, n), cwd, root, op);
    ActorInStep(t, ViewOf(copies, n), cwd, root, op);
    forall p | p in names
      ensures Healthy(ViewOf(copies[n := v], p), cwd) && InStep(u, ViewOf(copies[n := v], p), cwd, Confine(root, p))
    {
      if p != n { OtherInStep(t, ViewOf(copies, p), cwd, root, op, p); }
    }
  }

  lemma {:induction false} CompatibleRuns(t: Tree, copies: map<string, Tree>, cwd: Location, root: string,
        names: set<string>, ops: seq<Op>)
    requires AllCompatible(cwd, root, names) && AllInStep(t, copies, cwd, root, names) && PluginsIn(ops, names)
    ensures RunTogether(t, cwd, root, ops) == RunApart(copies, cwd, root, ops)
    decreases |ops|
  {
    if ops == [] {
    } else {
      assert ops[0] in ops && forall op | op in ops[1..] :: op in ops;
      var p := ops[0].plugin;
      StepInStep(t, copies, cwd, root, names, ops[0]);
      var (u, r) := Act(t, cwd, root, ops[0]);
      var (v, q) := Act(ViewOf(copies, p), cwd, root, ops[0]);
      CompatibleRuns(u, copies[p := v], cwd, root, names, ops[1..]);
    }
  }

  lemma CompatibleIsIndependent(cwd: Location, root: string, names: set<string>)
    requires AllCompatible(cwd, root, names)
    ensures Independent(cwd, root, names)
  {
    forall t, ops | Healthy(t, cwd) && PluginsIn(ops, names)
      ensures RunTogether(t, cwd, root, ops) == RunApart(Copies(t, names), cwd, root, ops)
    {
      CompatibleRuns(t, Copies(t, names), cwd, root, names, ops);
    }
  }

  // ---------------------------------------------------------------- what a sandbox reaches

  /** The name leads to the location, and a write there is let through. */
  predicate Reaches(cwd: Location, base: string, name: string, loc: Location) {
    var resolved := Resolve(base, name);
    && resolved.Inside? && Locate(cwd, resolved.path) == loc
    && Within(DirPath(resolved.path), base) && Locate(cwd, DirPath(resolved.path)) == Parent(loc)
  }

  /** A name that continues the base's own components is accepted as they stand. */
  lemma PlainName(base: string, rest: seq<string>)
    requires Cleaned(base) && Stack(base) != [] && Canonical(IsAbs(base), Stack(base) + rest) && rest != []
    ensures var name := Join(rest, SEP);
            && Resolve(base, name) == Inside(JoinPath(base, name)) && Cleaned(JoinPath(base, name))
            && Stack(JoinPath(base, name)) == Stack(base) + rest && IsAbs(JoinPath(base, name)) == IsAbs(base)
  {
    var name, s := Join(rest, SEP), Stack(base);
    assert forall i | 0 <= i < |rest| :: rest[i] == (s + rest)[|s| + i];
    assert forall c | c in rest :: c != "" && SEP !in c;
    SplitJoin(rest, SEP);
    RelativeJoin(rest);
    JoinedStack(base, name);
    PushCanonical(IsAbs(base), s, rest);
    RenderExtended(IsAbs(base), s, rest);
    assert JoinPath(base, name) == base + [SEP] + name;
  }

  lemma RelativeJoin(rest: seq<string>)
    requires rest != [] && rest[0] != "" && SEP !in rest[0]
    ensures !IsAbs(Join(rest, SEP))
  {
    assert Join(rest, SEP)[0] == rest[0][0];
  }

  lemma ExtendedWithin(base: string, p: string, rest: seq<string>)
    requires Cleaned(base) && Cleaned(p) && IsAbs(p) == IsAbs(base) && Stack(base) != []
    requires Stack(p) == Stack(base) + rest
    ensures Within(p, base)
  {
    if rest == [] {
      assert Stack(p) == Stack(base);
    } else {
      RenderExtended(IsAbs(base), Stack(base), rest);
    }
  }

  lemma PlainReaches(cwd: Location, base: string, upper: seq<string>, f: string)
    requires Cleaned(base) && Stack(base) != [] && Canonical(IsAbs(base), Stack(base) + (upper + [f])) && Ordinary(f)
    ensures var start := if IsAbs(base) then [] else cwd;
            Reaches(cwd, base, Join(upper + [f], SEP), Walk(start, Stack(base) + upper) + [f])
  {
    var start, rest := if IsAbs(base) then [] else cwd, upper + [f];
    PlainName(base, rest);
    var full := JoinPath(base, Join(rest, SEP));
    assert Stack(full) == (Stack(base) + upper) + [f];
    DirectoryLocation(cwd, full, Stack(base) + upper, f);
    ExtendedWithin(base, DirPath(full), upper);
    CleanSameLocation(cwd, full);
    WalkSnoc(start, Stack(base) + upper, f);
    assert Parent(Walk(start, Stack(base) + upper) + [f]) == Walk(start, Stack(base) + upper);
  }

  /** A sandbox that ends in an ordinary name reaches everything below it. */
  lemma OrdinaryReaches(cwd: Location, base: string, dir: Location, f: string)
    requires Cleaned(base) && OrdinaryBase(base) && Proper(dir) && Ordinary(f)
    ensures Reaches(cwd, base, Join(dir + [f], SEP), Locate(cwd, base) + dir + [f])
  {
    StackCanonical(base);
    ExtendedCanonical(IsAbs(base), Stack(base), dir + [f]);
    PlainReaches(cwd, base, dir, f);
    var start := if IsAbs(base) then [] else cwd;
    WalkConcat(start, Stack(base), dir);
    WalkNames(Walk(start, Stack(base)), dir);
    CleanSameLocation(cwd, base);
  }

  lemma ExtendedCanonical(rooted: bool, s: seq<string>, rel: Location)
    requires Canonical(rooted, s) && Proper(rel)
    ensures Canonical(rooted, s + rel)
  {
    forall i | 0 <= i < |rel| ensures Ordinary(rel[i]) { assert rel[i] in rel; }
  }

  function Climb(n: nat): seq<string> { seq(n, _ => "..") }

  lemma {:induction false} ClimbToRoot(cwd: Location, n: nat)
    ensures Walk(cwd, Climb(n)) == if n <= |cwd| then cwd[..|cwd| - n] else []
  {
    if n == 0 {
      assert cwd[..|cwd|] == cwd;
    } else {
      assert Climb(n)[1..] == Climb(n - 1);
      ClimbToRoot(Step(cwd, ".."), n - 1);
    }
  }

  lemma ClimbingStackIs(base: string)
    requires Cleaned(base) && Climbing(base)
    ensures !IsAbs(base) && Stack(base) == Climb(|Stack(base)|)
  {
    StackCanonical(base);
    ClimbingStack(IsAbs(base), Stack(base));
  }

  /** A sandbox at a run of `..` reaches every file of the tree. */
  lemma ClimbingReaches(cwd: Location, base: string, dir: Location, f: string)
    requires Cleaned(base) && Climbing(base) && Proper(dir) && Ordinary(f)
    ensures Reaches(cwd, base, Join(Climb(|cwd|) + dir + [f], SEP), dir + [f])
  {
    ClimbingStackIs(base);
    var k, n := |Stack(base)|, |cwd|;
    ClimbsThenNames(Stack(base), k, n, dir, f);
    PlainReaches(cwd, base, Climb(n) + dir, f);
    FromTheRoot(cwd, k + n, dir);
  }

  lemma ClimbsThenNames(s: seq<string>, k: nat, n: nat, dir: Location, f: string)
    requires s == Climb(k) && Proper(dir) && Ordinary(f)
    ensures s + (Climb(n) + dir) == Climb(k + n) + dir
    ensures Canonical(false, s + ((Climb(n) + dir) + [f]))
  {
    assert s + ((Climb(n) + dir) + [f]) == Climb(k + n) + (dir + [f]);
    ExtendedCanonical(false, Climb(k + n), dir + [f]);
  }

  lemma FromTheRoot(cwd: Location, n: nat, dir: Location)
    requires n >= |cwd| && Proper(dir)
    ensures Walk(cwd, Climb(n) + dir) == dir
  {
    ClimbToRoot(cwd, n);
    WalkConcat(cwd, Climb(n), dir);
    WalkNames([], dir);
    assert Walk(cwd, Climb(n)) == [] && [] + dir == dir;
  }

  // ---------------------------------------------------------------- incompatible sandboxes

  function Bare(cwd: Location): Tree { WithDirs(map[[] := Dir], cwd) }

  lemma BareFacts(cwd: Location)
    ensures Healthy(Bare(cwd), cwd) && forall l :: !IsFile(Bare(cwd), l)
    ensures forall l :: l in Bare(cwd) <==> l <= cwd
  {
    RootedTree(cwd);
    forall l ensures !IsFile(Bare(cwd), l) && (l in Bare(cwd) <==> l <= cwd) { WithDirsAt(map[[] := Dir], cwd, l); }
  }

  /** Writing a new file where no file is: it is then the only file. */
  lemma WriteOnly(t: Tree, cwd: Location, base: string, name: string, loc: Location)
    requires Healthy(t, cwd) && (forall l :: !IsFile(t, l)) && loc !in t
    requires Reaches(cwd, base, name, loc) && !(loc <= Locate(cwd, base))
    ensures var u := WritePath(t, cwd, base, Resolve(base, name), "v").0;
            FileTree.At(u, loc) == There(File("v")) && forall l :: IsFile(u, l) ==> l == loc
  {
    var home := Locate(cwd, base);
    var t1 := WithDirs(t, home);
    var t2 := WithDirs(t1, Parent(loc));
    forall l ensures !IsFile(t1, l) && !IsFile(t2, l) {
      assert !IsFile(t, l);
      WithDirsAt(t, home, l);
      WithDirsAt(t1, Parent(loc), l);
    }
    WithDirsWellFormed(t, home);
    WithDirsWellFormed(t1, Parent(loc));
    WithDirsAt(t, home, loc);
    WithDirsAt(t1, Parent(loc), loc);
    assert loc != [] && !(loc <= Parent(loc));
    var u := WritePath(t, cwd, base, Resolve(base, name), "v").0;
    assert u == t2[loc := File("v")];
    forall l | IsFile(u, l) ensures l == loc { assert !IsFile(t2, l); }
  }

  lemma ReadBack(u: Tree, cwd: Location, base: string, name: string, loc: Location)
    requires Reaches(cwd, base, name, loc) && !(loc <= Locate(cwd, base))
    requires forall l :: IsFile(u, l) ==> l == loc
    ensures ReadPath(u, cwd, base, Resolve(base, name)).1 ==
            if IsFile(u, loc) && |u[loc].data| > MAX_FILE_BYTES then Refused(FileTooLarge)
            else if IsFile(u, loc) then Data(u[loc].data) else Refused(IoError)
  {
    var home := Locate(cwd, base);
    forall i | 0 <= i <= |home| ensures !IsFile(u, home[..i]) { assert home[..i] <= home; }
    WithDirsAt(u, home, loc);
  }

  lemma TwoActs(t: Tree, copies: map<string, Tree>, cwd: Location, root: string, op1: Op, op2: Op)
    requires op1.plugin != op2.plugin
    ensures var (u, r) := Act(t, cwd, root, op1);
            RunTogether(t, cwd, root, [op1, op2]) == [r, Act(u, cwd, root, op2).1]
    ensures RunApart(copies, cwd, root, [op1, op2]) ==
            [Act(ViewOf(copies, op1.plugin), cwd, root, op1).1, Act(ViewOf(copies, op2.plugin), cwd, root, op2).1]
  {
    assert [op1, op2][1..] == [op2] && [op2][1..] == [];
    var (u, r) := Act(t, cwd, root, op1);
    var (v, q) := Act(ViewOf(copies, op1.plugin), cwd, root, op1);
    assert ViewOf(copies[op1.plugin := v], op2.plugin) == ViewOf(copies, op2.plugin);
    OneAct(u, copies[op1.plugin := v], cwd, root, op2);
  }

  lemma OneAct(t: Tree, copies: map<string, Tree>, cwd: Location, root: string, op: Op)
    ensures RunTogether(t, cwd, root, [op]) == [Act(t, cwd, root, op).1]
    ensures RunApart(copies, cwd, root, [op]) == [Act(ViewOf(copies, op.plugin), cwd, root, op).1]
  {
    assert [op][1..] == [];
  }

  /** A file that one plugin writes and another reads: together the second finds it, alone it does
      not. */
  lemma CommonFile(cwd: Location, root: string, names: set<string>, write: Op, read: Op, loc: Location)
    requires write.Write? && read.Read? && write.plugin != read.plugin && write.data == "v"
    requires write.plugin in names && read.plugin in names && !(loc <= cwd)
    requires var a := Confine(root, write.plugin);
             Reaches(cwd, a, write.name, loc) && !(loc <= Locate(cwd, a))
    requires var b := Confine(root, read.plugin);
             Reaches(cwd, b, read.name, loc) && !(loc <= Locate(cwd, b))
    ensures !Independent(cwd, root, names)
  {
    var t := Bare(cwd);
    BareFacts(cwd);
    WriteOnly(t, cwd, Confine(root, write.plugin), write.name, loc);
    var u := Act(t, cwd, root, write).0;
    ReadBack(u, cwd, Confine(root, read.plugin), read.name, loc);
    ReadBack(t, cwd, Confine(root, read.plugin), read.name, loc);
    TwoActs(t, Copies(t, names), cwd, root, write, read);
    NotIndependentBy(t, cwd, root, names, [write, read]);
  }

  lemma NotIndependentBy(t: Tree, cwd: Location, root: string, names: set<string>, ops: seq<Op>)
    requires Healthy(t, cwd) && |ops| == 2 && ops[0].plugin in names && ops[1].plugin in names
    requires |RunTogether(t, cwd, root, ops)| == 2 == |RunApart(Copies(t, names), cwd, root, ops)|
    requires RunTogether(t, cwd, root, ops)[1] != RunApart(Copies(t, names), cwd, root, ops)[1]
    ensures !Independent(cwd, root, names)
  {
    assert PluginsIn(ops, names) by { assert forall op | op in ops :: op == ops[0] || op == ops[1]; }
  }

  /** A name that no component of the working directory has. */
  function FreshName(cwd: Location): (f: string)
    ensures Ordinary(f) && f !in cwd
  {
    var loc := FreshDir(cwd, 1);
    assert loc[0] in loc;
    loc[0]
  }

  /** Two sandboxes of which neither is at the top, and which are not compatible, reach one new file. */
  lemma CommonReach(cwd: Location, a: string, b: string) returns (n: string, m: string, loc: Location)
    requires Proper(cwd) && Cleaned(a) && Cleaned(b) && !Compatible(cwd, a, b)
    requires OrdinaryBase(a) && OrdinaryBase(b) ==> Locate(cwd, a) <= Locate(cwd, b)
    requires OrdinaryBase(a) ==> OrdinaryBase(b)
    ensures Reaches(cwd, a, n, loc) && Reaches(cwd, b, m, loc)
    ensures !(loc <= cwd) && !(loc <= Locate(cwd, a)) && !(loc <= Locate(cwd, b))
  {
    var f := FreshName(cwd);
    if OrdinaryBase(b) {
      var home := Locate(cwd, b);
      ProperHome(cwd, b);
      loc, m := home + [f], Join([] + [f], SEP);
      OrdinaryReaches(cwd, b, [], f);
      assert home + [] + [f] == loc;
      if OrdinaryBase(a) {
        n := ReachBelow(cwd, a, home, f);
      } else {
        n := Join(Climb(|cwd|) + home + [f], SEP);
        ClimbingReaches(cwd, a, home, f);
        ClimbsUp(cwd, a);
        NotAbove(cwd, loc, f, Locate(cwd, a));
      }
    } else {
      loc, n, m := [f], Join(Climb(|cwd|) + [] + [f], SEP), Join(Climb(|cwd|) + [] + [f], SEP);
      ClimbingReaches(cwd, a, [], f);
      ClimbingReaches(cwd, b, [], f);
      assert [] + [f] == loc;
      ClimbsUp(cwd, a);
      ClimbsUp(cwd, b);
      NotAbove(cwd, loc, f, Locate(cwd, a));
      NotAbove(cwd, loc, f, Locate(cwd, b));
    }
    NotAbove(cwd, loc, f, cwd);
  }

  lemma NotAbove(cwd: Location, loc: Location, f: string, l: Location)
    requires loc != [] && loc[|loc| - 1] == f && f !in cwd && l <= cwd
    ensures !(loc <= l)
  {
    var i := |loc| - 1;
    assert i < |l| ==> l[i] == cwd[i] && cwd[i] in cwd;
  }

  lemma ClimbsUp(cwd: Location, base: string)
    requires Cleaned(base) && Climbing(base)
    ensures Locate(cwd, base) <= cwd
  {
    ClimbingStackIs(base);
    CleanSameLocation(cwd, base);
    ClimbToRoot(cwd, |Stack(base)|);
  }

  lemma ReachBelow(cwd: Location, a: string, home: Location, f: string) returns (n: string)
    requires Cleaned(a) && OrdinaryBase(a) && Locate(cwd, a) <= home && Proper(home) && Ordinary(f)
    ensures Reaches(cwd, a, n, home + [f])
  {
    var rest := ProperRest(Locate(cwd, a), home);
    n := Join(rest + [f], SEP);
    OrdinaryReaches(cwd, a, rest, f);
  }

  lemma ProperRest(a: Location, b: Location) returns (rest: Location)
    requires Proper(b) && a <= b
    ensures b == a + rest && Proper(rest)
  {
    rest := b[|a|..];
    assert forall c | c in rest :: c in b;
  }

  /** A cleaned path, from a proper directory, names a proper location. */
  lemma ProperHome(cwd: Location, p: string)
    requires Proper(cwd) && OrdinaryBase(p)
    ensures Proper(Locate(cwd, p))
  {
    StackCanonical(p);
    CleanSameLocation(cwd, p);
    if IsAbs(p) {
      RootedWalk(p);
    } else {
      WalkCanonical(cwd, Stack(p));
      var k := Ups(Stack(p));
      assert k <= |cwd| ==> forall c | c in cwd[..|cwd| - k] :: c in cwd;
    }
  }

  lemma IncompatibleInterfere(cwd: Location, root: string, names: set<string>, a: string, b: string)
    requires Proper(cwd) && a in names && b in names && a != b
    requires var x, y := Confine(root, a), Confine(root, b);
             && !Compatible(cwd, x, y) && (OrdinaryBase(x) ==> OrdinaryBase(y))
             && (OrdinaryBase(x) ==> Locate(cwd, x) <= Locate(cwd, y))
    ensures !Independent(cwd, root, names)
  {
    ConfineIsCleaned(root, a);
    ConfineIsCleaned(root, b);
    var n, m, loc := CommonReach(cwd, Confine(root, a), Confine(root, b));
    CommonFile(cwd, root, names, Write(a, n, "v"), Read(b, m), loc);
  }

  /** The file sandboxes of a configuration are independent of each other iff of every two plugins one
      is confined to `.` or `/`, where it can do nothing, or both are confined to directories that end
      in an ordinary name and neither lies at or under the other. */
  lemma IndependentIff(cwd: Location, root: string, names: set<string>)
    requires Proper(cwd)
    ensures Independent(cwd, root, names) <==> AllCompatible(cwd, root, names)
  {
    if AllCompatible(cwd, root, names) {
      CompatibleIsIndependent(cwd, root, names);
    } else {
      var a, b :| a in names && b in names && a != b && !Compatible(cwd, Confine(root, a), Confine(root, b));
      var x, y := Confine(root, a), Confine(root, b);
      if OrdinaryBase(x) && (!OrdinaryBase(y) || !(Locate(cwd, x) <= Locate(cwd, y))) {
        IncompatibleInterfere(cwd, root, names, b, a);
      } else {
        IncompatibleInterfere(cwd, root, names, a, b);
      }
    }
  }

  /** Distinctness alone does not isolate: the sandbox of a plugin named `a/b` lies inside the
      sandbox of the plugin named `a`, and each can see the other's files. */
  lemma NestedNamesShare(cwd: Location, root: string, a: string, b: string)
    requires Cleaned(root) && Ordinary(a) && Ordinary(b)
    ensures a != a + [SEP] + b && !Independent(cwd, root, {a, a + [SEP] + b})
  {
    var ab := a + [SEP] + b;
    BaseLocation(cwd, root, a);
    NestedBase(cwd, root, a, b);
    var f := FreshName(cwd);
    var loc := Locate(cwd, Confine(root, a)) + [b] + [f];
    OrdinaryReaches(cwd, Confine(root, a), [b], f);
    OrdinaryReaches(cwd, Confine(root, ab), [], f);
    assert Locate(cwd, Confine(root, ab)) + [] + [f] == loc;
    NotAbove(cwd, loc, f, cwd);
    CommonFile(cwd, root, {a, ab}, Write(a, Join([b] + [f], SEP), "v"), Read(ab, Join([] + [f], SEP)), loc);
  }

  lemma NestedBase(cwd: Location, root: string, a: string, b: string)
    requires Cleaned(root) && Ordinary(a) && Ordinary(b)
    ensures var base := BaseOf(root, a + [SEP] + b);
            && Cleaned(base) && OrdinaryBase(base)
            && Locate(cwd, base) == Locate(cwd, BaseOf(root, a)) + [b]
  {
    BaseLocation(cwd, root, a);
    var ab, s := a + [SEP] + b, Stack(root);
    SplitSingle(a, SEP);
    SplitSingle(b, SEP);
    SplitConcat(a, b, SEP);
    JoinedStack(root, ab);
    var start := if IsAbs(root) then [] else cwd;
    CleanSameLocation(cwd, root);
    CleanSameLocation(cwd, BaseOf(root, ab));
    assert Split(ab, SEP) == [a, b] && [a, b][1..] == [b] && [b][1..] == [];
    assert PushAll(IsAbs(root), s + [a], [b]) == s + [a] + [b];
    assert PushAll(IsAbs(root), s, [a, b]) == PushAll(IsAbs(root), s + [a], [b]);
    WalkSnoc(start, s + [a], b);
    WalkSnoc(start, s, a);
  }
}
