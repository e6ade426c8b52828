/** Plugin configuration and the namespaced store (internal/plugin loader.go and store.go): one
    repository, partitioned among the plugins by a key prefix. */
module Store {

  // ---------------------------------------------------------------- configuration

  datatype PluginConfig = PluginConfig(name: string, events: seq<string>, path: string, script: string)

  datatype ConfigError = NameRequired | NoEvents | NoSource | TwoSources | DuplicateName

  datatype Checked = Fine | Bad(index: nat, error: ConfigError)

  /** The faults of one declaration, given the names declared before it. */
  predicate Sound(p: PluginConfig) {
    p.name != "" && p.events != [] && (p.path == "" <==> p.script != "")
  }

  function NamesOf(plugins: seq<PluginConfig>): set<string> {
    set i | 0 <= i < |plugins| :: plugins[i].name
  }

  /** Every declaration is sound and no two share a name. */
  predicate ValidConfig(plugins: seq<PluginConfig>) {
    (forall i | 0 <= i < |plugins| :: Sound(plugins[i])) &&
    (forall i, j | 0 <= i < j < |plugins| :: plugins[i].name != plugins[j].name)
  }

  /** Config.Validate: accepts exactly the valid configurations, and otherwise names the first
      declaration at which validity is lost. */
  method Validate(plugins: seq<PluginConfig>) returns (r: Checked)
    ensures r.Fine? <==> ValidConfig(plugins)
    ensures r.Fine? ==> forall i | 0 <= i < |plugins| ::
              && plugins[i].name != "" && plugins[i].events != []
              && (plugins[i].path == "" <==> plugins[i].script != "")
    ensures r.Fine? ==> forall i, j | 0 <= i < j < |plugins| :: plugins[i].name != plugins[j].name
    ensures r.Bad? ==>
              r.index < |plugins| && ValidConfig(plugins[..r.index]) && !ValidConfig(plugins[..r.index + 1])
    ensures r.Bad? ==>
              match r.error
              case NameRequired => plugins[r.index].name == ""
              case NoEvents => plugins[r.index].name != "" && plugins[r.index].events == []
              case NoSource =>
                && plugins[r.index].name != "" && plugins[r.index].events != []
                && plugins[r.index].path == "" == plugins[r.index].script
              case TwoSources =>
                && plugins[r.index].name != "" && plugins[r.index].events != []
                && plugins[r.index].path != "" && plugins[r.index].script != ""
              case DuplicateName => Sound(plugins[r.index]) && plugins[r.index].name in NamesOf(plugins[..r.index])
  {
    var seen: set<string> := {};
    for i := 0 to |plugins|
      invariant seen == NamesOf(plugins[..i])
      invariant ValidConfig(plugins[..i])
    {
      var p := plugins[i];
      assert plugins[..i + 1][i] == p && plugins[..i + 1][..i] == plugins[..i];
      assert forall k | 0 <= k < i :: plugins[..i + 1][k] == plugins[..i][k];
      if p.name == "" {
        return Bad(i, NameRequired);
      } else if p.events == [] {
        return Bad(i, NoEvents);
      } else if p.path == "" && p.script == "" {
        return Bad(i, NoSource);
      } else if p.path != "" && p.script != "" {
        return Bad(i, TwoSources);
      }
      if p.name in seen {
        var k :| 0 <= k < i && plugins[..i][k].name == p.name;
        assert plugins[..i + 1][k].name == plugins[..i + 1][i].name;
        return Bad(i, DuplicateName);
      }
      seen := seen + {p.name};
    }
    assert plugins[..|plugins|] == plugins;
    r := Fine;
  }

  // ---------------------------------------------------------------- keys

  function Key(namespace: string, k: string): string { namespace + ":" + k }

  predicate Separate(n1: string, n2: string) {
    !(n1 + ":" <= n2 + ":") && !(n2 + ":" <= n1 + ":")
  }

  lemma CommonExtension(a: string, b: string, x: string, y: string)
    requires a + x == b + y
    ensures a <= b || b <= a
  {
    var s := a + x;
    assert s[..|a|] == a && s[..|b|] == b;
    if |a| <= |b| { assert b[..|a|] == s[..|a|]; } else { assert a[..|b|] == s[..|b|]; }
  }

  /** Two plugins' key ranges are disjoint iff neither prefix is a prefix of the other. */
  lemma RangesDisjointIff(n1: string, n2: string)
    ensures (forall k1, k2 :: Key(n1, k1) != Key(n2, k2)) <==> Separate(n1, n2)
  {
    var p1, p2 := n1 + ":", n2 + ":";
    forall k1, k2 | Key(n1, k1) == Key(n2, k2) ensures !Separate(n1, n2) {
      CommonExtension(p1, p2, k1, k2);
    }
    if p1 <= p2 {
      var k1 := p2[|p1|..];
      assert p1 + k1 == p2 && p2 + "" == p2;
      assert Key(n1, k1) == Key(n2, "");
    }
    if p2 <= p1 {
      var k2 := p1[|p2|..];
      assert p2 + k2 == p1 && p1 + "" == p1;
      assert Key(n1, "") == Key(n2, k2);
    }
  }

  lemma KeyInjective(n: string, k1: string, k2: string)
    ensures Key(n, k1) == Key(n, k2) <==> k1 == k2
  {
    assert Key(n, k1)[|n| + 1..] == k1 && Key(n, k2)[|n| + 1..] == k2;
  }

  /** Distinct names without a colon have disjoint ranges; validation rules out neither colons nor,
      therefore, the collision of `a` with `a:b`. */
  lemma ColonFreeNamesAreSeparate(n1: string, n2: string)
    requires n1 != n2 && ':' !in n1 && ':' !in n2
    ensures Separate(n1, n2)
  {
    if n1 + ":" <= n2 + ":" { SeparatorPosition(n1, n2); }
    if n2 + ":" <= n1 + ":" { SeparatorPosition(n2, n1); }
  }

  lemma SeparatorPosition(a: string, b: string)
    requires a + ":" <= b + ":" && ':' !in b
    ensures a == b
  {
    assert (b + ":")[|a|] == (a + ":")[|a|] == ':';
    assert forall i | 0 <= i < |b| :: (b + ":")[i] == b[i] && b[i] in b;
    assert |a| == |b|;
    assert (b + ":")[..|a|] == (a + ":")[..|a|] == a;
  }

  lemma UniqueNamesMayCollide() returns (plugins: seq<PluginConfig>)
    ensures |plugins| == 2 && ValidConfig(plugins)
    ensures Key(plugins[0].name, "b:x") == Key(plugins[1].name, "x")
  {
    plugins := [PluginConfig("a", ["t"], "", "s"), PluginConfig("a:b", ["t"], "", "s")];
  }

  // ---------------------------------------------------------------- one repository, many stores

  type Rows = map<string, string>

  datatype Loaded = Absent | Present(state: string)

  function Read(rows: Rows, id: string): Loaded {
    if id in rows then Present(rows[id]) else Absent
  }

  datatype Op = Load(plugin: string, key: string) | Save(plugin: string, key: string, state: string)

  /** Running operations over the shared repository, through the namespaced keys. */
  function RunShared(rows: Rows, ops: seq<Op>): seq<Loaded>
    decreases |ops|
  {
    if ops == [] then []
    else match ops[0]
      case Load(p, k) => [Read(rows, Key(p, k))] + RunShared(rows, ops[1..])
      case Save(p, k, v) => RunShared(rows[Key(p, k) := v], ops[1..])
  }

  /** The last state saved under the key by the first n operations, if any. */
  ghost predicate SavedLast(ops: seq<Op>, n: nat, id: string, i: nat) {
    i < n <= |ops| && ops[i].Save? && Key(ops[i].plugin, ops[i].key) == id &&
    forall j | i < j < n :: ops[j].Save? ==> Key(ops[j].plugin, ops[j].key) != id
  }

  ghost predicate NeverSaved(ops: seq<Op>, n: nat, id: string) {
    n <= |ops| && forall j | 0 <= j < n :: ops[j].Save? ==> Key(ops[j].plugin, ops[j].key) != id
  }

  /** Which answer of the run belongs to the n-th operation. */
  function Answers(ops: seq<Op>, n: nat): nat
    requires n <= |ops|
  {
    if n == 0 then 0 else Answers(ops, n - 1) + if ops[n - 1].Load? then 1 else 0
  }

  lemma {:induction false} AnswersShift(ops: seq<Op>, n: nat)
    requires 1 <= n <= |ops|
    ensures Answers(ops, n) == (if ops[0].Load? then 1 else 0) + Answers(ops[1..], n - 1)
  {
    if n > 1 { AnswersShift(ops, n - 1); }
  }

  lemma SavesShift(ops: seq<Op>, n: nat, id: string)
    requires 1 <= n <= |ops|
    ensures NeverSaved(ops, n, id) ==> NeverSaved(ops[1..], n - 1, id)
    ensures SavedLast(ops, n, id, 0) ==> NeverSaved(ops[1..], n - 1, id)
    ensures forall i: nat | i > 0 && SavedLast(ops, n, id, i) :: SavedLast(ops[1..], n - 1, id, i - 1)
  {
    assert forall j | 0 < j < |ops| :: ops[j] == ops[1..][j - 1];
  }

  /** What a load answers in a run: the state saved last under its namespaced key, by whichever plugin,
      or what the repository held before; and nothing if there is neither. */
  lemma {:induction false} LoadAnswers(rows: Rows, ops: seq<Op>, n: nat)
    requires n < |ops| && ops[n].Load?
    ensures var id := Key(ops[n].plugin, ops[n].key);
            && Answers(ops, n) < |RunShared(rows, ops)|
            && (forall i: nat | SavedLast(ops, n, id, i) ::
                  RunShared(rows, ops)[Answers(ops, n)] == Present(ops[i].state))
            && (NeverSaved(ops, n, id) ==>
                  RunShared(rows, ops)[Answers(ops, n)] == if id in rows then Present(rows[id]) else Absent)
    decreases |ops|
  {
    if n > 0 {
      var id, rest := Key(ops[n].plugin, ops[n].key), ops[1..];
      var rows1 := if ops[0].Save? then rows[Key(ops[0].plugin, ops[0].key) := ops[0].state] else rows;
      LoadAnswers(rows1, rest, n - 1);
      AnswersShift(ops, n);
      SavesShift(ops, n, id);
      forall i: nat | SavedLast(ops, n, id, i)
        ensures RunShared(rows, ops)[Answers(ops, n)] == Present(ops[i].state)
      {
        if i > 0 { assert SavedLast(rest, n - 1, id, i - 1) && rest[i - 1] == ops[i]; }
      }
    }
  }

  function StoreOf(stores: map<string, Rows>, p: string): Rows {
    if p in stores then stores[p] else map[]
  }

  /** Running them over one private map per plugin. */
  function RunPrivate(stores: map<string, Rows>, ops: seq<Op>): seq<Loaded>
    decreases |ops|
  {
    if ops == [] then []
    else match ops[0]
      case Load(p, k) => [Read(StoreOf(stores, p), k)] + RunPrivate(stores, ops[1..])
      case Save(p, k, v) => RunPrivate(stores[p := StoreOf(stores, p)[k := v]], ops[1..])
  }

  predicate PluginsIn(ops: seq<Op>, names: set<string>) {
    forall op | op in ops :: op.plugin in names
  }

  predicate PairwiseSeparate(names: set<string>) {
    forall n1, n2 | n1 in names && n2 in names && n1 != n2 :: Separate(n1, n2)
  }

  predicate Agree(rows: Rows, stores: map<string, Rows>, p: string, k: string) {
    Read(StoreOf(stores, p), k) == Read(rows, Key(p, k))
  }

  /** Each plugin's store is what the repository holds in its range. */
  ghost predicate Refines(rows: Rows, stores: map<string, Rows>, names: set<string>) {
    forall p, k | p in names :: Agree(rows, stores, p, k)
  }

  lemma SaveRefinesAt(rows: Rows, stores: map<string, Rows>, p: string, k: string, v: string, q: string, j: string)
    requires q == p || Separate(p, q)
    requires Agree(rows, stores, q, j)
    ensures Agree(rows[Key(p, k) := v], stores[p := StoreOf(stores, p)[k := v]], q, j)
  {
    if q == p { KeyInjective(p, j, k); } else { RangesDisjointIff(p, q); }
  }

  lemma SaveRefines(rows: Rows, stores: map<string, Rows>, p: string, k: string, v: string, names: set<string>)
    requires p in names && PairwiseSeparate(names) && Refines(rows, stores, names)
    ensures Refines(rows[Key(p, k) := v], stores[p := StoreOf(stores, p)[k := v]], names)
  {
    var rows', stores' := rows[Key(p, k) := v], stores[p := StoreOf(stores, p)[k := v]];
    forall q, j | q in names ensures Agree(rows', stores', q, j) {
      assert Agree(rows, stores, q, j);
      SaveRefinesAt(rows, stores, p, k, v, q, j);
    }
  }

  lemma {:induction false} SharedIsPrivate(rows: Rows, stores: map<string, Rows>, ops: seq<Op>, names: set<string>)
    requires PluginsIn(ops, names) && PairwiseSeparate(names) && Refines(rows, stores, names)
    ensures RunShared(rows, ops) == RunPrivate(stores, ops)
    decreases |ops|
  {
    if ops == [] {
    } else {
      assert ops[0] in ops && forall op | op in ops[1..] :: op in ops;
      match ops[0]
      case Load(p, k) =>
        assert Agree(rows, stores, p, k);
        SharedIsPrivate(rows, stores, ops[1..], names);
      case Save(p, k, v) =>
        SaveRefines(rows, stores, p, k, v, names);
        SharedIsPrivate(rows[Key(p, k) := v], stores[p := StoreOf(stores, p)[k := v]], ops[1..], names);
    }
  }

  lemma CollisionLeaks(n1: string, n2: string)
    requires n1 != n2 && !Separate(n1, n2)
    ensures exists ops :: PluginsIn(ops, {n1, n2}) && RunShared(map[], ops) != RunPrivate(map[], ops)
  {
    RangesDisjointIff(n1, n2);
    var k1, k2 :| Key(n1, k1) == Key(n2, k2);
    var ops := [Save(n1, k1, "v"), Load(n2, k2)];
    var rest := ops[1..];
    assert rest == [Load(n2, k2)] && rest[1..] == [];
    var rows: Rows := map[];
    var stores: map<string, Rows> := map[];
    assert RunShared(rows[Key(n1, k1) := "v"], rest) == [Present("v")] + [];
    assert RunPrivate(stores[n1 := StoreOf(stores, n1)[k1 := "v"]], rest) == [Absent] + [];
    assert RunShared(rows, ops)[0] == Present("v");
    assert RunPrivate(stores, ops)[0] == Absent;
  }

  /** Isolation is exact: over a fresh repository every interleaving of the plugins' loads and saves
      behaves as one private map per plugin iff their key ranges are pairwise disjoint. */
  lemma IsolationIffSeparate(names: set<string>)
    ensures (forall ops | PluginsIn(ops, names) :: RunShared(map[], ops) == RunPrivate(map[], ops))
            <==> PairwiseSeparate(names)
  {
    if PairwiseSeparate(names) {
      forall ops | PluginsIn(ops, names) ensures RunShared(map[], ops) == RunPrivate(map[], ops) {
        SharedIsPrivate(map[], map[], ops, names);
      }
    } else {
      var n1, n2 :| n1 in names && n2 in names && n1 != n2 && !Separate(n1, n2);
      CollisionLeaks(n1, n2);
      var ops :| PluginsIn(ops, {n1, n2}) && RunShared(map[], ops) != RunPrivate(map[], ops);
      assert PluginsIn(ops, names);
    }
  }

  /** Plugins of a valid configuration whose names hold no colon are isolated. */
  lemma ValidColonFreePluginsAreIsolated(plugins: seq<PluginConfig>, ops: seq<Op>)
    requires ValidConfig(plugins) && forall i | 0 <= i < |plugins| :: ':' !in plugins[i].name
    requires PluginsIn(ops, NamesOf(plugins))
    ensures RunShared(map[], ops) == RunPrivate(map[], ops)
  {
    var names := NamesOf(plugins);
    forall n1, n2 | n1 in names && n2 in names && n1 != n2 ensures Separate(n1, n2) {
      ColonFreeNamesAreSeparate(n1, n2);
    }
    SharedIsPrivate(map[], map[], ops, names);
  }

  // ---------------------------------------------------------------- the capability

  /** The repository port: upsert, and a distinguished answer for a missing key. */
  class Repository {
    var rows: Rows

    constructor ()
      ensures rows == map[]
    {
      rows := map[];
    }

    method Load(id: string) returns (r: Loaded)
      ensures r == Read(rows, id)
      ensures id !in rows ==> r == Absent
      ensures id in rows ==> r == Present(rows[id])
    {
      if id in rows {
        return Present(rows[id]);
      }
      r := Absent;
    }

    method Save(id: string, state: string)
      modifies this
      ensures rows == old(rows)[id := state]
    {
      rows := rows[id := state];
    }
  }

  class NamespacedStore {
    const repo: Repository
    const namespace: string

    constructor (repo: Repository, namespace: string)
      ensures this.repo == repo && this.namespace == namespace
    {
      this.repo := repo;
      this.namespace := namespace;
    }

    method Load(id: string) returns (r: Loaded)
      ensures [r] == RunShared(repo.rows, [Op.Load(namespace, id)])
      ensures namespace + ":" + id !in repo.rows ==> r == Absent
      ensures namespace + ":" + id in repo.rows ==> r == Present(repo.rows[namespace + ":" + id])
    {
      r := repo.Load(Key(namespace, id));
      assert [Op.Load(namespace, id)][1..] == [];
    }

    /** A save is seen by later loads of this store under this key, and by no load of a store whose
        range is separate. */
    method Save(id: string, state: string)
      modifies repo
      ensures repo.rows == old(repo.rows)[namespace + ":" + id := state]
      ensures forall k :: Read(repo.rows, Key(namespace, k)) ==
                          if k == id then Present(state) else old(Read(repo.rows, Key(namespace, k)))
      ensures forall n, k | Separate(namespace, n) ::
                Read(repo.rows, Key(n, k)) == old(Read(repo.rows, Key(n, k)))
    {
      repo.Save(Key(namespace, id), state);
      forall k { KeyInjective(namespace, k, id); }
      forall n | Separate(namespace, n) { RangesDisjointIff(namespace, n); }
    }
  }
}
