/** Subject encoding and durable naming (internal/bus), against the NATS subject wildcards. */
module Routing {
  import opened Strings
  import opened Event

  const EMPTY_WORKFLOW_TOKEN := "_"
  const MAX_TOKEN_LEN := 256

  datatype SubjectError = InvalidType | TokenLength | TokenCharacter
  datatype Subject = Encoded(subject: string) | Rejected(error: SubjectError)

  predicate IllegalChar(c: char) {
    c == ' ' || c == '\t' || c == '\r' || c == '\n' || c == '*' || c == '>'
  }

  predicate CheckToken(s: string) {
    0 < |s| <= MAX_TOKEN_LEN && forall c | c in s :: !IllegalChar(c)
  }

  /** The workflow token of an event: the placeholder stands in for an unset workflow. */
  function WorkflowToken(e: Event): string {
    if e.workflowId == "" then EMPTY_WORKFLOW_TOKEN else e.workflowId
  }

  function SubjectText(kind: string, token: string): string {
    SUBJECT_PREFIX + "." + kind + "." + token
  }

  function SubjectFor(e: Event): Subject {
    var w := WorkflowToken(e);
    if !ValidType(e.kind) then Rejected(InvalidType)
    else if !(0 < |w| <= MAX_TOKEN_LEN) then Rejected(TokenLength)
    else if exists c | c in w :: IllegalChar(c) then Rejected(TokenCharacter)
    else Encoded(SubjectText(e.kind, w))
  }

  predicate Encodable(e: Event) { SubjectFor(e).Encoded? }

  // ---------------------------------------------------------------- what can be encoded

  /** A byte that has no place in a subject token. */
  predicate Stray(c: char) { c in " \t\r\n*>" }

  /** Exactly the events with a valid type and a workflow token of 1 to 256 bytes, none of them
      whitespace or a wildcard, can be encoded; the first of these to fail is the error. */
  lemma EncodableIff(e: Event)
    ensures var w := if e.workflowId == "" then "_" else e.workflowId;
            && (Encodable(e) <==> ValidType(e.kind) && |w| <= 256 && forall c | c in w :: !Stray(c))
            && (SubjectFor(e) == Rejected(InvalidType) <==> !ValidType(e.kind))
            && (SubjectFor(e) == Rejected(TokenLength) <==> ValidType(e.kind) && |w| > 256)
  {
    forall c ensures IllegalChar(c) <==> Stray(c) { StrayIs(c); }
    assert forall c | c in "_" :: !IllegalChar(c);
  }

  lemma StrayIs(c: char)
    ensures IllegalChar(c) <==> Stray(c)
  {
    assert " \t\r\n*>" == [' ', '\t', '\r', '\n', '*', '>'];
  }

  /** The text of an encoded subject, and that it holds no stray byte. */
  lemma SubjectFormat(e: Event)
    requires Encodable(e)
    ensures SubjectFor(e).subject == "bw.evt." + e.kind + "." + (if e.workflowId == "" then "_" else e.workflowId)
    ensures forall c | c in SubjectFor(e).subject :: !Stray(c)
  {
    var w := WorkflowToken(e);
    var head := SUBJECT_PREFIX + ".";
    assert head == "bw.evt.";
    assert forall c | c in head :: !Stray(c);
    forall c | c in e.kind ensures !Stray(c) {
      if e.kind == BROADCAST_TYPE { BroadcastHasNoStray(c); } else { assert TokenChar(c); }
    }
    EncodableIff(e);
    assert SubjectFor(e).subject == head + e.kind + "." + w;
  }

  lemma BroadcastHasNoStray(c: char)
    requires c in BROADCAST_TYPE
    ensures !Stray(c)
  {
  }

  // ---------------------------------------------------------------- NATS wildcards

  /** Token-by-token matching: `*` is one token, a final `>` is one or more trailing tokens. */
  predicate MatchTokens(filter: seq<string>, subject: seq<string>) {
    if filter == [] then subject == []
    else if filter == [">"] then subject != []
    else subject != [] && (filter[0] == "*" || filter[0] == subject[0]) &&
         MatchTokens(filter[1..], subject[1..])
  }

  predicate Matches(filter: string, subject: string) {
    MatchTokens(Split(filter, '.'), Split(subject, '.'))
  }

  predicate FullWildcard(filter: seq<string>) {
    filter != [] && filter[|filter| - 1] == ">"
  }

  predicate WildcardAt(tokens: seq<string>, i: nat)
    requires i < |tokens|
  {
    tokens[i] == "*" || (tokens[i] == ">" && i == |tokens| - 1)
  }

  /** The recursive matcher decides the positional definition of NATS subject matching. */
  lemma {:induction false} MatchTokensMeaning(filter: seq<string>, subject: seq<string>)
    ensures MatchTokens(filter, subject) <==>
            if FullWildcard(filter) then
              |subject| >= |filter| &&
              forall i | 0 <= i < |filter| - 1 :: filter[i] == "*" || filter[i] == subject[i]
            else
              |subject| == |filter| &&
              forall i | 0 <= i < |filter| :: filter[i] == "*" || filter[i] == subject[i]
  {
    if filter == [] || filter == [">"] || subject == [] {
    } else {
      var f, s := filter[1..], subject[1..];
      MatchTokensMeaning(f, s);
      assert forall i | 1 <= i < |filter| :: filter[i] == f[i - 1];
      assert forall i | 1 <= i < |subject| :: subject[i] == s[i - 1];
      assert forall i | 0 <= i < |f| :: f[i] == filter[i + 1];
      assert forall i | 0 <= i < |s| :: s[i] == subject[i + 1];
    }
  }

  /** A filter without wildcard tokens matches itself only. */
  lemma LiteralMatch(filter: seq<string>, subject: seq<string>)
    requires filter != []
    requires forall i | 0 <= i < |filter| :: !WildcardAt(filter, i)
    ensures MatchTokens(filter, subject) <==> filter == subject
  {
    MatchTokensMeaning(filter, subject);
    assert !WildcardAt(filter, |filter| - 1);
    forall i | 0 <= i < |filter| ensures filter[i] != "*" { assert !WildcardAt(filter, i); }
  }

  // ---------------------------------------------------------------- encoding is unambiguous

  lemma TypeIsOneToken(kind: string)
    requires ValidType(kind)
    ensures Split(kind, '.') == [kind]
  {
    SplitSingle(kind, '.');
  }

  lemma SubjectTokens(kind: string, token: string)
    requires '.' !in kind
    ensures Split(SubjectText(kind, token), '.') == ["bw", "evt", kind] + Split(token, '.')
  {
    TokensFrom("bw", "evt", kind, token);
    assert "bw" + "." + "evt" == SUBJECT_PREFIX;
  }

  lemma TokensFrom(a: string, b: string, kind: string, token: string)
    requires '.' !in a && '.' !in b && '.' !in kind
    ensures Split(a + "." + b + "." + kind + "." + token, '.') == [a, b, kind] + Split(token, '.')
  {
    SplitSingle(a, '.');
    SplitSingle(b, '.');
    SplitSingle(kind, '.');
    SplitConcat(a, b, '.');
    SplitConcat(a + "." + b, kind, '.');
    SplitConcat(a + "." + b + "." + kind, token, '.');
    assert [a] + [b] + [kind] == [a, b, kind];
  }

  /** Reading a subject back: the third token is the type, the rest the workflow token. */
  function DecodeSubject(subject: string): (string, string) {
    var tokens := Split(subject, '.');
    if |tokens| < 4 then ("", "") else (tokens[2], Join(tokens[3..], '.'))
  }

  lemma AfterThree(a: string, b: string, c: string, rest: seq<string>)
    ensures ([a, b, c] + rest)[3..] == rest
  {
  }

  lemma DecodeEncode(e: Event)
    requires Encodable(e)
    ensures DecodeSubject(SubjectFor(e).subject) == (e.kind, WorkflowToken(e))
  {
    var w := WorkflowToken(e);
    TypeIsOneToken(e.kind);
    SubjectTokens(e.kind, w);
    AfterThree("bw", "evt", e.kind, Split(w, '.'));
    JoinSplit(w, '.');
  }

  /** Two encodable events share a subject iff they agree on type and workflow, where the only
      workflows identified are the unset one and the literal placeholder. */
  lemma SubjectUnambiguous(e1: Event, e2: Event)
    requires Encodable(e1) && Encodable(e2)
    ensures SubjectFor(e1) == SubjectFor(e2) <==>
            e1.kind == e2.kind &&
            (e1.workflowId == e2.workflowId ||
             {e1.workflowId, e2.workflowId} == {"", EMPTY_WORKFLOW_TOKEN})
  {
    DecodeEncode(e1);
    DecodeEncode(e2);
    if {e1.workflowId, e2.workflowId} == {"", EMPTY_WORKFLOW_TOKEN} {
      assert e1.workflowId in {"", EMPTY_WORKFLOW_TOKEN};
      assert e2.workflowId in {"", EMPTY_WORKFLOW_TOKEN};
    }
  }

  /** Dot-free types are what makes it unambiguous: with a dotted type the encoding collides. */
  lemma DottedTypeWouldCollide(a: string, b: string, c: string)
    ensures SubjectText(a + "." + b, c) == SubjectText(a, b + "." + c)
    ensures !ValidType(a + "." + b)
  {
    var p := SUBJECT_PREFIX + ".";
    assert p + (a + "." + b) + "." + c == p + a + "." + (b + "." + c);
    assert (a + "." + b)[|a|] == '.';
    assert '.' in a + "." + b && !TokenChar('.');
  }

  // ---------------------------------------------------------------- routing is exact

  /** No whole token of the scope is a wildcard (dots are allowed). */
  predicate LiteralScope(w: string) {
    var t := Split(w, '.');
    forall i | 0 <= i < |t| :: !WildcardAt(t, i)
  }

  lemma WorkflowSubjectTokens(w: string)
    ensures Split(WorkflowSubject(w), '.') == ["bw", "evt", "*"] + Split(w, '.')
  {
    assert WorkflowSubject(w) == SubjectText("*", w);
    SubjectTokens("*", w);
  }

  lemma MatchCons(f: string, filter: seq<string>, t: string, subject: seq<string>)
    requires f != ">"
    ensures MatchTokens([f] + filter, [t] + subject) <==>
            (f == "*" || f == t) && MatchTokens(filter, subject)
  {
    assert ([f] + filter)[1..] == filter && ([t] + subject)[1..] == subject;
    assert ([f] + filter)[0] == f;
  }

  /** The prefix and type tokens of a filter and of a subject are matched one by one. */
  lemma MatchHead(kind: string, filter: seq<string>, e: Event)
    requires Encodable(e) && kind != ">"
    ensures MatchTokens(["bw", "evt", kind] + filter, Split(SubjectFor(e).subject, '.')) <==>
            (kind == "*" || kind == e.kind) && MatchTokens(filter, Split(WorkflowToken(e), '.'))
  {
    var te := Split(WorkflowToken(e), '.');
    TypeIsOneToken(e.kind);
    SubjectTokens(e.kind, WorkflowToken(e));
    MatchCons(kind, filter, e.kind, te);
    MatchPrefix("bw", "evt", kind, filter, e.kind, te);
  }

  lemma MatchPrefix(a: string, b: string, kind: string, filter: seq<string>, k: string, tokens: seq<string>)
    requires a != ">" && b != ">" && kind != ">"
    ensures MatchTokens([a, b, kind] + filter, [a, b, k] + tokens) <==>
            MatchTokens([kind] + filter, [k] + tokens)
  {
    MatchCons(b, [kind] + filter, b, [k] + tokens);
    MatchCons(a, [b] + ([kind] + filter), a, [b] + ([k] + tokens));
    assert [a, b, kind] + filter == [a] + ([b] + ([kind] + filter));
    assert [a, b, k] + tokens == [a] + ([b] + ([k] + tokens));
  }

  lemma WorkflowSubjectMatch(w: string, e: Event)
    requires Encodable(e)
    ensures Matches(WorkflowSubject(w), SubjectFor(e).subject) <==>
            MatchTokens(Split(w, '.'), Split(WorkflowToken(e), '.'))
  {
    WorkflowSubjectTokens(w);
    MatchHead("*", Split(w, '.'), e);
  }

  lemma BroadcastSubjectMatch(e: Event)
    requires Encodable(e)
    ensures Matches(BROADCAST_SUBJECT, SubjectFor(e).subject) <==> e.kind == BROADCAST_TYPE
  {
    BroadcastTokens();
    MatchHead(BROADCAST_TYPE, [">"], e);
  }

  lemma AnySubjectTokens()
    ensures Split(SUBJECT_ALL, '.') == ["bw", "evt", ">"]
  {
    SubjectTokensOf("bw", "evt", ">");
    assert SUBJECT_ALL == "bw" + "." + "evt" + "." + ">";
  }

  lemma SubjectTokensOf(a: string, b: string, c: string)
    requires '.' !in a && '.' !in b && '.' !in c
    ensures Split(a + "." + b + "." + c, '.') == [a, b, c]
  {
    SplitSingle(a, '.');
    SplitSingle(b, '.');
    SplitSingle(c, '.');
    SplitConcat(a, b, '.');
    SplitConcat(a + "." + b, c, '.');
  }

  lemma AnySubjectMatch(e: Event)
    requires Encodable(e)
    ensures Matches(SUBJECT_ALL, SubjectFor(e).subject)
  {
    AnySubjectTokens();
    TypeIsOneToken(e.kind);
    SubjectTokens(e.kind, WorkflowToken(e));
    MatchTokensMeaning(["bw", "evt", ">"], ["bw", "evt", e.kind] + Split(WorkflowToken(e), '.'));
  }

  lemma LiteralScopeMatch(w: string, e: Event)
    requires LiteralScope(w) && Encodable(e)
    ensures Matches(WorkflowSubject(w), SubjectFor(e).subject) <==> WorkflowToken(e) == w
  {
    WorkflowSubjectMatch(w, e);
    LiteralMatch(Split(w, '.'), Split(WorkflowToken(e), '.'));
    JoinSplit(w, '.');
    JoinSplit(WorkflowToken(e), '.');
  }

  lemma UnderAll(kind: string, rest: seq<string>, subject: string)
    requires kind != ">" && rest != [] && MatchTokens(["bw", "evt", kind] + rest, Split(subject, '.'))
    ensures Matches(SUBJECT_ALL, subject)
  {
    var filter, s := ["bw", "evt", kind] + rest, Split(subject, '.');
    MatchTokensMeaning(filter, s);
    assert filter[0] == "bw" && filter[1] == "evt";
    AnySubjectTokens();
    MatchTokensMeaning(["bw", "evt", ">"], s);
  }

  /** Whatever a scope subscribes to is an event of the stream. */
  lemma SubscribedIsEvent(w: string, filter: string, subject: string)
    requires filter in SubjectsForWorkflow(w) && Matches(filter, subject)
    ensures Matches(SUBJECT_ALL, subject)
  {
    if filter == SUBJECT_ALL {
    } else if filter == WorkflowSubject(w) {
      WorkflowSubjectTokens(w);
      UnderAll("*", Split(w, '.'), subject);
    } else {
      BroadcastTokens();
      UnderAll(BROADCAST_TYPE, [">"], subject);
    }
  }

  lemma BroadcastTokens()
    ensures Split(BROADCAST_SUBJECT, '.') == ["bw", "evt", BROADCAST_TYPE] + [">"]
  {
    assert BROADCAST_SUBJECT == SubjectText(BROADCAST_TYPE, ">");
    SubjectTokens(BROADCAST_TYPE, ">");
    SplitSingle(">", '.');
  }

  /** A scoped instance receives exactly its workflow's events and the broadcasts; an event
      arrives on both subscriptions only if it is a broadcast tagged with the scope; and the
      any-scope subscription receives everything. */
  lemma RoutingExact(w: string, e: Event)
    requires w != "" && LiteralScope(w) && Encodable(e)
    ensures |SubjectsForWorkflow(w)| == 2
    ensures Matches(SubjectsForWorkflow(w)[0], SubjectFor(e).subject) <==> WorkflowToken(e) == w
    ensures Matches(SubjectsForWorkflow(w)[1], SubjectFor(e).subject) <==> e.kind == BROADCAST_TYPE
    ensures (forall f | f in SubjectsForWorkflow(w) :: Matches(f, SubjectFor(e).subject)) <==>
            e.kind == BROADCAST_TYPE && WorkflowToken(e) == w
    ensures forall f | f in SubjectsForWorkflow("") :: Matches(f, SubjectFor(e).subject)
  {
    var subjects := SubjectsForWorkflow(w);
    LiteralScopeMatch(w, e);
    BroadcastSubjectMatch(e);
    assert subjects[0] in subjects && subjects[1] in subjects;
    AnySubjectMatch(e);
  }

  /** The broker filter for scope w admits exactly the encodable events of workflow w. */
  ghost predicate ExactScope(w: string) {
    forall e: Event | Encodable(e) ::
      Matches(WorkflowSubject(w), SubjectFor(e).subject) <==> WorkflowToken(e) == w
  }

  /** The tokens with each wildcard replaced by the shortest token it matches, the empty one. */
  function InstantiateTokens(tokens: seq<string>): (r: seq<string>)
    ensures |r| == |tokens|
  {
    if tokens == [] then []
    else [if WildcardAt(tokens, 0) then "" else tokens[0]] + InstantiateTokens(tokens[1..])
  }

  /** The shortest workflow token that the scope's filter matches. */
  function Shortest(w: string): string {
    var t := Join(InstantiateTokens(Split(w, '.')), '.');
    if t == "" && w != "" then "x" else t
  }

  lemma {:induction false} InstantiatedAt(t: seq<string>, i: nat)
    requires i < |t|
    ensures InstantiateTokens(t)[i] == if WildcardAt(t, i) then "" else t[i]
  {
    if i > 0 { InstantiatedAt(t[1..], i - 1); }
  }

  lemma InstantiationMatches(t: seq<string>, i: nat)
    requires i < |t| && WildcardAt(t, i)
    ensures MatchTokens(t, InstantiateTokens(t)) && InstantiateTokens(t) != t
  {
    MatchTokensMeaning(t, InstantiateTokens(t));
    forall k | 0 <= k < |t| { InstantiatedAt(t, k); }
  }

  lemma {:induction false} InstantiateDotFree(t: seq<string>)
    requires forall p | p in t :: '.' !in p
    ensures forall p | p in InstantiateTokens(t) :: '.' !in p
  {
    if t != [] {
      assert forall p | p in t[1..] :: p in t;
      InstantiateDotFree(t[1..]);
    }
  }

  /** Whatever the filter matches is no shorter, and holds every byte of the instantiation. */
  lemma {:induction false} InstantiationIsShortest(t: seq<string>, s: seq<string>)
    requires MatchTokens(t, s)
    ensures |Join(InstantiateTokens(t), '.')| <= |Join(s, '.')|
    ensures forall c | c in Join(InstantiateTokens(t), '.') :: c in Join(s, '.')
  {
    if t == [] {
    } else if t == [">"] {
      assert InstantiateTokens(t) == [""] + InstantiateTokens([]) == [""];
    } else {
      InstantiationIsShortest(t[1..], s[1..]);
      var first := if WildcardAt(t, 0) then "" else t[0];
      assert InstantiateTokens(t)[1..] == InstantiateTokens(t[1..]);
      assert forall c | c in first :: c in s[0];
      if |t| > 1 { assert Join(s, '.') == s[0] + ['.'] + Join(s[1..], '.'); }
    }
  }

  /** The shortest token is itself matched, and is not the scope. */
  lemma ShortestMatches(w: string)
    requires !LiteralScope(w)
    ensures MatchTokens(Split(w, '.'), Split(Shortest(w), '.')) && Shortest(w) != w
  {
    var t := Split(w, '.');
    var r := InstantiateTokens(t);
    var i :| 0 <= i < |t| && WildcardAt(t, i);
    InstantiationMatches(t, i);
    InstantiateDotFree(t);
    SplitJoin(r, '.');
    if Join(r, '.') == "" { WildcardMatchesX(w, t, i); }
  }

  lemma WildcardMatchesX(w: string, t: seq<string>, i: nat)
    requires t == Split(w, '.') && i < |t| && WildcardAt(t, i) && Join(InstantiateTokens(t), '.') == ""
    ensures w != "" && w != "x" && MatchTokens(t, Split("x", '.'))
  {
    assert |t| == 1;
    SplitSingle("x", '.');
    MatchTokensMeaning(t, ["x"]);
    SplitSingle("", '.');
  }

  /** A token that the bus publishes and the filter matches makes the shortest one publishable. */
  lemma ShortestPublishable(w: string, token: string)
    requires MatchTokens(Split(w, '.'), Split(token, '.')) && CheckToken(token)
    requires w != ""
    ensures CheckToken(Shortest(w))
  {
    InstantiationIsShortest(Split(w, '.'), Split(token, '.'));
    JoinSplit(token, '.');
    assert forall c | c in "x" :: c == 'x';
  }

  lemma SelfMatch(t: seq<string>)
    requires t != []
    ensures MatchTokens(t, t)
  {
    MatchTokensMeaning(t, t);
  }

  /** A scope taken from configuration is not validated. Its filter is exact iff no whole token of
      it is a wildcard, or it can match nothing the bus would publish: that is settled by its
      shortest match. */
  lemma ExactScopeIff(w: string)
    ensures ExactScope(w) <==> LiteralScope(w) || !CheckToken(Shortest(w))
  {
    if LiteralScope(w) {
      forall e: Event | Encodable(e)
        ensures Matches(WorkflowSubject(w), SubjectFor(e).subject) <==> WorkflowToken(e) == w
      {
        LiteralScopeMatch(w, e);
      }
    } else if CheckToken(Shortest(w)) {
      InexactScope(w);
    } else {
      forall e: Event | Encodable(e)
        ensures Matches(WorkflowSubject(w), SubjectFor(e).subject) <==> WorkflowToken(e) == w
      {
        NothingMatches(w, e);
      }
    }
  }

  lemma InexactScope(w: string)
    requires !LiteralScope(w) && CheckToken(Shortest(w))
    ensures !ExactScope(w)
  {
    var e := Event("x", Shortest(w), "");
    ShortestMatches(w);
    assert Encodable(e) by { assert forall c | c in "x" :: TokenChar(c); }
    WorkflowSubjectMatch(w, e);
    assert Matches(WorkflowSubject(w), SubjectFor(e).subject) && WorkflowToken(e) != w;
  }

  lemma NothingMatches(w: string, e: Event)
    requires !LiteralScope(w) && !CheckToken(Shortest(w)) && Encodable(e)
    ensures !Matches(WorkflowSubject(w), SubjectFor(e).subject) && WorkflowToken(e) != w
  {
    WorkflowSubjectMatch(w, e);
    SplitSingle("", '.');
    SelfMatch(Split(w, '.'));
    if MatchTokens(Split(w, '.'), Split(WorkflowToken(e), '.')) { ShortestPublishable(w, WorkflowToken(e)); }
  }

  // ---------------------------------------------------------------- durable names

  function ReplaceChar(c: char): string {
    match c
    case '.' => "_"
    case '*' => "all"
    case '>' => "gt"
    case '@' => "at"
    case _ => [c]
  }

  function Replace(s: string): string {
    if s == "" then "" else ReplaceChar(s[0]) + Replace(s[1..])
  }

  function DurableName(subject: string): string { "bw_" + Replace(subject) }

  predicate PlainChar(c: char) { c != '.' && c != '*' && c != '>' && c != '@' }

  predicate Plain(s: string) { forall c | c in s :: PlainChar(c) }

  predicate Whitespace(c: char) { c == ' ' || c == '\t' || c == '\r' || c == '\n' }

  lemma {:induction false} ReplaceConcat(a: string, b: string)
    ensures Replace(a + b) == Replace(a) + Replace(b)
  {
    if a == "" {
      assert a + b == b;
    } else {
      assert (a + b)[1..] == a[1..] + b;
      ReplaceConcat(a[1..], b);
    }
  }

  /** Replacement fixes exactly the plain strings, and its results are plain. */
  lemma {:induction false} ReplacePlain(s: string)
    ensures Plain(Replace(s))
    ensures Replace(s) == s <==> Plain(s)
    ensures |Replace(s)| >= |s|
    ensures forall c | c in Replace(s) && Whitespace(c) :: c in s
  {
    if s == "" {
    } else {
      ReplacePlain(s[1..]);
      assert s == [s[0]] + s[1..];
      assert Plain(ReplaceChar(s[0]));
      if Plain(s) {
        assert PlainChar(s[0]);
        assert forall c | c in s[1..] :: c in s;
      }
      if Replace(s) == s && |ReplaceChar(s[0])| == 1 {
        assert Replace(s)[0] == ReplaceChar(s[0])[0];
        assert Replace(s)[1..] == Replace(s[1..]);
      }
    }
  }

  /** NATS accepts every durable name derived from a whitespace-free subject. */
  lemma DurableNameIsSafe(subject: string)
    requires forall c | c in subject :: !Whitespace(c)
    ensures forall c | c in DurableName(subject) :: PlainChar(c) && !Whitespace(c)
  {
    ReplacePlain(subject);
  }

  lemma ReplaceOne(c: char)
    ensures Replace([c]) == ReplaceChar(c)
  {
    assert [c][1..] == "";
  }

  lemma ReplaceDotted(a: string, b: string)
    ensures Replace(a + "." + b) == Replace(a) + "_" + Replace(b)
  {
    ReplaceConcat(a + ".", b);
    ReplaceConcat(a, ".");
    ReplaceOne('.');
  }

  lemma ReplaceSubject(p: string, kind: string, token: string)
    ensures Replace(p + "." + kind + "." + token) ==
            Replace(p) + "_" + Replace(kind) + "_" + Replace(token)
  {
    ReplaceDotted(p + "." + kind, token);
    ReplaceDotted(p, kind);
  }

  lemma WorkflowDurable(w: string)
    ensures DurableName(WorkflowSubject(w)) ==
            "bw_" + Replace(SUBJECT_PREFIX) + "_" + "all" + "_" + Replace(w)
  {
    WorkflowDurableFrom(SUBJECT_PREFIX, w);
    SubjectShapes(w);
  }

  lemma WorkflowDurableFrom(p: string, w: string)
    ensures "bw_" + Replace(p + "." + "*" + "." + w) ==
            "bw_" + Replace(p) + "_" + "all" + "_" + Replace(w)
  {
    ReplaceSubject(p, "*", w);
    ReplaceOne('*');
  }

  lemma DurableNameBy(a: string, b: string)
    ensures DurableName(a) == DurableName(b) <==> Replace(a) == Replace(b)
  {
    var p := "bw_";
    assert (p + Replace(a))[3..] == Replace(a) && (p + Replace(b))[3..] == Replace(b);
  }

  /** One instance's subscriptions never share a durable: the any-scope, workflow and broadcast
      durables are pairwise distinct for every scope. */
  lemma DurablesPairwiseDistinct(w: string)
    ensures DurableName(SUBJECT_ALL) != DurableName(WorkflowSubject(w))
    ensures DurableName(SUBJECT_ALL) != DurableName(BROADCAST_SUBJECT)
    ensures DurableName(WorkflowSubject(w)) != DurableName(BROADCAST_SUBJECT)
  {
    DurableNameBy(SUBJECT_ALL, WorkflowSubject(w));
    DurableNameBy(SUBJECT_ALL, BROADCAST_SUBJECT);
    DurableNameBy(WorkflowSubject(w), BROADCAST_SUBJECT);
    SubjectShapes(w);
    DistinctFrom(SUBJECT_PREFIX, w, BROADCAST_TYPE[1..]);
  }

  lemma SubjectShapes(w: string)
    ensures SUBJECT_ALL == SUBJECT_PREFIX + "." + ">"
    ensures WorkflowSubject(w) == SUBJECT_PREFIX + "." + "*" + "." + w
    ensures BROADCAST_SUBJECT == SUBJECT_PREFIX + "." + ("@" + BROADCAST_TYPE[1..]) + "." + ">"
  {
    var p := SUBJECT_PREFIX;
    assert p + ("." + "*" + "." + w) == p + "." + "*" + "." + w;
  }

  /** The filters as they reach the broker. */
  lemma FilterFormat(w: string)
    ensures SubjectsForWorkflow("") == ["bw.evt.>"]
    ensures w != "" ==> SubjectsForWorkflow(w) == ["bw.evt.*." + w, "bw.evt.@broadcast.>"]
  {
    assert SUBJECT_ALL == "bw.evt.>" && BROADCAST_SUBJECT == "bw.evt.@broadcast.>";
    assert SUBJECT_PREFIX + ".*." == "bw.evt.*.";
  }

  lemma AtPlain(s: string)
    requires Plain(s)
    ensures Replace("@" + s) == "at" + s
  {
    ReplaceConcat("@", s);
    ReplaceOne('@');
    ReplacePlain(s);
  }

  /** The durable names of filters of those shapes, as they reach the broker. */
  lemma DurableFormat(a: string, b: string, rest: string, w: string)
    requires Plain(a) && Plain(b) && Plain(rest) && Plain(w)
    ensures DurableName(a + "." + b + "." + ">") == "bw_" + (a + "_" + b + "_" + "gt")
    ensures DurableName(a + "." + b + "." + ("@" + rest) + "." + ">") ==
            "bw_" + (a + "_" + b + "_" + ("at" + rest) + "_" + "gt")
    ensures DurableName(a + "." + b + "." + "*" + "." + w) == "bw_" + (a + "_" + b + "_" + "all" + "_" + w)
  {
    ReplacePlain(a);
    ReplacePlain(b);
    ReplacePlain(w);
    AtPlain(rest);
    ReplaceOne('>');
    ReplaceOne('*');
    ReplaceSubject(a, b, ">");
    ReplaceDotted(a, b);
    ReplaceSubject(a + "." + b, "@" + rest, ">");
    ReplaceSubject(a + "." + b, "*", w);
  }

  lemma DistinctFrom(p: string, w: string, rest: string)
    ensures Replace(p + "." + ">") != Replace(p + "." + "*" + "." + w)
    ensures Replace(p + "." + ">") != Replace(p + "." + ("@" + rest) + "." + ">")
    ensures Replace(p + "." + "*" + "." + w) != Replace(p + "." + ("@" + rest) + "." + ">")
  {
    ReplaceDotted(p, ">");
    ReplaceSubject(p, "*", w);
    ReplaceSubject(p, "@" + rest, ">");
    ReplaceConcat("@", rest);
    ReplaceOne('>');
    ReplaceOne('*');
    ReplaceOne('@');
    var n := |Replace(p)| + 1;
    assert (Replace(p) + "_" + "gt")[n] == 'g';
    assert (Replace(p) + "_" + "all" + "_" + Replace(w))[n..][..2] == "al";
    assert (Replace(p) + "_" + ("at" + Replace(rest)) + "_" + "gt")[n..][..2] == "at";
  }

  lemma SameWorkflowDurable(v: string, w: string)
    ensures DurableName(WorkflowSubject(v)) == DurableName(WorkflowSubject(w)) <==> Replace(v) == Replace(w)
  {
    WorkflowDurable(v);
    WorkflowDurable(w);
    SamePrefix("bw_" + Replace(SUBJECT_PREFIX) + "_" + "all" + "_", Replace(v), Replace(w));
  }

  lemma SamePrefix(p: string, a: string, b: string)
    ensures p + a == p + b <==> a == b
  {
    assert (p + a)[|p|..] == a && (p + b)[|p|..] == b;
  }

  ghost predicate Holds(w: string, x: string) { exists a, b :: w == a + x + b }

  lemma ReplaceMiddle(a: string, x: string, b: string)
    ensures Replace(a + x + b) == Replace(a) + Replace(x) + Replace(b)
  {
    ReplaceConcat(a + x, b);
    ReplaceConcat(a, x);
  }

  /** A scope that holds what some byte is replaced by shares its durable with the scope that has the
      byte there instead. */
  lemma HoldsReplacement(w: string, c: char) returns (v: string)
    requires !PlainChar(c) && Holds(w, ReplaceChar(c))
    ensures v != w && Replace(v) == Replace(w)
  {
    var x := ReplaceChar(c);
    var a, b :| w == a + x + b;
    v := a + [c] + b;
    ReplaceMiddle(a, [c], b);
    ReplaceMiddle(a, x, b);
    ReplaceOne(c);
    ReplacePlain(x);
    assert Plain(x) && x[0] != c;
    assert v[|a|] == c && w[|a|] == x[0];
  }

  /** The only scopes with the durable of a plain one replace a byte into it. */
  lemma SharesByReplacement(w: string, v: string) returns (c: char)
    requires Plain(w) && v != w && Replace(v) == Replace(w)
    ensures !PlainChar(c) && Holds(w, ReplaceChar(c))
  {
    ReplacePlain(w);
    ReplacePlain(v);
    c :| c in v && !PlainChar(c);
    var i :| 0 <= i < |v| && v[i] == c;
    assert v == v[..i] + [c] + v[i + 1..];
    ReplaceMiddle(v[..i], [c], v[i + 1..]);
    ReplaceOne(c);
    assert w == Replace(v[..i]) + ReplaceChar(c) + Replace(v[i + 1..]);
  }

  /** Decided by the scope alone: it has a replaced byte, or what one is replaced by. */
  ghost predicate Ambiguous(w: string) {
    !Plain(w) || Holds(w, "_") || Holds(w, "all") || Holds(w, "gt") || Holds(w, "at")
  }

  /** A scope shares its durable with some other scope exactly if it contains one of the bytes `.`,
      `*`, `>`, `@`, or one of their replacements `_`, `all`, `gt`, `at`. */
  lemma DurableSharedIff(w: string)
    ensures (exists v :: v != w && DurableName(WorkflowSubject(v)) == DurableName(WorkflowSubject(w)))
            <==> Ambiguous(w)
  {
    if Ambiguous(w) {
      var v := Partner(w);
      SameWorkflowDurable(v, w);
    }
    forall v | v != w && !Ambiguous(w)
      ensures DurableName(WorkflowSubject(v)) != DurableName(WorkflowSubject(w))
    {
      SameWorkflowDurable(v, w);
      if Replace(v) == Replace(w) { var c := SharesByReplacement(w, v); }
    }
  }

  lemma Partner(w: string) returns (v: string)
    requires Ambiguous(w)
    ensures v != w && Replace(v) == Replace(w)
  {
    if !Plain(w) {
      v := Replace(w);
      ReplacePlain(w);
      ReplacePlain(v);
    } else if Holds(w, "_") {
      v := HoldsReplacement(w, '.');
    } else if Holds(w, "all") {
      v := HoldsReplacement(w, '*');
    } else if Holds(w, "gt") {
      v := HoldsReplacement(w, '>');
    } else {
      v := HoldsReplacement(w, '@');
    }
  }

  /** Among plain scopes no two share a durable, and exactly the others share one with a plain scope. */
  lemma WorkflowDurableSharedIff(w: string)
    ensures (exists v :: v != w && Plain(v) &&
                         DurableName(WorkflowSubject(v)) == DurableName(WorkflowSubject(w)))
            <==> !Plain(w)
  {
    WorkflowDurable(w);
    ReplacePlain(w);
    if !Plain(w) {
      var v := Replace(w);
      ReplacePlain(v);
      WorkflowDurable(v);
      assert v != w && Plain(v) && DurableName(WorkflowSubject(v)) == DurableName(WorkflowSubject(w));
    }
    forall v | v != w && Plain(v) && Plain(w)
      ensures DurableName(WorkflowSubject(v)) != DurableName(WorkflowSubject(w))
    {
      WorkflowDurable(v);
      ReplacePlain(v);
      var p := "bw_" + Replace(SUBJECT_PREFIX) + "_" + "all" + "_";
      assert (p + v)[|p|..] == v && (p + w)[|p|..] == w;
    }
  }

  /** A concrete collision: dotted workflow `a.b` and workflow `a_b` share one durable. */
  lemma DottedScopeCollides()
    ensures DurableName(WorkflowSubject("a.b")) == DurableName(WorkflowSubject("a_b"))
  {
    WorkflowDurable("a.b");
    WorkflowDurable("a_b");
    assert "a.b" == "a" + ("." + "b");
    ReplaceConcat("a", "." + "b");
    ReplaceConcat(".", "b");
    ReplaceOne('.');
    ReplacePlain("a");
    ReplacePlain("b");
    ReplacePlain("a_b");
  }
}
