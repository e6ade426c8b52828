/** The two boundaries through which events enter the bus: the HTTP ingress (internal/server) and
    the script `publish` capability (internal/plugin). */
module Ingress {
  import opened Event
  import opened Routing

  const MAX_WORKFLOW_ID_LEN := 128
  const MAX_SCRIPT_PAYLOAD := 0x10_0000

  datatype Verdict = Admitted | BadType | WorkflowTooLong | BadWorkflow | PayloadTooLarge

  predicate ValidWorkflowId(s: string) { forall c | c in s :: !IllegalChar(c) }

  /** validateSubmit */
  function ValidateSubmit(e: Event): Verdict {
    if !ValidType(e.kind) then BadType
    else if |e.workflowId| > MAX_WORKFLOW_ID_LEN then WorkflowTooLong
    else if e.workflowId != "" && !ValidWorkflowId(e.workflowId) then BadWorkflow
    else Admitted
  }

  predicate ValidSubjectToken(s: string) { forall c | c in s :: TokenChar(c) }

  /** PublishCapability.Publish, up to the point where the event is forwarded. */
  function CheckScriptEvent(e: Event): Verdict {
    if !ValidType(e.kind) then BadType
    else if |e.workflowId| > MAX_WORKFLOW_ID_LEN ||
            (e.workflowId != "" && !ValidSubjectToken(e.workflowId)) then BadWorkflow
    else if |e.payload| > MAX_SCRIPT_PAYLOAD then PayloadTooLarge
    else Admitted
  }

  /** The HTTP ingress admits exactly the events with a valid type and a workflow of at most 128 bytes,
      none of them whitespace or a wildcard; the first of these to fail is the reply. */
  lemma SubmitRule(e: Event)
    ensures ValidateSubmit(e).Admitted? <==>
            ValidType(e.kind) && |e.workflowId| <= 128 && forall c | c in e.workflowId :: !Stray(c)
    ensures ValidateSubmit(e) == BadType <==> !ValidType(e.kind)
    ensures ValidateSubmit(e) == WorkflowTooLong <==> ValidType(e.kind) && |e.workflowId| > 128
    ensures ValidateSubmit(e) != PayloadTooLarge
  {
  }

  /** A script may publish exactly the events with a valid type, a workflow of at most 128 bytes that
      is a word, and a payload of at most 1 MiB; the first of these to fail is the error. */
  lemma ScriptRule(e: Event)
    ensures var plain := |e.workflowId| <= 128 && forall c | c in e.workflowId :: WordByte(c as int);
            && (CheckScriptEvent(e).Admitted? <==> ValidType(e.kind) && plain && |e.payload| <= 1048576)
            && (CheckScriptEvent(e) == BadType <==> !ValidType(e.kind))
            && (CheckScriptEvent(e) == BadWorkflow <==> ValidType(e.kind) && !plain)
            && CheckScriptEvent(e) != WorkflowTooLong
  {
    forall c ensures TokenChar(c) <==> WordByte(c as int) { TokenCharIs(c); }
  }

  lemma PlaceholderIsToken()
    ensures CheckToken(EMPTY_WORKFLOW_TOKEN)
  {
  }

  /** The HTTP ingress admits exactly the events the bus can encode within its own, tighter
      workflow length: encoding never fails on an admitted event, and nothing else is lost. */
  lemma SubmitAdmitsIff(e: Event)
    ensures ValidateSubmit(e).Admitted? <==> Encodable(e) && |e.workflowId| <= MAX_WORKFLOW_ID_LEN
  {
    PlaceholderIsToken();
  }

  /** A script may publish exactly the events the HTTP ingress admits whose workflow keeps to the
      type charset and whose payload is bounded. */
  lemma ScriptAdmitsIff(e: Event)
    ensures CheckScriptEvent(e).Admitted? <==>
            ValidateSubmit(e).Admitted? && ValidSubjectToken(e.workflowId) &&
            |e.payload| <= MAX_SCRIPT_PAYLOAD
    ensures CheckScriptEvent(e).Admitted? ==> Encodable(e)
  {
    if ValidSubjectToken(e.workflowId) {
      forall c | c in e.workflowId ensures !IllegalChar(c) { assert TokenChar(c); }
    }
    SubmitAdmitsIff(e);
  }

  /** An event admitted at either boundary reaches every any-scope instance, and the instances
      scoped to its workflow, and no other scoped instance unless it is a broadcast. */
  lemma AdmittedEventsAreRouted(e: Event, w: string)
    requires ValidateSubmit(e).Admitted? || CheckScriptEvent(e).Admitted?
    requires w != "" && LiteralScope(w)
    ensures Encodable(e) && Matches(SUBJECT_ALL, SubjectFor(e).subject)
    ensures (exists f | f in SubjectsForWorkflow(w) :: Matches(f, SubjectFor(e).subject)) <==>
            WorkflowToken(e) == w || e.kind == BROADCAST_TYPE
  {
    SubmitAdmitsIff(e);
    ScriptAdmitsIff(e);
    AnySubjectMatch(e);
    RoutingExact(w, e);
    assert SubjectsForWorkflow(w)[0] in SubjectsForWorkflow(w);
    assert SubjectsForWorkflow(w)[1] in SubjectsForWorkflow(w);
  }
}
