/** The event model and its routing contract (internal/event). */
module Event {

  const SUBJECT_PREFIX := "bw.evt"
  const SUBJECT_ALL := SUBJECT_PREFIX + ".>"
  const BROADCAST_TYPE := "@broadcast"
  const MAX_TYPE_LEN := 128

  datatype Event = Event(kind: string, workflowId: string, payload: string)

  predicate TokenChar(c: char) {
    'a' <= c <= 'z' || 'A' <= c <= 'Z' || '0' <= c <= '9' || c == '_' || c == '-'
  }

  /** ValidType. The source ranges over runes; every byte of a multi-byte or invalid rune lies
      outside the ASCII charset, so ranging over bytes decides the same predicate. */
  predicate ValidType(t: string) {
    t == BROADCAST_TYPE ||
    (t != "" && |t| <= MAX_TYPE_LEN && forall c | c in t :: TokenChar(c))
  }

  /** The bytes A-Z, a-z, 0-9, `-` and `_`, by their codes. */
  predicate WordByte(b: int) { 65 <= b <= 90 || 97 <= b <= 122 || 48 <= b <= 57 || b == 45 || b == 95 }

  /** The types admitted are the broadcast and the words of 1 to 128 bytes. */
  lemma ValidTypeIff(t: string)
    ensures ValidType(t) <==> t == "@broadcast" || (1 <= |t| <= 128 && forall c | c in t :: WordByte(c as int))
  {
    forall c ensures TokenChar(c) <==> WordByte(c as int) { TokenCharIs(c); }
  }

  lemma TokenCharIs(c: char)
    ensures TokenChar(c) <==> WordByte(c as int)
  {
  }

  /** The scope's first subscription: its own workflow's events. */
  function WorkflowSubject(w: string): string {
    SUBJECT_PREFIX + ".*." + w
  }

  const BROADCAST_SUBJECT := SUBJECT_PREFIX + "." + BROADCAST_TYPE + ".>"

  function SubjectsForWorkflow(w: string): seq<string> {
    if w == "" then [SUBJECT_ALL] else [WorkflowSubject(w), BROADCAST_SUBJECT]
  }
}
