/** What all three stream parsers report to their caller (internal/server/aiprotocol/aiprotocol.go). */
module StreamEvents {
  import opened Wrappers
  import opened Text

  datatype Call = Call(id: string, name: string, arguments: string)

  /** One callback; Done carries the turn's native blocks, when there are any. */
  datatype Event<+Raw> =
    | TextEvent(text: string)
    | ThinkingEvent(text: string)
    | CallEvent(call: Call)
    | DoneEvent(raw: Option<Raw>)

  datatype Outcome = Running | Finished | Failed

  /** How raw argument text becomes an argument object; None when it is not one. */
  type Assemble = string -> Option<string>

  predicate StartsObject(s: string) {
    s != "" && s[0] == '{'
  }

  /** The empty object, or what is valid JSON and starts like an object. */
  predicate IsObject(s: string, validJson: string -> bool) {
    StartsObject(s) && (s == "{}" || validJson(s))
  }

  /** `assembleToolArguments`, given which texts are valid JSON. */
  function AssembleToolArguments(raw: string, validJson: string -> bool): (r: Option<string>)
    ensures r.Some? ==> IsObject(r.value, validJson)
  {
    var trimmed := TrimSpace(raw);
    if trimmed == "" then Some("{}") else if validJson(trimmed) && trimmed[0] == '{' then Some(trimmed) else None
  }

  /** Arguments that never came, or came as white space, are the empty object. */
  lemma AssembleBlank(blank: string, validJson: string -> bool)
    requires AllIn(blank, SPACE)
    ensures AssembleToolArguments(blank, validJson) == Some("{}")
  {
    SpanIsUnique(blank, blank, "", SPACE);
  }

  /** Anything else is accepted exactly when, without the white space around it, it is a JSON object. */
  lemma AssembleTrims(before: string, s: string, after: string, validJson: string -> bool)
    requires Tight(s) && AllIn(before, SPACE) && AllIn(after, SPACE)
    ensures AssembleToolArguments(before + s + after, validJson) == if validJson(s) && StartsObject(s) then Some(s) else None
  {
    TrimSpaceDrops(before, s, after);
  }

  /** All that the streams need to know of it. */
  ghost predicate GivesObjects(assemble: Assemble, validJson: string -> bool) {
    forall raw :: assemble(raw).Some? ==> IsObject(assemble(raw).value, validJson)
  }

  lemma AssemblerGivesObjects(validJson: string -> bool)
    ensures GivesObjects(raw => AssembleToolArguments(raw, validJson), validJson)
  {
  }
}
