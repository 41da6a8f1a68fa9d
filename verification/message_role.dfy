/**
 * Chat messages of the core crate and the mapping between message roles and
 * their wire names: `as_str` and `from_str` match names exactly, while
 * deserialising lower-cases the name first.
 */
module MessageRoles {
  import opened Strings

  datatype MessageRole = User | Assistant | System | Tool | Text | Unknown(name: string)

  datatype Message = Message(content: string, role: MessageRole)

  /** The five names with a role of their own. */
  predicate IsKnownName(s: string) {
    s == "user" || s == "assistant" || s == "system" || s == "tool" || s == "text"
  }

  /** `MessageRole::as_str`. */
  function AsStr(r: MessageRole): (s: string)
    ensures r.Unknown? ==> s == r.name
    ensures !r.Unknown? ==> IsKnownName(s)
  {
    match r
    case User => "user"
    case Assistant => "assistant"
    case System => "system"
    case Tool => "tool"
    case Text => "text"
    case Unknown(other) => other
  }

  /** `MessageRole::from_str`: an exact, case-sensitive match, with `Unknown` for anything else. */
  function FromStr(s: string): (r: MessageRole)
    ensures r.Unknown? <==> !IsKnownName(s)
    ensures r.Unknown? ==> r.name == s
  {
    if s == "user" then User
    else if s == "assistant" then Assistant
    else if s == "system" then System
    else if s == "tool" then Tool
    else if s == "text" then Text
    else Unknown(s)
  }

  /** Naming the role parsed from any string gives that string back. */
  lemma AsStrFromStr(s: string)
    ensures AsStr(FromStr(s)) == s
  {
  }

  /**
   * Parsing a role's name gives the role back, except for an `Unknown` whose
   * name is one of the five known names.
   */
  lemma FromStrAsStr(r: MessageRole)
    ensures FromStr(AsStr(r)) == r <==> !(r.Unknown? && IsKnownName(r.name))
  {
  }

  /** `Serialize for MessageRole`: the role's name as a string. */
  function Serialize(r: MessageRole): (s: string)
    ensures FromStr(s) == r || (r.Unknown? && IsKnownName(r.name))
  {
    FromStrAsStr(r);
    AsStr(r)
  }

  /** `Deserialize for MessageRole`: the name is lower-cased (ASCII letters) before it is matched. */
  function Deserialize(s: string): (r: MessageRole)
    ensures r == FromStr(Lower(s))
    ensures r.Unknown? ==> r.name == Lower(s)
  {
    var lowered := Lower(s);
    if lowered == "user" then User
    else if lowered == "assistant" then Assistant
    else if lowered == "system" then System
    else if lowered == "tool" then Tool
    else if lowered == "text" then Text
    else Unknown(lowered)
  }

  /** Deserialising ignores the case of ASCII letters. */
  lemma DeserializeIgnoresCase(s: string, t: string)
    requires Lower(s) == Lower(t)
    ensures Deserialize(s) == Deserialize(t)
  {
  }

  /** `"USER"` deserialises to the user role. */
  lemma DeserializeUpperCaseUser()
    ensures Deserialize("USER") == User
  {
    assert Lower("USER") == "user";
  }

  lemma LowerIdempotent(s: string)
    ensures Lower(Lower(s)) == Lower(s)
  {
  }

  /**
   * Serialising then deserialising a role gives it back when its name is in
   * lower case and, for `Unknown`, is none of the five known names.
   */
  lemma DeserializeSerialize(r: MessageRole)
    requires r.Unknown? ==> Lower(r.name) == r.name && !IsKnownName(r.name)
    ensures Deserialize(Serialize(r)) == r
  {
    match r
    case User => assert Lower("user") == "user";
    case Assistant => assert Lower("assistant") == "assistant";
    case System => assert Lower("system") == "system";
    case Tool => assert Lower("tool") == "tool";
    case Text => assert Lower("text") == "text";
    case Unknown(_) =>
  }

  /** `Message::new`. */
  function NewMessage(content: string, role: MessageRole): (m: Message)
    ensures m.content == content && m.role == role
  {
    Message(content, role)
  }

  /** `From<T> for Message`: plain text becomes a user message. */
  function FromText(content: string): (m: Message)
    ensures m.role == User && m.content == content
  {
    NewMessage(content, User)
  }
}
