/**
 * Messages of the first-generation `anyai` crate: a message is written as a
 * JSON object with `role` and `content`, using provider-chosen names for the
 * roles, and read back with the same names.
 */
module AnyaiMessage {
  import opened Wrappers
  import opened JsonTree

  datatype MessageRole = User | Assistant | System | Tool

  datatype Message = Message(content: string, role: MessageRole)

  datatype ParseMessageError =
    | MissingField(field: string)
    | InvalidValue(field: string, value: string)

  /** The names a provider uses for the four roles. */
  datatype RoleNames = RoleNames(user: string, assistant: string, system: string, tool: string)

  function RoleName(role: MessageRole, names: RoleNames): string {
    match role
    case User => names.user
    case Assistant => names.assistant
    case System => names.system
    case Tool => names.tool
  }

  /** `Message::as_json`: the role under its provider name, and the content verbatim. */
  function AsJson(m: Message, names: RoleNames): (v: Json)
    ensures GetStr(v, "role") == Some(RoleName(m.role, names))
    ensures GetStr(v, "content") == Some(m.content)
    ensures v.JObject? && v.fields.Keys == {"role", "content"}
  {
    JObject(map["role" := JString(RoleName(m.role, names)), "content" := JString(m.content)])
  }

  /**
   * `Message::from_json`: the role name is read before the content, and names
   * are tried in the order user, assistant, system; a tool message is never
   * produced.
   */
  function FromJson(v: Json, user: string, assistant: string, system: string): (r: Result<Message, ParseMessageError>)
    ensures GetStr(v, "role").None? ==> r == Err(MissingField("role"))
    ensures GetStr(v, "role").Some? && GetStr(v, "content").None? ==> r == Err(MissingField("content"))
    ensures r.Ok? ==> r.value.role != Tool && GetStr(v, "content") == Some(r.value.content)
    ensures r.Ok? ==> GetStr(v, "role") == Some(RoleName(r.value.role, RoleNames(user, assistant, system, "")))
    ensures r.Err? && r.error.InvalidValue? ==>
      r.error.field == "role" && GetStr(v, "role") == Some(r.error.value)
      && r.error.value != user && r.error.value != assistant && r.error.value != system
    ensures GetStr(v, "role") == Some(user) && GetStr(v, "content").Some? ==>
      r == Ok(Message(GetStr(v, "content").value, User))
    ensures GetStr(v, "role") == Some(assistant) && assistant != user && GetStr(v, "content").Some? ==>
      r == Ok(Message(GetStr(v, "content").value, Assistant))
    ensures GetStr(v, "role") == Some(system) && system != user && system != assistant && GetStr(v, "content").Some? ==>
      r == Ok(Message(GetStr(v, "content").value, System))
    ensures GetStr(v, "role").Some? && GetStr(v, "content").Some? &&
            GetStr(v, "role").value !in {user, assistant, system} ==>
      r == Err(InvalidValue("role", GetStr(v, "role").value))
  {
    match GetStr(v, "role")
    case None => Err(MissingField("role"))
    case Some(role) =>
      match GetStr(v, "content")
      case None => Err(MissingField("content"))
      case Some(content) =>
        if role == user then Ok(Message(content, User))
        else if role == assistant then Ok(Message(content, Assistant))
        else if role == system then Ok(Message(content, System))
        else Err(InvalidValue("role", role))
  }

  /**
   * A user, assistant or system message written with pairwise distinct names
   * reads back as itself.
   */
  lemma FromJsonAsJson(m: Message, names: RoleNames)
    requires m.role != Tool
    requires names.user != names.assistant && names.user != names.system && names.assistant != names.system
    ensures FromJson(AsJson(m, names), names.user, names.assistant, names.system) == Ok(m)
  {
  }

  /** A tool message written under a name no other role uses is rejected with that name. */
  lemma ToolMessageIsRejected(m: Message, names: RoleNames)
    requires m.role == Tool
    requires names.tool != names.user && names.tool != names.assistant && names.tool != names.system
    ensures FromJson(AsJson(m, names), names.user, names.assistant, names.system)
      == Err(InvalidValue("role", names.tool))
  {
  }

  /** When two roles share a name, the earlier role in the order user, assistant, system wins. */
  lemma SharedNameReadsAsEarlierRole(content: string, name: string)
    ensures FromJson(AsJson(Message(content, System), RoleNames(name, name, name, "tool")), name, name, name)
      == Ok(Message(content, User))
  {
  }

  /** `Message::new`. */
  function NewMessage(content: string, role: MessageRole): (m: Message)
    ensures m.content == content && m.role == role
  {
    Message(content, role)
  }

  /** `From<T> for Message`: plain text becomes a user message. */
  function FromText(content: string): (m: Message)
    ensures m.role == User && m.content == content
  {
    NewMessage(content, User)
  }
}
