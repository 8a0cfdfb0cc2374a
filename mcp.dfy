/**
 * The message envelope agents exchange (`create_mcp_message`,
 * commons/ch7/helpers.py): a fixed protocol version, the sender, the content
 * and a metadata dictionary.
 */
module Mcp {
  import opened Wrappers
  import opened Json

  const ProtocolVersion: string := "2.0 (Context Engine)"

  datatype Message = Message(protocolVersion: string, sender: string, content: Value, metadata: Value)

  /** `create_mcp_message(sender, content, metadata)`; a falsy metadata argument becomes `{}`. */
  function CreateMessage(sender: string, content: Value, metadata: Value): (m: Message)
    ensures m.protocolVersion == ProtocolVersion
    ensures m.sender == sender && m.content == content
    ensures Truthy(metadata) ==> m.metadata == metadata
    ensures !Truthy(metadata) ==> m.metadata == Obj([])
    ensures m.metadata.Obj? || Truthy(metadata)
  {
    Message(ProtocolVersion, sender, content, Or(metadata, Obj([])))
  }

  /** The dictionary the source builds. */
  function ToValue(m: Message): Value {
    Obj([
      Field("protocol_version", Str(m.protocolVersion)),
      Field("sender", Str(m.sender)),
      Field("content", m.content),
      Field("metadata", m.metadata)
    ])
  }

  /** Reading a field back from the dictionary of a created message gives what went in. */
  lemma CreateMessageFields(sender: string, content: Value, metadata: Value)
    ensures Index(ToValue(CreateMessage(sender, content, metadata)), "content") == Ok(content)
    ensures Index(ToValue(CreateMessage(sender, content, metadata)), "sender") == Ok(Str(sender))
    ensures Index(ToValue(CreateMessage(sender, content, metadata)), "protocol_version") == Ok(Str(ProtocolVersion))
  {
    var fs := ToValue(CreateMessage(sender, content, metadata)).fields;
    assert fs[0].key != "content" && fs[1].key != "content" && fs[2].key == "content";
    assert fs[0].key != "sender" && fs[1].key == "sender";
    assert fs[0].key == "protocol_version";
  }
}
