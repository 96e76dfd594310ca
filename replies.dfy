/** What a route handler answers, and how the handlers read a chat-completion
    provider's JSON reply. */
module Replies {
  import opened Wrappers
  import opened Json

  /** `NextResponse.json(body)` (`Ok`, HTTP 200) or
      `NextResponse.json({ error, ...extra }, { status })` (`Err`). A handler
      that passes no status answers an error with HTTP 200. */
  datatype Reply =
    | Ok(body: Value)
    | Err(status: nat, error: string, extra: map<string, Value>)

  /** `data?.choices?.[0]?.message?.content`. */
  function ChatContent(data: Value): Option<Value> {
    ThenMember(ThenMember(ThenFirst(Member(data, "choices")), "message"), "content")
  }

  /** The provider follows the chat-completion format: the message content,
      when it is there and truthy, is a string. */
  predicate ChatShaped(data: Value) {
    Textual(ChatContent(data))
  }

  /** `data?.choices?.[0]?.message?.content || ""`: non-empty exactly when
      the handlers' `!content` test lets the reply through. */
  function ContentText(data: Value): (r: string)
    requires ChatShaped(data)
    ensures r != "" <==> Present(ChatContent(data))
  {
    TextOf(ChatContent(data))
  }

  /** A chat reply whose first choice carries `text` as its message. */
  function ChatReplyWith(text: string): Value {
    Obj(map["choices" := Arr([Obj(map["message" := Obj(map["content" := Str(text)])])])])
  }

  lemma ContentOfChatReply(text: string)
    ensures ChatShaped(ChatReplyWith(text)) && ContentText(ChatReplyWith(text)) == text
  {
  }
}
