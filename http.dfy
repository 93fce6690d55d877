/** An HTTP answer of a handler: the status and the JSON body `c.json(...)` sends. */
module Http {
  import opened Wrappers
  import opened Json

  datatype Reply = Reply(status: nat, body: Json)

  /** `c.json({ error: message }, status)`. */
  function ErrorReply(status: nat, message: string): (r: Reply)
    ensures r.status == status && Member(r.body, "error") == Some(JStr(message))
  {
    LastFieldAt([("error", JStr(message))], "error", 0);
    Reply(status, JObj([("error", JStr(message))]))
  }

  /** `c.json({ error: message, details }, status)`. */
  function DetailedError(status: nat, message: string, details: string): (r: Reply)
    ensures r.status == status && Member(r.body, "error") == Some(JStr(message))
  {
    LastFieldAt([("error", JStr(message)), ("details", JStr(details))], "error", 0);
    Reply(status, JObj([("error", JStr(message)), ("details", JStr(details))]))
  }

  function Ok(body: Json): Reply {
    Reply(200, body)
  }

  /** `{ success: true, ...fields }`. */
  function Success(fields: seq<(string, Json)>): Json {
    JObj([("success", JBool(true))] + fields)
  }
}
