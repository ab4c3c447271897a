/** HTTP responses as the handlers send them with `res.status(..).json(..)`. */
module Http {
  import opened Wrappers
  import opened Js

  /** A status code and the JSON body the client receives. */
  datatype Response = Response(status: int, body: Js)

  /** `res.status(status).json(v)`: the body is what serialisation keeps of `v`. */
  function Reply(status: int, v: Js): (r: Response)
    ensures r.status == status
    ensures v != Undefined ==> IsWire(r.body)
  {
    assert v != Undefined ==> IsWire(WireForm(v)) by {
      if v != Undefined { WireFormIsWire(v); }
    }
    Response(status, WireForm(v))
  }

  /** `{ message: text }` with the given status. */
  function MessageReply(status: int, text: string): Response
  {
    Reply(status, Obj([Prop("message", Str(text))]))
  }

  /** A field of `req.body` passes `!field` exactly when it is present and
      non-empty; None stands for an absent field. */
  predicate Given(field: Option<string>) {
    field.Some? && field.value != ""
  }

  const FieldsRequired := "All fields are required"
  const ServerError := "Server error, please try again later"
}
