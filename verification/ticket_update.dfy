/**
  `updateZendeskTicket`: set the ticket's status when the card sits in the `qa`
  column. Two definitions: the function as written, whose parameter is spelled
  `zenedsk_id` while its body reads `zendesk_id`, and the evidently intended one.
 */
module TicketUpdate {
  import opened Wrappers
  import opened ProjectColumn

  /** What a call to `setZendeskTicketStatus` would be given. */
  datatype StatusCall = StatusCall(ticketId: int, status: string)

  /** The exceptions the script can throw; `RequestFailed` is a rejected issue fetch. */
  datatype JsError = TypeError(message: string) | ReferenceError(name: string) | RequestFailed(message: string)

  /** Either the function returned (having called the status step or not) or it threw. */
  datatype Outcome = Done(call: Option<StatusCall>) | Threw(error: JsError)

  /**
    The message of reading `.name` of `undefined`, in V8's wording from Node.js
    16.9 on (earlier versions say "Cannot read property 'name' of undefined").
    Both `payload.repository.name` and `project_column.name` raise it.
   */
  const UndefinedNameMessage: string := "Cannot read properties of undefined (reading 'name')"

  /**
    The code as written. The message string has no `name`, so it does nothing;
    `undefined` throws on `.name`; the `qa` column throws when the argument
    `zendesk_id` is evaluated, as no such variable is in scope.
   */
  function UpdateTicketAsWritten(zenedskId: int, column: Result<Option<Column>, string>): (r: Outcome)
    ensures r.Done? ==> r.call.None?
    ensures r == Threw(ReferenceError("zendesk_id")) <==> column.Success? && column.value.Some? && column.value.value.name == "qa"
    ensures r == Threw(TypeError(UndefinedNameMessage)) <==> column == Success(None)
  {
    match column
    case Failure(_) => Done(None)
    case Success(None) => Threw(TypeError(UndefinedNameMessage))
    case Success(Some(c)) =>
      if c.name == "qa" then Threw(ReferenceError("zendesk_id")) else Done(None)
  }

  /** The intended behaviour: call the status step with the id exactly for the `qa` column. */
  function UpdateTicket(zendeskId: int, column: Result<Option<Column>, string>): (r: Outcome)
    ensures r.Done?
    ensures r.call.Some? <==> column.Success? && column.value.Some? && column.value.value.name == "qa"
    ensures r.call.Some? ==> r.call.value == StatusCall(zendeskId, "qa")
  {
    match column
    case Success(Some(c)) =>
      if c.name == "qa" then Done(Some(StatusCall(zendeskId, c.name))) else Done(None)
    case _ => Done(None)
  }

  /**
    The two definitions agree wherever the written one returns; it throws
    exactly where the intended one would set the status or the column is `undefined`.
   */
  lemma UpdateTicketFinding(id: int, column: Result<Option<Column>, string>)
    ensures UpdateTicketAsWritten(id, column).Done? ==> UpdateTicketAsWritten(id, column) == UpdateTicket(id, column)
    ensures UpdateTicketAsWritten(id, column).Threw? <==> UpdateTicket(id, column).call.Some? || column == Success(None)
  {
  }
}
