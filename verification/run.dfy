/**
  `run`: resolve the issue number, fetch the issue, read the ticket id and the
  column, and update the ticket. The issue fetch is a parameter: what the issue
  API answers for a request (an issue, no data, or a rejection).
 */
module Action {
  import opened Wrappers
  import opened Context
  import opened IssueNumber
  import opened ZendeskId
  import opened ProjectColumn
  import opened TicketUpdate

  datatype IssueRequest = IssueRequest(owner: string, repo: string, number: IssueRef)

  /** The promise `run()` settles to: a message (and the status call made), or an exception. */
  datatype RunOutcome = Resolved(message: string, call: Option<StatusCall>) | Rejected(error: JsError)

  const NoIssueNumberMessage: string := "No issue number found, no action taken"
  const NoIssueMessage: string := "No Issue found."
  const CompletedMessage: string := "Job Completed"

  /** What `run` has decided by the time it calls `updateZendeskTicket`. */
  datatype Stage = Stop(outcome: RunOutcome) | Update(zendeskId: int, column: Result<Option<Column>, string>)

  /** `run` up to the update call: the early exits and the values handed to the update. */
  function Prepare(input: string, payload: Payload, fetch: IssueRequest -> Result<Option<Issue>, string>): Stage {
    var number := GetIssueNumber(input, payload);
    match payload.repository
    case None => Stop(Rejected(TypeError(UndefinedNameMessage)))
    case Some(repo) =>
      match number
      case None => Stop(Resolved(NoIssueNumberMessage, None))
      case Some(n) =>
        match fetch(IssueRequest(repo.ownerLogin, repo.name, n))
        case Failure(e) => Stop(Rejected(RequestFailed(e)))
        case Success(None) => Stop(Resolved(NoIssueMessage, None))
        case Success(Some(issue)) => Update(GetZendeskId(issue), GetProjectColumn(payload))
  }

  function Settle(o: Outcome): RunOutcome {
    match o
    case Done(call) => Resolved(CompletedMessage, call)
    case Threw(e) => Rejected(e)
  }

  /** `run` with the intended `updateZendeskTicket`. */
  function Run(input: string, payload: Payload, fetch: IssueRequest -> Result<Option<Issue>, string>): (r: RunOutcome)
    ensures r.Rejected? ==> r.error.TypeError? || r.error.RequestFailed?
    ensures r.Resolved? && r.call.Some? ==> r.message == CompletedMessage && r.call.value.status == "qa"
  {
    match Prepare(input, payload, fetch)
    case Stop(o) => o
    case Update(id, column) => Settle(UpdateTicket(id, column))
  }

  /** `run` exactly as written. */
  function RunAsWritten(input: string, payload: Payload, fetch: IssueRequest -> Result<Option<Issue>, string>): (r: RunOutcome)
    ensures r.Resolved? ==> r.call.None?
  {
    match Prepare(input, payload, fetch)
    case Stop(o) => o
    case Update(id, column) => Settle(UpdateTicketAsWritten(id, column))
  }

  /** The early exits at the issue-number check and the issue check. */
  lemma EarlyExits(input: string, payload: Payload, fetch: IssueRequest -> Result<Option<Issue>, string>)
    requires payload.repository.Some?
    ensures GetIssueNumber(input, payload).None? ==>
      Run(input, payload, fetch) == Resolved(NoIssueNumberMessage, None)
    ensures GetIssueNumber(input, payload).Some? ==>
      var repo := payload.repository.value;
      var answer := fetch(IssueRequest(repo.ownerLogin, repo.name, GetIssueNumber(input, payload).value));
      && (answer == Success(None) ==> Run(input, payload, fetch) == Resolved(NoIssueMessage, None))
      && (answer.Failure? ==> Run(input, payload, fetch) == Rejected(RequestFailed(answer.error)))
  {
  }

  /**
    The ticket status is set exactly when the repository is present, an issue
    number resolves, the API returns that issue, and the card's column is `qa`;
    the ticket id is then the one read from the fetched issue's title.
   */
  lemma RunSetsStatusIff(input: string, payload: Payload, fetch: IssueRequest -> Result<Option<Issue>, string>)
    ensures Run(input, payload, fetch).Resolved? && Run(input, payload, fetch).call.Some? <==>
      && payload.repository.Some?
      && GetIssueNumber(input, payload).Some?
      && var repo := payload.repository.value;
      && var answer := fetch(IssueRequest(repo.ownerLogin, repo.name, GetIssueNumber(input, payload).value));
      && answer.Success? && answer.value.Some?
      && GetProjectColumn(payload) == Success(Some(Column(15338077, "qa")))
    ensures Run(input, payload, fetch).Resolved? && Run(input, payload, fetch).call.Some? ==>
      var repo := payload.repository.value;
      var answer := fetch(IssueRequest(repo.ownerLogin, repo.name, GetIssueNumber(input, payload).value));
      Run(input, payload, fetch).call.value == StatusCall(GetZendeskId(answer.value.value), "qa")
  {
    var column := GetProjectColumn(payload);
    if column.Success? && column.value.Some? && column.value.value.name == "qa" {
      assert column.value.value == Columns[0];
    }
    match Prepare(input, payload, fetch)
    case Stop(o) =>
      assert Run(input, payload, fetch) == o;
    case Update(id, col) =>
      var repo := payload.repository.value;
      var answer := fetch(IssueRequest(repo.ownerLogin, repo.name, GetIssueNumber(input, payload).value));
      assert answer.Success? && answer.value.Some?;
      assert id == GetZendeskId(answer.value.value) && col == column;
      assert Run(input, payload, fetch) == Settle(UpdateTicket(id, col));
  }

  /** The written `run` and the intended one differ only where the written update throws. */
  lemma RunAsWrittenAgrees(input: string, payload: Payload, fetch: IssueRequest -> Result<Option<Issue>, string>)
    ensures RunAsWritten(input, payload, fetch).Resolved? ==> RunAsWritten(input, payload, fetch) == Run(input, payload, fetch)
    ensures RunAsWritten(input, payload, fetch) != Run(input, payload, fetch) ==>
      Run(input, payload, fetch).call.Some? || RunAsWritten(input, payload, fetch) == Rejected(TypeError(UndefinedNameMessage))
  {
    match Prepare(input, payload, fetch)
    case Stop(o) =>
    case Update(id, column) => UpdateTicketFinding(id, column);
  }

  /**
    A card in the `qa` column with a fetched issue: the written `run` rejects
    with a ReferenceError, where the intended one sets the ticket to `qa`.
   */
  lemma QaColumnFinding(input: string, payload: Payload, fetch: IssueRequest -> Result<Option<Issue>, string>, issue: Issue)
    requires payload.repository.Some? && GetIssueNumber(input, payload).Some?
    requires fetch(IssueRequest(payload.repository.value.ownerLogin, payload.repository.value.name,
                                GetIssueNumber(input, payload).value)) == Success(Some(issue))
    requires payload.projectCard.Some? && payload.projectCard.value.columnId == Some(15338077)
    ensures RunAsWritten(input, payload, fetch) == Rejected(ReferenceError("zendesk_id"))
    ensures Run(input, payload, fetch) == Resolved(CompletedMessage, Some(StatusCall(GetZendeskId(issue), "qa")))
  {
    ColumnTable(payload, 15338077);
  }

  /**
    A card in a column outside the table with a fetched issue: the written `run`
    rejects with a TypeError, where the intended one completes without a call.
   */
  lemma UnknownColumnFinding(input: string, payload: Payload, fetch: IssueRequest -> Result<Option<Issue>, string>, id: int)
    requires payload.repository.Some? && GetIssueNumber(input, payload).Some?
    requires fetch(IssueRequest(payload.repository.value.ownerLogin, payload.repository.value.name,
                                GetIssueNumber(input, payload).value)).Success?
    requires fetch(IssueRequest(payload.repository.value.ownerLogin, payload.repository.value.name,
                                GetIssueNumber(input, payload).value)).value.Some?
    requires payload.projectCard.Some? && payload.projectCard.value.columnId == Some(id)
    requires id != 0 && id != 15338077 && id != 15335031
    ensures RunAsWritten(input, payload, fetch) == Rejected(TypeError(UndefinedNameMessage))
    ensures Run(input, payload, fetch) == Resolved(CompletedMessage, None)
  {
    ColumnTable(payload, id);
  }
}
