/**
  The parts of the event payload and of the fetched issue that the script reads.
  Every property the script tests for presence is an `Option`, whose `None` is
  a property the payload omits (read as `undefined`); a JSON `null` is not a
  separate case. `context` and `context.payload` themselves are always objects
  in the Actions runtime.
 */
module Context {
  import opened Wrappers

  /** `payload.issue`; `number` is a JSON number when present. */
  datatype PayloadIssue = PayloadIssue(number: Option<int>)

  /** `payload.project_card`: the card's issue URL and its board column id. */
  datatype ProjectCard = ProjectCard(contentUrl: Option<string>, columnId: Option<int>)

  /** `payload.repository`: its `name` and its `owner.login`. */
  datatype Repository = Repository(name: string, ownerLogin: string)

  datatype Payload = Payload(
    issue: Option<PayloadIssue>,
    projectCard: Option<ProjectCard>,
    repository: Option<Repository>)

  /** The fetched issue; only its title is read. */
  datatype Issue = Issue(title: Option<string>)

  /** The JavaScript value of an issue number: a string from the input or the card URL, or a number from the payload. */
  datatype IssueRef = Text(text: string) | Number(number: int)

  /** `payload.issue && payload.issue.number` is truthy: present and not zero. */
  predicate HasIssueNumber(payload: Payload) {
    payload.issue.Some? && payload.issue.value.number.Some? && payload.issue.value.number.value != 0
  }

  /** `payload.project_card && payload.project_card.content_url`, when it is a string. */
  function CardUrl(payload: Payload): Option<string> {
    if payload.projectCard.Some? then payload.projectCard.value.contentUrl else None
  }
}
