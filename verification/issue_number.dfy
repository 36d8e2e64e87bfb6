/** `getIssueNumber`: the explicit input, else the payload's issue number, else the card URL's last segment. */
module IssueNumber {
  import opened Wrappers
  import opened JsString
  import opened Context

  /**
    `input` is what `core.getInput("issue-number")` returned (the empty string
    when the input is not set). `None` is `undefined`.
   */
  function GetIssueNumber(input: string, payload: Payload): (r: Option<IssueRef>)
    ensures input != "" ==> r == Some(Text(input))
    ensures input == "" && HasIssueNumber(payload) ==> r == Some(Number(payload.issue.value.number.value))
    ensures input == "" && !HasIssueNumber(payload) ==> (r.None? <==> CardUrl(payload).None?)
    ensures input == "" && !HasIssueNumber(payload) && r.Some? ==>
      && r.value.Text?
      && '/' !in r.value.text
      && IsSuffix(r.value.text, CardUrl(payload).value)
      && (|r.value.text| < |CardUrl(payload).value| ==>
            CardUrl(payload).value[|CardUrl(payload).value| - |r.value.text| - 1] == '/')
  {
    if input != "" then Some(Text(input))
    else if HasIssueNumber(payload) then Some(Number(payload.issue.value.number.value))
    else
      match CardUrl(payload)
      case None => None
      case Some(url) => Some(Text(LastSegment(url, '/')))
  }

  /** A non-empty input wins whatever the payload holds. */
  lemma InputOverridesPayload(input: string, p: Payload, q: Payload)
    requires input != ""
    ensures GetIssueNumber(input, p) == GetIssueNumber(input, q)
  {
  }

  /** Without input or issue number, the result is the text after the card URL's last `/`. */
  lemma {:induction false} CardUrlLastSegment(payload: Payload, prefix: string, segment: string)
    requires !HasIssueNumber(payload)
    requires CardUrl(payload) == Some(prefix + segment)
    requires '/' !in segment
    requires |prefix| == 0 || prefix[|prefix| - 1] == '/'
    ensures GetIssueNumber("", payload) == Some(Text(segment))
  {
    LastSegmentOf(prefix, segment, '/');
  }
}
