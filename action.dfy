/** One run of the action (`run`, lines 146-219 of src/index.mjs, with `getChangeInformation`,
    lines 68-102): where the message and the changed paths come from for each event kind,
    the crash paths of an undefined message or file list, the published output and the
    approval step. The hosting service is a `Host` value; logging is not modelled. */
module Action {

  import opened Wrappers
  import opened JsStrings
  import opened Inputs
  import opened PathFilter
  import opened Classifier
  import opened Approval

  /** The pull-request object of a `pull_request` payload (`number`, `title`, `base.sha`,
      `head.sha`), each possibly undefined. */
  datatype PullRequestPayload = PullRequestPayload(
    number: Option<int>,
    title: Option<string>,
    baseSha: Option<string>,
    headSha: Option<string>)

  /** The triggering event, one variant per branch of the `switch` on `context.eventName`. */
  datatype Event =
    | PullRequestEvent(pullRequest: Option<PullRequestPayload>)
    | PushEvent(before: Option<string>, after: Option<string>, headCommitMessage: Option<string>)
    | OtherEvent(ref: Option<string>)

  /** A compare-commits answer: its status and the names of the changed files. */
  datatype Comparison = Comparison(status: int, files: seq<string>)

  /** A commit lookup answer: its status, the changed file names and the commit message,
      the last two possibly undefined. */
  datatype Commit = Commit(status: int, files: Option<seq<string>>, message: Option<string>)

  /** The answers of the hosting service to the three requests the action makes. */
  datatype Host = Host(
    compareCommits: (Option<string>, Option<string>) -> Comparison,
    getCommit: Option<string> -> Commit,
    listReviews: int -> seq<string>)

  /** The action inputs, as strings (empty when not given). */
  datatype ActionInputs = ActionInputs(
    successCommitMessage: string,
    failCommitMessage: string,
    includes: string,
    excludes: string,
    approve: string,
    approveMessage: string)

  /** What `getChangeInformation` returns, and whether a request it made answered with a
      status other than 200 (which marks the run failed without stopping it). */
  datatype Details = Details(message: Option<string>, files: Option<seq<string>>, hostFailed: bool)

  /** The observable end of a run: whether it was marked failed, the value published under
      `result` (if any) and what the approval step did. */
  datatype RunOutcome = RunOutcome(failed: bool, output: Option<string>, approval: ReviewAction)

  const OK_STATUS: int := 200

  /** Lines 150-159: the keywords are taken whole, while each pattern input is cut at its
      commas. A pattern list is empty exactly when its input is empty; otherwise its patterns
      hold no comma and join back into the input. */
  function ConditionsOf(inputs: ActionInputs): (c: Conditions)
    ensures c.includes == [] <==> inputs.includes == ""
    ensures c.excludes == [] <==> inputs.excludes == ""
    ensures inputs.includes != "" ==> Join(c.includes, SEPARATOR) == inputs.includes
    ensures inputs.excludes != "" ==> Join(c.excludes, SEPARATOR) == inputs.excludes
    ensures forall i :: 0 <= i < |c.includes| ==> SEPARATOR !in c.includes[i]
    ensures forall i :: 0 <= i < |c.excludes| ==> SEPARATOR !in c.excludes[i]
    ensures c.successKeyword == inputs.successCommitMessage && c.failKeyword == inputs.failCommitMessage
  {
    Conditions(inputs.successCommitMessage, inputs.failCommitMessage,
               InputToArray(inputs.includes), InputToArray(inputs.excludes))
  }

  /** `context.payload.pull_request?.number`: undefined unless the event is a pull request
      whose payload carries the pull-request object. */
  function PrNumber(event: Event): (pr: Option<int>)
    ensures !event.PullRequestEvent? || event.pullRequest.None? ==> pr.None?
    ensures event.PullRequestEvent? && event.pullRequest.Some? ==> pr == event.pullRequest.value.number
  {
    match event
    case PullRequestEvent(Some(pr)) => pr.number
    case _ => None
  }

  /** `pull_request?.base?.sha` and `pull_request?.head?.sha`. */
  function BaseSha(pr: Option<PullRequestPayload>): Option<string> {
    if pr.Some? then pr.value.baseSha else None
  }

  function HeadSha(pr: Option<PullRequestPayload>): Option<string> {
    if pr.Some? then pr.value.headSha else None
  }

  /** Lines 68-102: a pull request compares its base and head commits and takes its title;
      a push compares `before` with `after` and takes the head commit's message; any other
      event looks up the commit of `ref`. Only the commit lookup can leave the file list
      undefined. */
  function ChangeInformation(event: Event, host: Host): (d: Details)
    ensures d.files.None? ==> event.OtherEvent?
    ensures event.PullRequestEvent? ==>
      var comparison := host.compareCommits(BaseSha(event.pullRequest), HeadSha(event.pullRequest));
      d.message == (if event.pullRequest.Some? then event.pullRequest.value.title else None)
      && d.files == Some(comparison.files) && (d.hostFailed <==> comparison.status != OK_STATUS)
    ensures event.PushEvent? ==>
      var comparison := host.compareCommits(event.before, event.after);
      d.message == event.headCommitMessage
      && d.files == Some(comparison.files) && (d.hostFailed <==> comparison.status != OK_STATUS)
    ensures event.OtherEvent? ==>
      var commit := host.getCommit(event.ref);
      d.message == commit.message && d.files == commit.files && (d.hostFailed <==> commit.status != OK_STATUS)
  {
    match event
    case PullRequestEvent(pr) =>
      var comparison := host.compareCommits(BaseSha(pr), HeadSha(pr));
      Details(if pr.Some? then pr.value.title else None, Some(comparison.files), comparison.status != OK_STATUS)
    case PushEvent(before, after, headCommitMessage) =>
      var comparison := host.compareCommits(before, after);
      Details(headCommitMessage, Some(comparison.files), comparison.status != OK_STATUS)
    case OtherEvent(ref) =>
      var commit := host.getCommit(ref);
      Details(commit.message, commit.files, commit.status != OK_STATUS)
  }

  /** Lines 176-201 over possibly undefined values: `message.includes` on an undefined
      message, reached when a keyword is configured, throws; so does filtering or measuring
      an undefined file list, reached when no keyword fires. `None` is that crash. */
  function Evaluate(d: Details, c: Conditions, matches: Matcher): (r: Option<Verdict>)
    ensures d.message.Some? && d.files.Some? ==> r == Some(Classify(d.message.value, d.files.value, c, matches))
    ensures d.message.None? ==> (r.None? <==> Truthy(c.successKeyword) || Truthy(c.failKeyword) || d.files.None?)
    ensures d.message.Some? && d.files.None? ==>
      (r.None? <==> KeywordVerdict(d.message.value, c.successKeyword, c.failKeyword).None?)
    ensures r.Some? ==>
      r.value == Classify(if d.message.Some? then d.message.value else "", if d.files.Some? then d.files.value else [], c, matches)
  {
    if d.message.None? && (Truthy(c.successKeyword) || Truthy(c.failKeyword)) then None
    else
      var message := if d.message.Some? then d.message.value else "";
      var keyword := KeywordVerdict(message, c.successKeyword, c.failKeyword);
      if keyword.Some? then keyword
      else if d.files.None? then None
      else Some(Paths(FilteredPaths(d.files.value, c.includes, c.excludes, matches)))
  }

  /** Lines 176-213 once the change information is known: publish the decision, and when the
      paths decided "true" on a pull request with approval requested, run the approval step.
      The keyword branches return before the approval step. A crash publishes nothing. */
  function Finish(inputs: ActionInputs, event: Event, host: Host, d: Details, matches: Matcher, approveRequested: bool): (r: RunOutcome)
    ensures var e := Evaluate(d, ConditionsOf(inputs), matches);
      r.output == (if e.Some? then Some(Output(e.value)) else None)
    ensures r.failed <==> r.output.None?
    ensures r.approval != NotAttempted <==>
      PathsSucceeded(Evaluate(d, ConditionsOf(inputs), matches)) && event.PullRequestEvent? && approveRequested
    ensures r.approval != NotAttempted ==>
      r.output == Some(SUCCESS) && r.approval == ApprovePr(PrNumber(event), host.listReviews, ReviewBody(inputs.approveMessage))
  {
    match Evaluate(d, ConditionsOf(inputs), matches)
    case None => RunOutcome(true, None, NotAttempted)
    case Some(v) =>
      var result := Output(v);
      var approval :=
        if v.Paths? && result == SUCCESS && event.PullRequestEvent? && approveRequested
        then ApprovePr(PrNumber(event), host.listReviews, ReviewBody(inputs.approveMessage))
        else NotAttempted;
      RunOutcome(false, Some(result), approval)
  }

  /** The path branch decided "true". */
  predicate PathsSucceeded(r: Option<Verdict>) {
    r.Some? && r.value.Paths? && |r.value.filtered| > 0
  }

  /** A run as written. A non-200 answer marks the run failed but the run goes on; any
      non-empty `approve` input requests approval. */
  function Run(inputs: ActionInputs, event: Event, host: Host, matches: Matcher): (r: RunOutcome)
    ensures r.output.Some? ==> r.output.value == SUCCESS || r.output.value == FAIL
    ensures r.failed <==> ChangeInformation(event, host).hostFailed || r.output.None?
    ensures var e := Evaluate(ChangeInformation(event, host), ConditionsOf(inputs), matches);
      r.output == (if e.Some? then Some(Output(e.value)) else None)
    ensures r.approval != NotAttempted <==>
      PathsSucceeded(Evaluate(ChangeInformation(event, host), ConditionsOf(inputs), matches))
      && event.PullRequestEvent? && Truthy(inputs.approve)
    ensures r.approval != NotAttempted ==>
      r.output == Some(SUCCESS) && r.approval == ApprovePr(PrNumber(event), host.listReviews, ReviewBody(inputs.approveMessage))
  {
    var d := ChangeInformation(event, host);
    var outcome := Finish(inputs, event, host, d, matches, Truthy(inputs.approve));
    outcome.(failed := d.hostFailed || outcome.failed)
  }

  /** With a defined message and file list, the published value is the classifier's. */
  lemma RunPublishesClassification(inputs: ActionInputs, event: Event, host: Host, matches: Matcher)
    requires ChangeInformation(event, host).message.Some? && ChangeInformation(event, host).files.Some?
    ensures Run(inputs, event, host, matches).output ==
      Some(Output(Classify(ChangeInformation(event, host).message.value, ChangeInformation(event, host).files.value,
                           ConditionsOf(inputs), matches)))
  {
  }

  /** A run decided by the success keyword publishes "true" and never reaches the approval
      step, even on a pull request with approval requested. */
  lemma SuccessKeywordNeverApproves(inputs: ActionInputs, event: Event, host: Host, matches: Matcher)
    requires ChangeInformation(event, host).message.Some?
    requires Truthy(inputs.successCommitMessage)
    requires Includes(ChangeInformation(event, host).message.value, inputs.successCommitMessage)
    ensures Run(inputs, event, host, matches).output == Some(SUCCESS)
    ensures Run(inputs, event, host, matches).approval == NotAttempted
  {
  }

  /** Pull-request and push events always define the file list, so with no keyword
      configured their runs always publish a value. */
  lemma NoKeywordsNoCrash(inputs: ActionInputs, event: Event, host: Host, matches: Matcher)
    requires !event.OtherEvent?
    requires inputs.successCommitMessage == "" && inputs.failCommitMessage == ""
    ensures Run(inputs, event, host, matches).output.Some?
  {
  }

  /** A run whose message is undefined crashes as soon as a keyword is configured. */
  lemma UndefinedMessageCrashes(inputs: ActionInputs, event: Event, host: Host, matches: Matcher)
    requires ChangeInformation(event, host).message.None?
    requires Truthy(inputs.successCommitMessage) || Truthy(inputs.failCommitMessage)
    ensures Run(inputs, event, host, matches).failed
    ensures Run(inputs, event, host, matches).output.None?
    ensures Run(inputs, event, host, matches).approval == NotAttempted
  {
  }

  /** A run as intended: a non-200 answer ends the run, failed, before anything is
      published; `approve` must spell true. */
  function RunCorrected(inputs: ActionInputs, event: Event, host: Host, matches: Matcher): (r: RunOutcome)
    ensures r.failed ==> r.output.None? && r.approval == NotAttempted
    ensures r.approval != NotAttempted ==> ApproveFlag(inputs.approve)
  {
    var d := ChangeInformation(event, host);
    if d.hostFailed then RunOutcome(true, None, NotAttempted)
    else Finish(inputs, event, host, d, matches, ApproveFlag(inputs.approve))
  }

  /** The corrected run differs from the written one only where the written one reports a
      failed request or reads an `approve` value other than empty or a spelling of true. */
  lemma CorrectedAgreesWithRun(inputs: ActionInputs, event: Event, host: Host, matches: Matcher)
    requires !ChangeInformation(event, host).hostFailed
    requires inputs.approve == "" || ApproveFlag(inputs.approve)
    ensures RunCorrected(inputs, event, host, matches) == Run(inputs, event, host, matches)
  {
  }

  /** A pull request whose compare request answers 202 (a success status other than 200,
      which the HTTP client hands back without throwing), with one changed file, no keyword
      and no pattern, and `approve` set to "true". */
  function FailingCompareHost(): Host {
    Host((base, head) => Comparison(202, ["src/a.ts"]), ref => Commit(OK_STATUS, Some([]), Some("")), pr => [])
  }

  function SamplePullRequest(): Event {
    PullRequestEvent(Some(PullRequestPayload(Some(7), Some("fix"), Some("base"), Some("head"))))
  }

  /** As written, that run is marked failed and yet publishes "true" and approves the pull
      request. */
  lemma HostFailureStillPublishes()
    ensures Run(ActionInputs("", "", "", "", "true", ""), SamplePullRequest(), FailingCompareHost(), (p, patterns) => true)
         == RunOutcome(true, Some(SUCCESS), Submitted(7, DEFAULT_APPROVE_MESSAGE))
  {
    var d := ChangeInformation(SamplePullRequest(), FailingCompareHost());
    assert d == Details(Some("fix"), Some(["src/a.ts"]), true);
  }

  /** Corrected, a failed request publishes nothing and approves nothing. */
  lemma CorrectedFailedRunPublishesNothing(inputs: ActionInputs, event: Event, host: Host, matches: Matcher)
    requires ChangeInformation(event, host).hostFailed
    ensures RunCorrected(inputs, event, host, matches) == RunOutcome(true, None, NotAttempted)
  {
  }

  /** As written, `approve: "false"` approves a pull request whose paths decided "true". */
  lemma ApproveFalseStillApproves()
    ensures Run(ActionInputs("", "", "", "", "false", ""), SamplePullRequest(),
                FailingCompareHost().(compareCommits := (base, head) => Comparison(OK_STATUS, ["src/a.ts"])),
                (p, patterns) => true).approval
         == Submitted(7, DEFAULT_APPROVE_MESSAGE)
  {
    FalseStringRequestsApproval();
  }

  /** Corrected, `approve` spelled as false never reaches the approval step. */
  lemma CorrectedDeclinesFalse(inputs: ActionInputs, event: Event, host: Host, matches: Matcher)
    requires inputs.approve in ["false", "False", "FALSE"]
    ensures RunCorrected(inputs, event, host, matches).approval == NotAttempted
  {
  }
}
