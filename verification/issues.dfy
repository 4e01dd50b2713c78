/** Building issue-creation requests from talks and submitting them to the
    tracker one at a time. */
module Issues {
  import opened Wrappers
  import opened Talks

  /** An issue-creation request. Each field is optional; an absent field is
      left out of the request. */
  datatype IssueRequest = IssueRequest(
    title: Option<string>,
    body: Option<string>,
    labels: Option<seq<string>>,
    assignee: Option<string>,
    state: Option<string>,
    milestone: Option<int>,
    assignees: Option<seq<string>>)

  /** The request for a talk: the talk's title as the issue title and its
      rendering as the body; nothing else is set, in particular no labels. */
  function NewIssue(t: Talk): (req: IssueRequest)
    ensures req.title == Some(t.title)
    ensures req.body.Some? && req.body.value == Render(t)
    ensures req.labels.None? && req.assignee.None? && req.state.None?
    ensures req.milestone.None? && req.assignees.None?
  {
    IssueRequest(Some(t.title), Some(Render(t)), None, None, None, None, None)
  }

  /** The request carries the whole talk: its title is the talk's title and,
      when no field holds a line break, its body reads back as the talk. */
  lemma NewIssueCarriesTalk(t: Talk)
    requires NoNewlines(t)
    ensures NewIssue(t).title == Some(t.title)
    ensures ParseBody(NewIssue(t).body.value) == Some(t)
  {
    ParseRender(t);
  }

  /** A created issue, known by its number. */
  datatype Issue = Issue(number: nat)

  /** What the tracker answers to one creation call. */
  datatype Response = Created(issue: Issue) | Failed(message: string)

  /** The tracker as seen by the submission loop: the answer to the call with
      the given 0-based sequence number and request. */
  type Tracker = (nat, IssueRequest) -> Response

  /** The k-th submission, for the k-th talk, succeeds. */
  predicate Succeeds(talks: seq<Talk>, tracker: Tracker, k: nat)
    requires k < |talks|
  {
    tracker(k, NewIssue(talks[k])).Created?
  }

  /** The position of the first submission at or after `from` that fails, if
      any. */
  function FirstFailureFrom(talks: seq<Talk>, tracker: Tracker, from: nat): (m: Option<nat>)
    requires from <= |talks|
    ensures m.Some? ==> from <= m.value < |talks| && !Succeeds(talks, tracker, m.value)
    ensures m.Some? ==> forall k :: from <= k < m.value ==> Succeeds(talks, tracker, k)
    ensures m.None? ==> forall k :: from <= k < |talks| ==> Succeeds(talks, tracker, k)
    decreases |talks| - from
  {
    if from == |talks| then None
    else if !Succeeds(talks, tracker, from) then Some(from)
    else FirstFailureFrom(talks, tracker, from + 1)
  }

  /** The position of the first submission that fails, if any. */
  function FirstFailure(talks: seq<Talk>, tracker: Tracker): (m: Option<nat>)
    ensures m.Some? ==> m.value < |talks| && !Succeeds(talks, tracker, m.value)
    ensures m.Some? ==> forall k :: 0 <= k < m.value ==> Succeeds(talks, tracker, k)
    ensures m.None? ==> forall k :: 0 <= k < |talks| ==> Succeeds(talks, tracker, k)
  {
    FirstFailureFrom(talks, tracker, 0)
  }

  /** The first failure is the failing submission that every earlier one
      precedes successfully. */
  lemma FirstFailureAt(talks: seq<Talk>, tracker: Tracker, m: nat)
    requires m < |talks|
    requires forall k :: 0 <= k < m ==> Succeeds(talks, tracker, k)
    requires !Succeeds(talks, tracker, m)
    ensures FirstFailure(talks, tracker) == Some(m)
  {
  }

  /** Number of creation calls a run makes: up to and including the first
      failing one, or one per talk when none fails. */
  function Attempts(talks: seq<Talk>, tracker: Tracker): (n: nat)
    ensures n <= |talks|
  {
    match FirstFailure(talks, tracker)
    case Some(m) => m + 1
    case None => |talks|
  }

  /** When the m-th call (0-based) is the first to fail, a run makes exactly
      m + 1 calls; when none fails, one call per talk. */
  lemma AttemptsCount(talks: seq<Talk>, tracker: Tracker, m: nat)
    requires m <= |talks|
    requires forall k :: 0 <= k < m ==> Succeeds(talks, tracker, k)
    requires m < |talks| ==> !Succeeds(talks, tracker, m)
    ensures Attempts(talks, tracker) == if m < |talks| then m + 1 else |talks|
  {
    if m < |talks| {
      FirstFailureAt(talks, tracker, m);
    }
  }

  /** Submits the talks in order, one creation call per talk, and stops at the
      first call that fails. `sent` holds the requests in call order, `created`
      the issues confirmed so far, and `failure` the message of the call that
      ended the run, if one did. */
  method CreateIssues(talks: seq<Talk>, tracker: Tracker)
    returns (sent: seq<IssueRequest>, created: seq<Issue>, failure: Option<string>)
    ensures |sent| == Attempts(talks, tracker)
    ensures forall k :: 0 <= k < |sent| ==> sent[k] == NewIssue(talks[k])
    ensures failure.Some? <==> FirstFailure(talks, tracker).Some?
    ensures failure.Some? ==> tracker(|sent| - 1, sent[|sent| - 1]) == Failed(failure.value)
    ensures |created| == |sent| - (if failure.Some? then 1 else 0)
    ensures forall k :: 0 <= k < |created| ==> tracker(k, sent[k]) == Created(created[k])
  {
    sent, created, failure := [], [], None;
    var i := 0;
    while i < |talks|
      invariant 0 <= i <= |talks|
      invariant |sent| == i && |created| == i
      invariant forall k :: 0 <= k < i ==> sent[k] == NewIssue(talks[k])
      invariant forall k :: 0 <= k < i ==> tracker(k, sent[k]) == Created(created[k])
    {
      var req := NewIssue(talks[i]);
      sent := sent + [req];
      var response := tracker(i, req);
      match response {
        case Failed(message) =>
          FirstFailureAt(talks, tracker, i);
          failure := Some(message);
          return;
        case Created(issue) =>
          created := created + [issue];
          i := i + 1;
      }
    }
  }
}
