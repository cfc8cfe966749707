/** The `POST /handle-task` handler: check the shared secret, acknowledge at
    once, and queue the round pipeline the request names as a background job.
    The secret check itself (`validate_secret`) is a parameter. */
module Handler {
  import opened Models

  /** The background functions a request can be queued for. */
  datatype Pipeline = Round1 | Round2

  /** A queued `add_task(round, request)`. */
  datatype Job = Job(pipeline: Pipeline, request: TaskRequest)

  /** What the caller gets back: the JSON acknowledgement, or the HTTP
      exception the framework turns into an error response. */
  datatype Reply =
    | JsonReply(statusCode: int, body: seq<(string, string)>)
    | HttpError(statusCode: int, detail: string, headers: seq<(string, string)>)

  const Acknowledgement: Reply :=
    JsonReply(200, [("status", "success"),
                    ("message", "Secret validated, task accepted for processing.")])

  const InvalidSecret: Reply :=
    HttpError(401, "Invalid secret", [("WWW-Authenticate", "Bearer")])

  /** Python's `round == n` for an integer literal: false for any string. */
  predicate EqualsInt(round: RoundValue, n: int)
  {
    round.IntRound? && round.n == n
  }

  /** Python's `round == s` for a string literal: false for any number. */
  predicate EqualsStr(round: RoundValue, s: string)
  {
    round.StrRound? && round.s == s
  }

  /** The `if`/`elif` on the round: which pipeline, if any, it selects. */
  function PipelineFor(round: RoundValue): Option<Pipeline>
  {
    if EqualsInt(round, 1) || EqualsStr(round, "1") then Some(Round1)
    else if EqualsInt(round, 2) || EqualsStr(round, "2") then Some(Round2)
    else None
  }

  /** The jobs an accepted request adds to the queue. */
  function JobsFor(request: TaskRequest): seq<Job>
  {
    match PipelineFor(request.round)
    case Some(p) => [Job(p, request)]
    case None => []
  }

  /** The framework's queue of background work for one request. */
  class BackgroundTasks {
    var jobs: seq<Job>

    constructor ()
      ensures jobs == []
    {
      jobs := [];
    }

    method AddTask(job: Job)
      modifies this
      ensures jobs == old(jobs) + [job]
    {
      jobs := jobs + [job];
    }
  }

  /** `handle_task`: a request whose secret does not validate is refused with
      401 and queues nothing; any other request gets the fixed acknowledgement,
      whatever its round, and queues the pipeline its round names, if any. */
  method HandleTask(request: TaskRequest, validSecret: string -> bool, background: BackgroundTasks)
    returns (reply: Reply)
    modifies background
    ensures !validSecret(request.secret) ==> reply == InvalidSecret
    ensures validSecret(request.secret) ==> reply == Acknowledgement
    ensures background.jobs ==
      old(background.jobs) + (if validSecret(request.secret) then JobsFor(request) else [])
  {
    if !validSecret(request.secret) {
      return InvalidSecret;
    }
    reply := Acknowledgement;
    if EqualsInt(request.round, 1) || EqualsStr(request.round, "1") {
      background.AddTask(Job(Round1, request));
    } else if EqualsInt(request.round, 2) || EqualsStr(request.round, "2") {
      background.AddTask(Job(Round2, request));
    }
  }

  /** Round 1 is selected by exactly two spellings, the number and the string. */
  lemma Round1Spellings(round: RoundValue)
    ensures PipelineFor(round) == Some(Round1) <==> round == IntRound(1) || round == StrRound("1")
  {
  }

  /** Round 2 is selected by exactly two spellings, the number and the string. */
  lemma Round2Spellings(round: RoundValue)
    ensures PipelineFor(round) == Some(Round2) <==> round == IntRound(2) || round == StrRound("2")
  {
  }

  /** An accepted request queues at most one job, for the request unchanged,
      and none at all when its round is neither 1 nor 2. */
  lemma AtMostOneJob(request: TaskRequest)
    ensures |JobsFor(request)| <= 1
    ensures forall j :: j in JobsFor(request) ==> j.request == request
    ensures JobsFor(request) == [] <==> request.round !in {IntRound(1), StrRound("1"), IntRound(2), StrRound("2")}
  {
  }
}
