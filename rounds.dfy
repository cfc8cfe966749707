/** The two round pipelines (`round1`, `round2`). Each runs a fixed sequence of
    calls inside one exception handler: the first call that raises ends the
    run, the exception is logged and swallowed, and the evaluation callback is
    only ever reached at the end. The repository host, the callback and the
    generation agent are the `Services` parameter: what each call returns or
    raises. A run reports the calls it made, in order. */
module Rounds {
  import opened Models
  import Llm

  /** The body posted to `evaluation_url`. `repoUrl` and `pagesUrl` are None
      where the source's `dict.get` finds no key (JSON null). */
  datatype Payload = Payload(
    email: string,
    task: string,
    round: RoundValue,
    nonce: string,
    repoUrl: Option<string>,
    commitSha: string,
    pagesUrl: Option<string>)

  /** A call the pipeline makes. `PushFiles` carries whatever file list the
      previous step produced, None included. */
  datatype Call =
    | CreateRepo(repoName: string)
    | GenerateCode(request: TaskRequest)
    | FetchFiles(repo: string)
    | ModifyCode(files: Files, request: TaskRequest)
    | PushFiles(repo: string, pushed: Option<Files>)
    | EnablePages(repo: string)
    | Notify(url: string, payload: Payload)

  /** What each external collaborator returns or raises for given arguments. */
  datatype Services = Services(
    createRepo: string -> Outcome<Dict>,
    fetchFiles: string -> Outcome<Files>,
    pushFiles: (string, Option<Files>) -> Outcome<string>,
    enablePages: string -> Outcome<Dict>,
    notify: (string, Payload) -> Outcome<()>,
    generateAgent: Llm.Round1Prompt -> Outcome<Files>,
    modifyAgent: Llm.Round2Prompt -> Outcome<Files>)

  /** Whether a call raises. The round 2 modification step never does: it
      returns None instead. */
  predicate Raises(svc: Services, c: Call)
  {
    match c
    case CreateRepo(name) => svc.createRepo(name).Raised?
    case GenerateCode(request) => Llm.GenerateCode(request, svc.generateAgent).Raised?
    case FetchFiles(repo) => svc.fetchFiles(repo).Raised?
    case ModifyCode(_, _) => false
    case PushFiles(repo, files) => svc.pushFiles(repo, files).Raised?
    case EnablePages(repo) => svc.enablePages(repo).Raised?
    case Notify(url, payload) => svc.notify(url, payload).Raised?
  }

  /** The repository a call works on, if it is a repository operation. */
  function RepoOf(c: Call): Option<string>
  {
    match c
    case CreateRepo(name) => Some(name)
    case FetchFiles(repo) => Some(repo)
    case PushFiles(repo, _) => Some(repo)
    case EnablePages(repo) => Some(repo)
    case _ => None
  }

  /** The run went as far as its calls show and no further: every call but the
      last returned, and a run shorter than `steps` ended because its last
      call raised. */
  predicate AbortsOnFirstFailure(svc: Services, calls: seq<Call>, steps: nat)
  {
    && 1 <= |calls| <= steps
    && (forall i :: 0 <= i < |calls| - 1 ==> !Raises(svc, calls[i]))
    && (|calls| < steps ==> Raises(svc, calls[|calls| - 1]))
  }

  /** `round1`: create the repository, generate the files, push them, enable
      Pages, notify the evaluator. `logged` is the exception the handler
      swallows, if one was raised. */
  method Round1(request: TaskRequest, svc: Services)
    returns (calls: seq<Call>, logged: Option<Exception>)
    ensures AbortsOnFirstFailure(svc, calls, 5)
    ensures logged.Some? <==> Raises(svc, calls[|calls| - 1])
    // the calls, in this order, on the repository named after the task
    ensures calls[0] == CreateRepo(request.task)
    ensures |calls| > 1 ==> calls[1] == GenerateCode(request)
    ensures |calls| > 2 ==>
      calls[2] == PushFiles(request.task, Some(Llm.GenerateCode(request, svc.generateAgent).value))
    ensures |calls| > 3 ==> calls[3] == EnablePages(request.task)
    ensures forall i :: 0 <= i < |calls| && RepoOf(calls[i]).Some? ==> RepoOf(calls[i]).value == request.task
    // the callback is the last call, made once, with the step results
    ensures forall i :: 0 <= i < |calls| && calls[i].Notify? ==> i == 4
    ensures |calls| == 5 ==> calls[4].Notify? && calls[4].url == request.evaluationUrl
    ensures |calls| == 5 ==> var p := calls[4].payload;
      && p.email == request.email && p.task == request.task
      && p.round == request.round && p.nonce == request.nonce
      && p.repoUrl == Some(GetOr(svc.createRepo(request.task).value, "html_url", ""))
      && p.commitSha == svc.pushFiles(calls[2].repo, calls[2].pushed).value
      && p.pagesUrl == Get(svc.enablePages(request.task).value, "pages_url")
  {
    calls := [CreateRepo(request.task)];
    var created := svc.createRepo(request.task);
    if created.Raised? {
      return calls, Some(created.error);
    }
    var repoUrl := GetOr(created.value, "html_url", "");

    calls := calls + [GenerateCode(request)];
    var files := Llm.GenerateCode(request, svc.generateAgent);
    if files.Raised? {
      return calls, Some(files.error);
    }

    calls := calls + [PushFiles(request.task, Some(files.value))];
    var commitSha := svc.pushFiles(request.task, Some(files.value));
    if commitSha.Raised? {
      return calls, Some(commitSha.error);
    }

    calls := calls + [EnablePages(request.task)];
    var pagesResponse := svc.enablePages(request.task);
    if pagesResponse.Raised? {
      return calls, Some(pagesResponse.error);
    }
    var pagesUrl := Get(pagesResponse.value, "pages_url");

    var payload := Payload(request.email, request.task, request.round, request.nonce,
                           Some(repoUrl), commitSha.value, pagesUrl);
    calls := calls + [Notify(request.evaluationUrl, payload)];
    var sent := svc.notify(request.evaluationUrl, payload);
    logged := if sent.Raised? then Some(sent.error) else None;
  }

  /** `round2`: fetch the published files, have them modified, push whatever
      the modification returned, enable Pages, notify the evaluator. No
      repository is created. */
  method Round2(request: TaskRequest, svc: Services)
    returns (calls: seq<Call>, logged: Option<Exception>)
    ensures AbortsOnFirstFailure(svc, calls, 5)
    ensures logged.Some? <==> Raises(svc, calls[|calls| - 1])
    ensures calls[0] == FetchFiles(request.task)
    ensures |calls| > 1 ==> calls[1] == ModifyCode(svc.fetchFiles(request.task).value, request)
    // the push takes exactly what the modification returned, None when it failed
    ensures |calls| > 2 ==>
      calls[2] == PushFiles(request.task, Llm.ModifyCode(calls[1].files, request, svc.modifyAgent))
    ensures |calls| > 3 ==> calls[3] == EnablePages(request.task)
    ensures forall i :: 0 <= i < |calls| ==> !calls[i].CreateRepo?
    ensures forall i :: 0 <= i < |calls| && RepoOf(calls[i]).Some? ==> RepoOf(calls[i]).value == request.task
    ensures forall i :: 0 <= i < |calls| && calls[i].Notify? ==> i == 4
    ensures |calls| == 5 ==> calls[4].Notify? && calls[4].url == request.evaluationUrl
    ensures |calls| == 5 ==> var p := calls[4].payload;
      && p.email == request.email && p.task == request.task
      && p.round == request.round && p.nonce == request.nonce
      && p.repoUrl == Get(svc.enablePages(request.task).value, "repo_url")
      && p.commitSha == svc.pushFiles(calls[2].repo, calls[2].pushed).value
      && p.pagesUrl == Get(svc.enablePages(request.task).value, "pages_url")
  {
    calls := [FetchFiles(request.task)];
    var fetched := svc.fetchFiles(request.task);
    if fetched.Raised? {
      return calls, Some(fetched.error);
    }
    var updatedFiles := Some(fetched.value);

    calls := calls + [ModifyCode(fetched.value, request)];
    updatedFiles := Llm.ModifyCode(fetched.value, request, svc.modifyAgent);

    calls := calls + [PushFiles(request.task, updatedFiles)];
    var commitSha := svc.pushFiles(request.task, updatedFiles);
    if commitSha.Raised? {
      return calls, Some(commitSha.error);
    }

    calls := calls + [EnablePages(request.task)];
    var pagesResponse := svc.enablePages(request.task);
    if pagesResponse.Raised? {
      return calls, Some(pagesResponse.error);
    }
    var pagesUrl := Get(pagesResponse.value, "pages_url");
    var repoUrl := Get(pagesResponse.value, "repo_url");

    var payload := Payload(request.email, request.task, request.round, request.nonce,
                           repoUrl, commitSha.value, pagesUrl);
    calls := calls + [Notify(request.evaluationUrl, payload)];
    var sent := svc.notify(request.evaluationUrl, payload);
    logged := if sent.Raised? then Some(sent.error) else None;
  }
}
