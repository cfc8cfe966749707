# Task service core: request dispatch, round pipelines, prompt context

A Dafny model of the core of a small web service that receives a task
(a brief, optional attachments, acceptance checks), has a generation agent
write a static web site for it, publishes the site to a GitHub repository
with Pages enabled, and posts the outcome to the caller's `evaluation_url`.

- `models.dfy` (module `Models`): the task request, attachments, file
  snapshots, the `round` value (a number or a string), the outcome of a call
  that may raise, and Python's `dict.get`.
- `text.dfy` (module `Text`): Python's `s[:n]` and `sep.join`, and
  `str.split` on one character as their inverse, with the lemmas that relate
  them.
- `llm.dfy` (module `Llm`): the context the two generation functions
  interpolate into their prompts (attachment summary, checks section,
  `files_str`) and how each reports an agent failure: round 1 re-raises as
  `RuntimeError`, round 2 returns `None`.
- `rounds.dfy` (module `Rounds`): the pipelines `round1` and `round2`. The
  repository host, the callback and the agent are a `Services` value saying
  what each call returns or raises. A run returns the calls it made, in
  order, and the exception it swallowed, if any.
- `handler.dfy` (module `Handler`): `handle_task`, which checks the secret,
  acknowledges, and appends at most one job to the framework's background
  queue. The queue is a class whose job list `add_task` extends.

Behaviour of the code worth stating outright:
- A failed round-2 modification does not abort the round:
  `round2_code_modification_function` catches the agent's exception and
  returns `None` (app/llm.py:217-219), and `round2` pushes that `None`
  (app/rounds.py:10-13). `Rounds.Round2` states this.
- Both agents are declared with `result_type=List[FileContext]`
  (app/llm.py:113, 191), so the agent library checks the shape of the
  answer. A malformed answer is an agent failure: `RuntimeError` in round 1,
  `None` in round 2, as the `Outcome` the agent parameter returns. Nothing
  checks the answer further: an empty list, or one with duplicate file names,
  is pushed as returned.
- The secret is checked by `validate_secret` (app/main.py:25), whose
  definition is not part of this model, so `HandleTask` takes it as a
  parameter.

## Model

| member | source | states |
|---|---|---|
| `Handler.HandleTask` | app/main.py:22-46 | A bad secret gives 401 "Invalid secret" with a Bearer challenge and queues nothing. A good secret gives the fixed 200 success body, whatever the round, and appends exactly the jobs `JobsFor` names for the unchanged request. |
| `Handler.BackgroundTasks.AddTask` | app/main.py:41-43 | Scheduling appends one job to the end of the queue and changes nothing else. |
| `Handler.Round1Spellings` | app/main.py:40-41 | Round 1 is chosen if and only if `round` is the number 1 or the string "1". |
| `Handler.Round2Spellings` | app/main.py:42-43 | Round 2 is chosen if and only if `round` is the number 2 or the string "2". |
| `Handler.AtMostOneJob` | app/main.py:40-43 | An accepted request queues at most one job, carrying the request unchanged. It queues none exactly when the round is none of the four accepted spellings. |
| `Rounds.Round1` | app/rounds.py:34-59 | The calls are a prefix of: create repo, generate, push, enable Pages, notify. Every call but the last returned. A short run ended because its last call raised, and that exception is swallowed. Every repository call uses `request.task`. The generated files are pushed as they are. Notify comes only fifth and only once, goes to `evaluation_url`, and echoes email, task, round and nonce. Its `repo_url` is the create response's `html_url` or "". Its `commit_sha` is the push result. Its `pages_url` is the Pages response's `pages_url` entry. |
| `Rounds.Round2` | app/rounds.py:5-31 | The calls are a prefix of: fetch, modify, push, enable Pages, notify, with the same abort-and-swallow rule as round 1. No repository is ever created. The fetched files go to the modification step, and the push takes exactly what it returned, `None` when the agent failed. Notify comes only fifth and only once. Its `repo_url` and `pages_url` both come from the Pages response. |
| `Llm.GenerateCode` | app/llm.py:110-124 | It returns the agent's files exactly when the agent succeeds, and never a partial list. Otherwise it raises `RuntimeError` with "LLM code generation failed: " and then the agent's message. |
| `Llm.ModifyCode` | app/llm.py:136-219 | It returns the agent's files when the agent succeeds and `None` when it fails. It never raises. |
| `Llm.Round1PromptOf` | app/llm.py:14-29 | Round 1 passes the brief as given. The attachment summary is the fixed "(No attachments were provided with the request)" note exactly when attachments are missing or empty. Checks that are present and non-empty go in verbatim; otherwise the section is "(No explicit checks provided)". |
| `Llm.Round2PromptOf` | app/llm.py:137-179 | Round 2 summarises attachments by the same rule as round 1: the fixed note exactly when they are missing or empty. It takes present checks verbatim, even when empty, and shows "None" when they are missing. Its files section is `files_str` of the fetched files. |
| `Llm.Round2PromptFiles` | app/llm.py:144-145 | Read line by line, the files section of the round 2 prompt is each fetched file's START marker, content lines and END marker, in order, with one empty line between files, for file names without a newline. |
| `Llm.FileBlocks` | app/llm.py:144-145 | There is one block per file, in input order, each the file's START marker, content and END marker. |
| `Llm.AttachmentLines` | app/llm.py:17 | There is one summary line per attachment, in input order. |
| `Llm.AttachmentLineShape` | app/llm.py:17 | A line is "- ", the name, ": ", at most 80 characters of the URL and then "...". The whole URL appears when it is at most 80 characters, and "..." is added even then. |
| `Text.Prefix` | app/llm.py:17 | `url[:80]` is a prefix of the URL, at most 80 long. It is the whole URL when that is shorter, and exactly 80 characters otherwise. |
| `Llm.NoAttachmentsNote` | app/llm.py:15-19 | The summary is the fixed "(No attachments were provided with the request)" note if and only if the list is missing or empty. |
| `Llm.AttachmentsTextLines` | app/llm.py:16-17 | Split at newlines, a non-empty summary is an empty line, "Attachments:", then exactly the attachment lines in input order, given names and URLs with no newline. |
| `Llm.ChecksTextShape` | app/llm.py:29 | Round 1 inserts present, non-empty checks verbatim, and the section is "(No explicit checks provided)" exactly when the checks are missing, empty, or that very text. The section is never empty. |
| `Llm.ChecksDiffer` | app/llm.py:169 | The round 1 and round 2 checks texts agree if and only if the checks are present and non-empty. Otherwise round 2 shows "None" or nothing. |
| `Llm.FilesStrConcat` | app/llm.py:144-145 | `files_str` keeps input order and puts exactly "\n\n" between files: the text for `xs + ys` is the text for `xs`, a blank line, then the text for `ys`. |
| `Llm.FilesStrLines` | app/llm.py:144-145 | Split at newlines, `files_str` is each file's START marker, its content lines and its END marker, with one empty line between consecutive files, for any content and file names without a newline. |

## Left out

- The generation agent (`Agent(...)`, `agent.run`) and the literal prompt
  and system-prompt texts: the agent is the `generateAgent`/`modifyAgent`
  parameter, and only the request-dependent parts of each prompt are
  modelled (`Round1Prompt`, `Round2Prompt`).
- The unused module-level `prompt` and `system_prompt` strings at the end of
  `app/llm.py`: nothing reads them.
- The repository and callback operations (`create_github_repo`,
  `get_files_from_github_repo`, `push_files_to_github_repo`,
  `enable_github_pages`, `notify_evaluation_url`): app/deployer.py is not
  part of this model. Each is what the `Services` value says it returns or
  raises for its arguments. Their network effects and the state of the
  repository host are not modelled.
- `validate_secret`: app/utils.py is not part of this model. It is the
  `validSecret` parameter of `HandleTask`.
- The request and file records: app/models.py is not part of this model.
  `round` is an integer or a string. Booleans and floats, which Python
  would also compare equal to 1 or 2, are not modelled.
- `checks` is modelled as the text it renders to. A structured list, which
  Python renders with `repr`, is not modelled.
- The FastAPI application, the CORS middleware and the `GET /` route: these
  are framework set-up.
- Asynchronous execution, when background jobs run, and concurrent runs on
  the same task: the queue is a list that jobs are appended to, and each run
  is a sequential method.
- Logging and `print`: the swallowed exception is returned as `logged`
  instead of printed.
- Exceptions that cannot occur for the modelled types, such as `.get` on a
  response that is not a dict or slicing a URL that is not a string, are not
  modelled.
