/** The values the task service exchanges: the inbound task request, the file
    snapshot the code generator returns, and the outcome of a call that may raise.
    The request and file records themselves live in a module (app/models.py) that
    is not part of this model; their fields are the ones the handler, the round
    pipelines and the prompt builders read. */
module Models {

  datatype Option<+T> = None | Some(value: T)

  /** The exception kinds the core distinguishes: the code generator re-raises
      as RuntimeError; everything else comes from a collaborator. */
  datatype ExceptionKind = RuntimeError | ServiceError

  datatype Exception = Exception(kind: ExceptionKind, message: string)

  /** The result of a call that may raise an exception. */
  datatype Outcome<+T> = Ok(value: T) | Raised(error: Exception)

  datatype Attachment = Attachment(name: string, url: string)

  datatype FileContext = FileContext(fileName: string, fileContent: string)

  /** A project snapshot: the files in the order the generator or the host gave them. */
  type Files = seq<FileContext>

  /** `round` arrives as JSON, so it is either a number or a string. */
  datatype RoundValue = IntRound(n: int) | StrRound(s: string)

  /** `checks` is optional; when present it is kept as the text it renders to. */
  datatype TaskRequest = TaskRequest(
    email: string,
    secret: string,
    task: string,
    round: RoundValue,
    nonce: string,
    brief: string,
    checks: Option<string>,
    evaluationUrl: string,
    attachments: Option<seq<Attachment>>)

  /** A JSON object the repository host answers with, as a Python dict. */
  type Dict = map<string, string>

  /** Python's `d.get(key)`: the value, or None when the key is absent. */
  function Get(d: Dict, key: string): (r: Option<string>)
    ensures r.Some? <==> key in d
    ensures r.Some? ==> r.value == d[key]
  {
    if key in d then Some(d[key]) else None
  }

  /** Python's `d.get(key, default)`. */
  function GetOr(d: Dict, key: string, default: string): (r: string)
    ensures key in d ==> r == d[key]
    ensures key !in d ==> r == default
  {
    if key in d then d[key] else default
  }
}
