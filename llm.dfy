/** The code-generation client: the context that round 1 (`genereate_code_with_llm`)
    and round 2 (`round2_code_modification_function`) interpolate into their
    prompts, and what each returns when the generation agent fails. The agent
    itself is a parameter: its outcome for a given prompt context. */
module Llm {
  import opened Models
  import opened Text

  // The two texts below are written as concatenations so that the proofs in
  // NoAttachmentsNote and HeadingLines can see their first characters.
  const NoAttachments := "\n(" + "No attachments were provided with the request)"
  const AttachmentsHeading := "\n" + "Attachments:" + "\n"
  const NoChecks := "(No explicit checks provided)"
  const GenerationFailed := "LLM code generation failed: "
  /** How many characters of an attachment URL the summary keeps. */
  const UrlShown: nat := 80

  /** The pieces of the round 1 prompt that depend on the request. */
  datatype Round1Prompt = Round1Prompt(brief: string, attachments: string, checks: string)

  /** The pieces of the round 2 prompt that depend on the request and the fetched files. */
  datatype Round2Prompt = Round2Prompt(brief: string, attachments: string, checks: string, files: string)

  /** One summary line: name, the URL cut to its first 80 characters, and "...". */
  function AttachmentLine(a: Attachment): string
  {
    "- " + a.name + ": " + Prefix(a.url, UrlShown) + "..."
  }

  /** The summary lines, one per attachment, in input order. */
  function AttachmentLines(atts: seq<Attachment>): (lines: seq<string>)
    ensures |lines| == |atts|
    ensures forall i :: 0 <= i < |atts| ==> lines[i] == AttachmentLine(atts[i])
    decreases |atts|
  {
    if |atts| == 0 then [] else [AttachmentLine(atts[0])] + AttachmentLines(atts[1..])
  }

  /** `attachments_text`: a fixed note when the list is missing or empty,
      otherwise a heading and the summary lines joined by newlines. */
  function AttachmentsText(atts: Option<seq<Attachment>>): string
  {
    if atts.Some? && |atts.value| > 0 then
      AttachmentsHeading + Join(AttachmentLines(atts.value), "\n")
    else
      NoAttachments
  }

  /** Round 1's checks section: the checks when present and non-empty, else a fixed note. */
  function ChecksText(checks: Option<string>): string
  {
    if checks.Some? && checks.value != "" then checks.value else NoChecks
  }

  /** Round 2 interpolates `checks` with no fallback: an absent value renders as "None". */
  function Round2ChecksText(checks: Option<string>): string
  {
    if checks.Some? then checks.value else "None"
  }

  function StartMarker(name: string): string
  {
    "--- START FILE: " + name + " ---"
  }

  function EndMarker(name: string): string
  {
    "--- END FILE: " + name + " ---"
  }

  /** One file of `files_str`: start marker, content, end marker, on their own lines. */
  function FileBlock(f: FileContext): string
  {
    StartMarker(f.fileName) + "\n" + f.fileContent + "\n" + EndMarker(f.fileName)
  }

  function FileBlocks(files: Files): (blocks: seq<string>)
    ensures |blocks| == |files|
    ensures forall i :: 0 <= i < |files| ==> blocks[i] == FileBlock(files[i])
    decreases |files|
  {
    if |files| == 0 then [] else [FileBlock(files[0])] + FileBlocks(files[1..])
  }

  /** `files_str`: the file blocks in order, separated by a blank line. */
  function FilesStr(files: Files): string
  {
    Join(FileBlocks(files), "\n\n")
  }

  /** What round 1 interpolates: the brief as given, the attachment summary
      (the fixed note exactly when there are no attachments), and the checks
      when present and non-empty, else the fixed note. */
  function Round1PromptOf(request: TaskRequest): (p: Round1Prompt)
    ensures p.brief == request.brief
    ensures p.attachments == NoAttachments <==>
      request.attachments.None? || |request.attachments.value| == 0
    ensures request.checks.Some? && request.checks.value != "" ==> p.checks == request.checks.value
    ensures request.checks.None? || request.checks.value == "" ==> p.checks == NoChecks
  {
    NoAttachmentsNote(request.attachments);
    Round1Prompt(request.brief, AttachmentsText(request.attachments), ChecksText(request.checks))
  }

  /** Round 2 summarises attachments by the same rule as round 1, but takes
      the checks verbatim and adds the fetched files. */
  function Round2PromptOf(files: Files, request: TaskRequest): (p: Round2Prompt)
    ensures p.brief == request.brief
    ensures p.attachments == Round1PromptOf(request).attachments
    ensures p.attachments == NoAttachments <==>
      request.attachments.None? || |request.attachments.value| == 0
    ensures request.checks.Some? ==> p.checks == request.checks.value
    ensures request.checks.None? ==> p.checks == "None"
    ensures p.files == FilesStr(files)
  {
    Round2Prompt(request.brief, AttachmentsText(request.attachments),
                 Round2ChecksText(request.checks), FilesStr(files))
  }

  /** `genereate_code_with_llm`: the agent's files exactly, or the agent's
      failure re-raised as a RuntimeError; never a partial list. */
  function GenerateCode(request: TaskRequest, agent: Round1Prompt -> Outcome<Files>): (r: Outcome<Files>)
    ensures r.Ok? <==> agent(Round1PromptOf(request)).Ok?
    ensures r.Ok? ==> r.value == agent(Round1PromptOf(request)).value
    ensures r.Raised? ==> r.error.kind == RuntimeError
    ensures r.Raised? ==>
      r.error.message == GenerationFailed + agent(Round1PromptOf(request)).error.message
  {
    match agent(Round1PromptOf(request))
    case Ok(files) => Ok(files)
    case Raised(e) => Raised(Exception(RuntimeError, GenerationFailed + e.message))
  }

  /** `round2_code_modification_function`: the agent's files, or None when the
      agent fails; it never raises. */
  function ModifyCode(files: Files, request: TaskRequest, agent: Round2Prompt -> Outcome<Files>): (r: Option<Files>)
    ensures r.Some? <==> agent(Round2PromptOf(files, request)).Ok?
    ensures r.Some? ==> r.value == agent(Round2PromptOf(files, request)).value
  {
    match agent(Round2PromptOf(files, request))
    case Ok(modified) => Some(modified)
    case Raised(_) => None
  }

  /** A missing or empty attachment list gives the fixed note, and a non-empty
      one never does. */
  lemma NoAttachmentsNote(atts: Option<seq<Attachment>>)
    ensures AttachmentsText(atts) == NoAttachments <==> atts.None? || |atts.value| == 0
  {
    if atts.Some? && |atts.value| > 0 {
      assert AttachmentsText(atts)[1] == 'A';
      assert NoAttachments[1] == '(';
    }
  }

  /** A line shows the name, at most 80 characters of the URL (all of it when it
      is shorter) and always ends in "...". */
  lemma AttachmentLineShape(a: Attachment)
    ensures var line := AttachmentLine(a);
      && line[..|a.name| + 4] == "- " + a.name + ": "
      && line[|line| - 3..] == "..."
      && |a.name| + 7 <= |line| <= |a.name| + 87
      && (|a.url| <= UrlShown ==> line == "- " + a.name + ": " + a.url + "...")
      && (|a.url| > UrlShown ==> line == "- " + a.name + ": " + a.url[..UrlShown] + "...")
  {
  }

  /** Neither the name nor the URL holds a newline. */
  predicate SingleLine(a: Attachment)
  {
    '\n' !in a.name && '\n' !in a.url
  }

  /** No summary line carries a newline when no name or URL does. */
  lemma LineWithoutNewline(a: Attachment)
    requires SingleLine(a)
    ensures '\n' !in AttachmentLine(a)
  {
    assert '\n' !in Prefix(a.url, UrlShown);
  }

  /** Read back line by line, the heading is an empty line and "Attachments:". */
  lemma HeadingLines(body: string)
    ensures Split(AttachmentsHeading + body, '\n') == ["", "Attachments:"] + Split(body, '\n')
  {
    var heading := "Attachments:";
    assert AttachmentsHeading + body == "" + ['\n'] + (heading + ['\n'] + body);
    SplitLeadingLine("", heading + ['\n'] + body, '\n');
    SplitLeadingLine(heading, body, '\n');
  }

  /** Newline-free lines under the heading come back one by one. */
  lemma HeadedLines(lines: seq<string>)
    requires |lines| > 0
    requires forall i :: 0 <= i < |lines| ==> '\n' !in lines[i]
    ensures Split(AttachmentsHeading + Join(lines, "\n"), '\n') == ["", "Attachments:"] + lines
  {
    HeadingLines(Join(lines, "\n"));
    SplitJoin(lines, '\n');
  }

  /** No summary line carries a newline when no name or URL does. */
  lemma LinesWithoutNewline(atts: seq<Attachment>)
    requires forall i :: 0 <= i < |atts| ==> SingleLine(atts[i])
    ensures forall i :: 0 <= i < |atts| ==> '\n' !in AttachmentLines(atts)[i]
  {
    forall i | 0 <= i < |atts| ensures '\n' !in AttachmentLines(atts)[i] {
      LineWithoutNewline(atts[i]);
    }
  }

  /** Read back line by line, a non-empty summary is an empty line, the
      heading, then exactly one line per attachment in input order (names and
      URLs carrying no newline). */
  lemma AttachmentsTextLines(atts: seq<Attachment>)
    requires |atts| > 0
    requires forall i :: 0 <= i < |atts| ==> SingleLine(atts[i])
    ensures Split(AttachmentsText(Some(atts)), '\n') == ["", "Attachments:"] + AttachmentLines(atts)
  {
    LinesWithoutNewline(atts);
    SummaryLines(atts);
  }

  lemma SummaryLines(atts: seq<Attachment>)
    requires |atts| > 0
    requires forall i :: 0 <= i < |atts| ==> '\n' !in AttachmentLines(atts)[i]
    ensures Split(AttachmentsText(Some(atts)), '\n') == ["", "Attachments:"] + AttachmentLines(atts)
  {
    HeadedLines(AttachmentLines(atts));
  }

  /** Concatenating snapshots concatenates their blocks. */
  lemma {:induction false} FileBlocksConcat(xs: Files, ys: Files)
    ensures FileBlocks(xs + ys) == FileBlocks(xs) + FileBlocks(ys)
    decreases |xs|
  {
    if |xs| == 0 {
      assert xs + ys == ys;
    } else {
      assert (xs + ys)[1..] == xs[1..] + ys;
      FileBlocksConcat(xs[1..], ys);
    }
  }

  /** `files_str` keeps the input order and puts one blank line between two
      files: the text of two snapshots in a row is the two texts around "\n\n". */
  lemma FilesStrConcat(xs: Files, ys: Files)
    requires |xs| > 0 && |ys| > 0
    ensures FilesStr(xs + ys) == FilesStr(xs) + "\n\n" + FilesStr(ys)
  {
    FileBlocksConcat(xs, ys);
    JoinConcat(FileBlocks(xs), FileBlocks(ys), "\n\n");
  }

  /** The lines of one file block: the start marker, the content's own lines,
      the end marker. */
  function BlockLines(f: FileContext): seq<string>
  {
    [StartMarker(f.fileName)] + Split(f.fileContent, '\n') + [EndMarker(f.fileName)]
  }

  /** The lines `files_str` is meant to consist of: each file's block lines,
      and one empty line between consecutive files. */
  function FilesLines(files: Files): seq<string>
    decreases |files|
  {
    if |files| == 0 then [""]
    else if |files| == 1 then BlockLines(files[0])
    else BlockLines(files[0]) + [""] + FilesLines(files[1..])
  }

  lemma FileBlockLines(f: FileContext)
    requires '\n' !in f.fileName
    ensures Split(FileBlock(f), '\n') == BlockLines(f)
  {
    var start, end := StartMarker(f.fileName), EndMarker(f.fileName);
    assert '\n' !in start;
    assert '\n' !in end;
    SplitFramed(start, f.fileContent, end, '\n');
  }

  /** Read back line by line, `files_str` is exactly the file blocks in input
      order with one empty line between them, whatever the contents hold
      (file names carrying no newline). */
  lemma {:induction false} FilesStrLines(files: Files)
    requires forall i :: 0 <= i < |files| ==> '\n' !in files[i].fileName
    ensures Split(FilesStr(files), '\n') == FilesLines(files)
    decreases |files|
  {
    if |files| == 1 {
      FileBlockLines(files[0]);
    } else if |files| > 1 {
      var rest := FilesStr(files[1..]);
      FileBlockLines(files[0]);
      FilesStrLines(files[1..]);
      assert FileBlocks(files)[1..] == FileBlocks(files[1..]);
      assert FilesStr(files) == FileBlock(files[0]) + ['\n'] + ("" + ['\n'] + rest);
      SplitAt(FileBlock(files[0]), "" + ['\n'] + rest, '\n');
      SplitAt("", rest, '\n');
    }
  }

  /** Round 1 inserts present, non-empty checks verbatim and never leaves the
      section empty. */
  lemma ChecksTextShape(checks: Option<string>)
    ensures checks.Some? && checks.value != "" ==> ChecksText(checks) == checks.value
    ensures ChecksText(checks) != ""
    ensures ChecksText(checks) == NoChecks <==> checks.None? || checks.value in {"", NoChecks}
  {
  }

  /** The two rounds disagree on absent or empty checks: round 1 falls back to
      a note, round 2 passes "None" or nothing. */
  lemma ChecksDiffer(checks: Option<string>)
    ensures ChecksText(checks) == Round2ChecksText(checks) <==> checks.Some? && checks.value != ""
  {
  }

  /** Read back line by line, the files section of the round 2 prompt is each
      fetched file's START marker, content lines and END marker, in order, with
      one empty line between files (file names carrying no newline). */
  lemma Round2PromptFiles(files: Files, request: TaskRequest)
    requires forall i :: 0 <= i < |files| ==> '\n' !in files[i].fileName
    ensures Split(Round2PromptOf(files, request).files, '\n') == FilesLines(files)
  {
    FilesStrLines(files);
  }
}
