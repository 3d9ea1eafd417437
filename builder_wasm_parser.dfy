/** The Runefile parser of the browser builder (`builder-wasm/src/parser/mod.rs`).
    Its line handling and its per-instruction helpers are those of the
    daemon's builder (module `ImageBuilder`), with two differences: ONBUILD
    is not a keyword, and errors are plain text, `Line <n>: <message>` for an
    error on a line and the bare message when the file has no FROM.
    `validate` then checks the parsed stages and reports errors and
    warnings. */
module BuilderWasmParser {
  import opened Common
  import IB = ImageBuilder

  // ---------------------------------------------------------------------
  // Instructions

  /** `parse_instruction`: the daemon's dispatch without the ONBUILD arm. */
  function ParseInstruction(line: string, lineNum: nat, json: IB.Json): (r: Result<IB.BuildInstruction>)
    ensures ToUpper(SplitOnceSpace(line).0) == "ONBUILD" ==>
      r == Err(IB.ParseError(lineNum, "Unknown instruction: ONBUILD"))
    ensures ToUpper(SplitOnceSpace(line).0) != "ONBUILD" ==> r == IB.ParseInstruction(line, lineNum, json)
    ensures r.Ok? ==> !r.value.Onbuild?
    ensures r.Err? ==> r.error.DockerfileParse? && r.error.line == lineNum
  {
    var instruction := ToUpper(SplitOnceSpace(line).0);
    if instruction == "ONBUILD" then Err(IB.ParseError(lineNum, "Unknown instruction: ONBUILD"))
    else IB.ParseInstruction(line, lineNum, json)
  }

  function Parser(json: IB.Json): IB.LineParser
  {
    (text: string, lineNum: nat) => ParseInstruction(text, lineNum, json)
  }

  /** The text of an error: `Line <n>: <message>`, or the bare message for
      the whole-file error, which carries line 0. */
  function ErrorText(e: RuneError): string
  {
    if e.DockerfileParse? && e.line > 0 then "Line " + NatToString(e.line) + ": " + e.msg else e.msg
  }

  // ---------------------------------------------------------------------
  // The parse

  datatype ParseOutcome = Parsed(file: IB.ParsedBuildFile) | Failed(message: string)

  function Render(r: Result<IB.ParsedBuildFile>): ParseOutcome
  {
    match r
    case Ok(f) => Parsed(f)
    case Err(e) => Failed(ErrorText(e))
  }

  /** `parse_content`, stated in stages. */
  function ParseContent(content: string, json: IB.Json): ParseOutcome
  {
    Render(IB.StagesOf(Lines(content), Parser(json)))
  }

  const NoFromMessage := "No FROM instruction found"

  /** `parse_content`: the daemon's line pass with this parser's dispatch. */
  method ParseContentText(content: string, json: IB.Json) returns (r: ParseOutcome)
    ensures r == ParseContent(content, json)
    ensures r.Parsed? ==> |r.file.stages| > 0
  {
    var lines := Lines(content);
    var staged := IB.ParsePhysicalLines(lines, Parser(json));
    match staged
    case Ok(f) => r := Parsed(f);
    case Err(e) => r := Failed(ErrorText(e));
  }

  /** Every logical line is numbered after the physical line that ends it,
      so from 1 on. */
  lemma {:induction false} LogicalNumbered(lines: seq<string>, i: nat, pending: string)
    requires i <= |lines|
    ensures forall k :: 0 <= k < |IB.Logical(lines, i, pending)| ==> IB.Logical(lines, i, pending)[k].lineNum > i
    decreases |lines| - i
  {
    if i < |lines| {
      var line := Trim(lines[i]);
      if IB.Skipped(line) {
        LogicalNumbered(lines, i + 1, pending);
      } else if IB.Continues(line) {
        LogicalNumbered(lines, i + 1, pending + line[..|line| - 1] + " ");
      } else {
        LogicalNumbered(lines, i + 1, "");
      }
    }
  }

  /** The parsed lines line up with the logical lines. */
  lemma {:induction false} ParseLinesAt(ls: seq<IB.LogicalLine>, parse: IB.LineParser, k: nat)
    requires k < |ls|
    ensures IB.ParseLines(ls, parse)[k] == IB.Parsed(ls[k].lineNum, parse(ls[k].text, ls[k].lineNum))
    decreases k
  {
    if k > 0 {
      ParseLinesAt(ls[1..], parse, k - 1);
    }
  }

  /** Each parsed line is numbered from 1 on, and its error names its line. */
  predicate LinesNamed(ps: seq<IB.Parsed>)
  {
    forall k :: 0 <= k < |ps| ==>
      ps[k].lineNum > 0 &&
      (ps[k].result.Err? ==> ps[k].result.error.DockerfileParse? && ps[k].result.error.line == ps[k].lineNum)
  }

  /** The stage pass fails with an error on a numbered line, or with the
      no-FROM error on line 0. */
  lemma {:induction false} AssembleErrorNamed(ps: seq<IB.Parsed>, cur: Option<IB.BuildStage>, stages: seq<IB.BuildStage>)
    requires LinesNamed(ps)
    ensures var r := IB.Assemble(ps, cur, stages);
      r.Err? ==> r.error.DockerfileParse? && (r.error.line == 0 ==> r.error.msg == NoFromMessage)
    decreases |ps|
  {
    if ps != [] {
      assert LinesNamed(ps[1..]) by {
        forall k | 0 <= k < |ps[1..]| ensures ps[1..][k] == ps[k + 1] { }
      }
      match ps[0].result
      case Err(e) =>
      case Ok(ins) =>
        if ins.From? {
          AssembleErrorNamed(ps[1..], Some(IB.BuildStage(ins.alias, ins.image, ins.tag, [])), stages + IB.Close(cur));
        } else if cur.Some? {
          AssembleErrorNamed(ps[1..], Some(cur.value.(instructions := cur.value.instructions + [ins])), stages);
        }
    }
  }

  lemma ParsedLinesNamed(content: string, json: IB.Json)
    ensures LinesNamed(IB.ParseLines(IB.Logical(Lines(content), 0, ""), Parser(json)))
  {
    var ls := IB.Logical(Lines(content), 0, "");
    var ps := IB.ParseLines(ls, Parser(json));
    LogicalNumbered(Lines(content), 0, "");
    forall k | 0 <= k < |ps|
      ensures ps[k].lineNum > 0 &&
        (ps[k].result.Err? ==> ps[k].result.error.DockerfileParse? && ps[k].result.error.line == ps[k].lineNum)
    {
      ParseLinesAt(ls, Parser(json), k);
    }
  }

  lemma ErrorTextNamed(e: RuneError)
    ensures e.DockerfileParse? && e.line > 0 ==> IsPrefix("Line ", ErrorText(e))
  {
    if e.DockerfileParse? && e.line > 0 {
      assert ErrorText(e)[..5] == "Line ";
    }
  }

  /** Every error names its line, `Line <n>: …`, except the one for a file
      without FROM. */
  lemma ParseErrorNamed(content: string, json: IB.Json)
    ensures ParseContent(content, json).Failed? ==>
      ParseContent(content, json).message == NoFromMessage || IsPrefix("Line ", ParseContent(content, json).message)
  {
    var ps := IB.ParseLines(IB.Logical(Lines(content), 0, ""), Parser(json));
    ParsedLinesNamed(content, json);
    AssembleErrorNamed(ps, None, []);
    var r := IB.Assemble(ps, None, []);
    if r.Err? {
      ErrorTextNamed(r.error);
    }
  }

  /** The stage pass only succeeds with at least one stage. */
  lemma {:induction false} AssembleNonEmpty(ps: seq<IB.Parsed>, cur: Option<IB.BuildStage>, stages: seq<IB.BuildStage>)
    ensures IB.Assemble(ps, cur, stages).Ok? ==> |IB.Assemble(ps, cur, stages).value| > 0
    decreases |ps|
  {
    if ps != [] {
      match ps[0].result
      case Err(e) =>
      case Ok(ins) =>
        if ins.From? {
          AssembleNonEmpty(ps[1..], Some(IB.BuildStage(ins.alias, ins.image, ins.tag, [])), stages + IB.Close(cur));
        } else if cur.Some? {
          AssembleNonEmpty(ps[1..], Some(cur.value.(instructions := cur.value.instructions + [ins])), stages);
        }
    }
  }

  /** A parsed file always has a stage. */
  lemma ParsedHasStage(content: string, json: IB.Json)
    ensures ParseContent(content, json).Parsed? ==> |ParseContent(content, json).file.stages| > 0
  {
    AssembleNonEmpty(IB.ParseLines(IB.Logical(Lines(content), 0, ""), Parser(json)), None, []);
  }

  /** The keyword of a logical line. */
  function KeywordOf(l: IB.LogicalLine): string
  {
    ToUpper(SplitOnceSpace(l.text).0)
  }

  predicate NoOnbuild(ls: seq<IB.LogicalLine>)
  {
    forall k :: 0 <= k < |ls| ==> KeywordOf(ls[k]) != "ONBUILD"
  }

  /** Off ONBUILD lines the two dispatches parse alike. */
  lemma {:induction false} ParseLinesAgree(ls: seq<IB.LogicalLine>, json: IB.Json)
    requires NoOnbuild(ls)
    ensures IB.ParseLines(ls, Parser(json)) == IB.ParseLines(ls, IB.Parser(json))
    decreases |ls|
  {
    if ls != [] {
      assert KeywordOf(ls[0]) != "ONBUILD";
      assert forall k :: 0 <= k < |ls[1..]| ==> ls[1..][k] == ls[k + 1];
      ParseLinesAgree(ls[1..], json);
    }
  }

  /** A file without ONBUILD lines parses as the daemon's builder parses it;
      only the error text differs. */
  lemma ParseAgreesWithDaemon(content: string, json: IB.Json)
    requires NoOnbuild(IB.Logical(Lines(content), 0, ""))
    ensures ParseContent(content, json) == Render(IB.ParseContent(content, json))
  {
    ParseLinesAgree(IB.Logical(Lines(content), 0, ""), json);
  }

  /** A parsed line that failed makes the whole list fail. */
  lemma {:induction false} ParseAllFails(ps: seq<IB.Parsed>, k: nat)
    requires k < |ps| && ps[k].result.Err?
    ensures IB.ParseAll(ps).Err?
    decreases k
  {
    if k > 0 && ps[0].result.Ok? {
      ParseAllFails(ps[1..], k - 1);
    }
  }

  /** ONBUILD anywhere in the file makes the parse fail. */
  lemma OnbuildRefused(content: string, json: IB.Json, k: nat)
    requires var ls := IB.Logical(Lines(content), 0, "");
      k < |ls| && KeywordOf(ls[k]) == "ONBUILD"
    ensures ParseContent(content, json).Failed?
  {
    var ls := IB.Logical(Lines(content), 0, "");
    var ps := IB.ParseLines(ls, Parser(json));
    ParseLinesAt(ls, Parser(json), k);
    ParseAllFails(ps, k);
    IB.AssembleOk(ps, None, []);
  }

  // ---------------------------------------------------------------------
  // Validation

  const NoStageMessage := "Runefile must have at least one stage (FROM instruction)"

  function NoSourcesMessage(keyword: string): string
  {
    keyword + " instruction has no source files"
  }

  function NoDestinationMessage(keyword: string): string
  {
    keyword + " instruction has no destination"
  }

  function EmptyBaseMessage(i: nat): string
  {
    "Stage " + NatToString(i) + " has empty base image"
  }

  /** The two checks of COPY and ADD: sources present, destination present. */
  function TransferErrors(keyword: string, src: seq<string>, dest: string): seq<string>
  {
    (if src == [] then [NoSourcesMessage(keyword)] else []) +
    (if dest == "" then [NoDestinationMessage(keyword)] else [])
  }

  function InstructionErrors(ins: IB.BuildInstruction): seq<string>
  {
    match ins
    case Copy(src, dest, _, _) => TransferErrors("COPY", src, dest)
    case Add(src, dest, _) => TransferErrors("ADD", src, dest)
    case _ => []
  }

  /** A working directory is absolute when it starts with '/' or with a
      variable reference '$'. */
  predicate AbsoluteDir(path: string)
  {
    |path| > 0 && (path[0] == '/' || path[0] == '$')
  }

  function WorkdirWarning(path: string): string
  {
    "WORKDIR '" + path + "' should be an absolute path"
  }

  const ExposeZeroWarning := "EXPOSE port 0 is unusual"

  function InstructionWarnings(ins: IB.BuildInstruction): seq<string>
  {
    match ins
    case Expose(port, _) => if port == 0 then [ExposeZeroWarning] else []
    case Workdir(path) => if AbsoluteDir(path) then [] else [WorkdirWarning(path)]
    case _ => []
  }

  /** The errors of a stage's instructions, in order. */
  function InstructionsErrors(instrs: seq<IB.BuildInstruction>): seq<string>
  {
    if instrs == [] then []
    else InstructionsErrors(instrs[..|instrs| - 1]) + InstructionErrors(instrs[|instrs| - 1])
  }

  function InstructionsWarnings(instrs: seq<IB.BuildInstruction>): seq<string>
  {
    if instrs == [] then []
    else InstructionsWarnings(instrs[..|instrs| - 1]) + InstructionWarnings(instrs[|instrs| - 1])
  }

  /** The errors of stage `i`: its base image, then its instructions. */
  function StageErrors(i: nat, s: IB.BuildStage): seq<string>
  {
    (if s.baseImage == "" then [EmptyBaseMessage(i)] else []) +
    InstructionsErrors(s.instructions)
  }

  function StagesErrors(stages: seq<IB.BuildStage>): seq<string>
  {
    if stages == [] then []
    else StagesErrors(stages[..|stages| - 1]) + StageErrors(|stages| - 1, stages[|stages| - 1])
  }

  function StagesWarnings(stages: seq<IB.BuildStage>): seq<string>
  {
    if stages == [] then []
    else StagesWarnings(stages[..|stages| - 1]) + InstructionsWarnings(stages[|stages| - 1].instructions)
  }

  /** The report `validate` returns as JSON. */
  datatype Validation = Validation(valid: bool, errors: seq<string>, warnings: seq<string>)

  /** `validate`, stated on the parse: a failed parse is its one error. */
  function Validated(content: string, json: IB.Json): Validation
  {
    match ParseContent(content, json)
    case Failed(message) => Validation(false, [message], [])
    case Parsed(file) => Report(file)
  }

  /** The report on a parsed file. */
  function Report(file: IB.ParsedBuildFile): Validation
  {
    var errors := (if file.stages == [] then [NoStageMessage] else []) + StagesErrors(file.stages);
    Validation(errors == [], errors, StagesWarnings(file.stages))
  }

  /** The checks of one instruction. */
  method CheckInstruction(ins: IB.BuildInstruction) returns (errors: seq<string>, warnings: seq<string>)
    ensures errors == InstructionErrors(ins)
    ensures warnings == InstructionWarnings(ins)
  {
    errors := [];
    warnings := [];
    match ins {
      case Copy(src, dest, _, _) =>
        if src == [] {
          errors := errors + [NoSourcesMessage("COPY")];
        }
        if dest == "" {
          errors := errors + [NoDestinationMessage("COPY")];
        }
      case Add(src, dest, _) =>
        if src == [] {
          errors := errors + [NoSourcesMessage("ADD")];
        }
        if dest == "" {
          errors := errors + [NoDestinationMessage("ADD")];
        }
      case Expose(port, _) =>
        if port == 0 {
          warnings := warnings + [ExposeZeroWarning];
        }
      case Workdir(path) =>
        if !AbsoluteDir(path) {
          warnings := warnings + [WorkdirWarning(path)];
        }
      case _ =>
    }
  }

  /** The inner loop of `validate`: the checks of one stage's instructions. */
  method CheckInstructions(instrs: seq<IB.BuildInstruction>) returns (errors: seq<string>, warnings: seq<string>)
    ensures errors == InstructionsErrors(instrs)
    ensures warnings == InstructionsWarnings(instrs)
  {
    errors := [];
    warnings := [];
    var j := 0;
    while j < |instrs|
      invariant 0 <= j <= |instrs|
      invariant errors == InstructionsErrors(instrs[..j])
      invariant warnings == InstructionsWarnings(instrs[..j])
    {
      assert instrs[..j + 1][..j] == instrs[..j];
      var e, w := CheckInstruction(instrs[j]);
      errors := errors + e;
      warnings := warnings + w;
      j := j + 1;
    }
    assert instrs[..j] == instrs;
  }

  /** The checks of stage `i`: its base image, then its instructions. */
  method CheckStage(i: nat, stage: IB.BuildStage) returns (errors: seq<string>, warnings: seq<string>)
    ensures errors == StageErrors(i, stage)
    ensures warnings == InstructionsWarnings(stage.instructions)
  {
    errors := [];
    if stage.baseImage == "" {
      errors := errors + [EmptyBaseMessage(i)];
    }
    var instructionErrors, instructionWarnings := CheckInstructions(stage.instructions);
    errors := errors + instructionErrors;
    warnings := instructionWarnings;
  }

  lemma StagesStep(stages: seq<IB.BuildStage>, i: nat)
    requires i < |stages|
    ensures StagesErrors(stages[..i + 1]) == StagesErrors(stages[..i]) + StageErrors(i, stages[i])
    ensures StagesWarnings(stages[..i + 1]) == StagesWarnings(stages[..i]) + InstructionsWarnings(stages[i].instructions)
  {
    assert stages[..i + 1][..i] == stages[..i];
  }

  /** The outer loop of `validate`: the checks of every stage, in order. */
  method CheckStages(stages: seq<IB.BuildStage>) returns (errors: seq<string>, warnings: seq<string>)
    ensures errors == StagesErrors(stages)
    ensures warnings == StagesWarnings(stages)
  {
    errors := [];
    warnings := [];
    var i := 0;
    while i < |stages|
      invariant 0 <= i <= |stages|
      invariant errors == StagesErrors(stages[..i])
      invariant warnings == StagesWarnings(stages[..i])
    {
      var stageErrors, stageWarnings := CheckStage(i, stages[i]);
      errors := errors + stageErrors;
      warnings := warnings + stageWarnings;
      StagesStep(stages, i);
      i := i + 1;
    }
    assert stages[..i] == stages;
  }

  /** `validate`: one pass over the stages and their instructions. */
  method Validate(content: string, json: IB.Json) returns (v: Validation)
    ensures v == Validated(content, json)
    ensures v.valid <==> v.errors == []
  {
    var parsed := ParseContentText(content, json);
    if parsed.Failed? {
      return Validation(false, [parsed.message], []);
    }
    var stages := parsed.file.stages;
    if stages == [] {
      return Validation(false, [NoStageMessage], []);
    }
    var errors, warnings := CheckStages(stages);
    v := Validation(errors == [], errors, warnings);
  }

  // ---------------------------------------------------------------------
  // Properties of validation

  /** A transfer instruction with sources and a destination. */
  predicate Complete(ins: IB.BuildInstruction)
  {
    (ins.Copy? ==> ins.src != [] && ins.dest != "") && (ins.Add? ==> ins.src != [] && ins.dest != "")
  }

  predicate SoundStage(s: IB.BuildStage)
  {
    s.baseImage != "" && forall j :: 0 <= j < |s.instructions| ==> Complete(s.instructions[j])
  }

  lemma {:induction false} InstructionsErrorsEmpty(instrs: seq<IB.BuildInstruction>)
    ensures InstructionsErrors(instrs) == [] <==> forall j :: 0 <= j < |instrs| ==> Complete(instrs[j])
    decreases |instrs|
  {
    if instrs != [] {
      var init := instrs[..|instrs| - 1];
      InstructionsErrorsEmpty(init);
      assert forall j :: 0 <= j < |init| ==> init[j] == instrs[j];
    }
  }

  lemma {:induction false} StagesErrorsEmpty(stages: seq<IB.BuildStage>)
    ensures StagesErrors(stages) == [] <==> forall k :: 0 <= k < |stages| ==> SoundStage(stages[k])
    decreases |stages|
  {
    if stages != [] {
      var init, last := stages[..|stages| - 1], stages[|stages| - 1];
      StagesErrorsEmpty(init);
      InstructionsErrorsEmpty(last.instructions);
      assert StageErrors(|stages| - 1, last) == [] <==> SoundStage(last);
      assert StagesErrors(stages) == StagesErrors(init) + StageErrors(|stages| - 1, last);
      assert forall k :: 0 <= k < |init| ==> init[k] == stages[k];
    }
  }

  /** A Runefile is valid exactly when it parses, every stage names a base
      image and every COPY and ADD has sources and a destination; warnings
      never make it invalid. */
  lemma ValidExactly(content: string, json: IB.Json)
    ensures Validated(content, json).valid <==>
      ParseContent(content, json).Parsed? &&
      forall k :: 0 <= k < |ParseContent(content, json).file.stages| ==>
        SoundStage(ParseContent(content, json).file.stages[k])
  {
    ParsedHasStage(content, json);
    if ParseContent(content, json).Parsed? {
      StagesErrorsEmpty(ParseContent(content, json).file.stages);
    }
  }

  lemma {:induction false} InstructionsWarningsHas(instrs: seq<IB.BuildInstruction>, j: nat, w: string)
    requires j < |instrs| && w in InstructionWarnings(instrs[j])
    ensures w in InstructionsWarnings(instrs)
    decreases |instrs|
  {
    if j < |instrs| - 1 {
      InstructionsWarningsHas(instrs[..|instrs| - 1], j, w);
    }
  }

  lemma {:induction false} StagesWarningsHas(stages: seq<IB.BuildStage>, k: nat, j: nat, w: string)
    requires k < |stages| && j < |stages[k].instructions| && w in InstructionWarnings(stages[k].instructions[j])
    ensures w in StagesWarnings(stages)
    decreases |stages|
  {
    if k < |stages| - 1 {
      StagesWarningsHas(stages[..|stages| - 1], k, j, w);
    } else {
      InstructionsWarningsHas(stages[k].instructions, j, w);
    }
  }

  lemma {:induction false} InstructionsErrorsHas(instrs: seq<IB.BuildInstruction>, j: nat, e: string)
    requires j < |instrs| && e in InstructionErrors(instrs[j])
    ensures e in InstructionsErrors(instrs)
    decreases |instrs|
  {
    if j < |instrs| - 1 {
      InstructionsErrorsHas(instrs[..|instrs| - 1], j, e);
    }
  }

  lemma {:induction false} StagesErrorsHas(stages: seq<IB.BuildStage>, k: nat, e: string)
    requires k < |stages| && e in StageErrors(k, stages[k])
    ensures e in StagesErrors(stages)
    decreases |stages|
  {
    if k < |stages| - 1 {
      StagesErrorsHas(stages[..|stages| - 1], k, e);
    }
  }

  /** A relative WORKDIR in any stage is warned about, by name. */
  lemma RelativeWorkdirWarned(file: IB.ParsedBuildFile, k: nat, j: nat)
    requires k < |file.stages| && j < |file.stages[k].instructions|
    requires file.stages[k].instructions[j].Workdir? && !AbsoluteDir(file.stages[k].instructions[j].path)
    ensures WorkdirWarning(file.stages[k].instructions[j].path) in Report(file).warnings
  {
    StagesWarningsHas(file.stages, k, j, WorkdirWarning(file.stages[k].instructions[j].path));
  }

  /** EXPOSE 0 in any stage is warned about. */
  lemma ExposeZeroWarned(file: IB.ParsedBuildFile, k: nat, j: nat)
    requires k < |file.stages| && j < |file.stages[k].instructions|
    requires file.stages[k].instructions[j].Expose? && file.stages[k].instructions[j].port == 0
    ensures ExposeZeroWarning in Report(file).warnings
  {
    StagesWarningsHas(file.stages, k, j, ExposeZeroWarning);
  }

  /** A COPY or ADD without sources in any stage is reported as an error
      naming its keyword, and the file is not valid. */
  lemma MissingSourcesReported(file: IB.ParsedBuildFile, k: nat, j: nat)
    requires k < |file.stages| && j < |file.stages[k].instructions|
    requires var ins := file.stages[k].instructions[j]; (ins.Copy? || ins.Add?) && ins.src == []
    ensures var ins := file.stages[k].instructions[j];
      NoSourcesMessage(if ins.Copy? then "COPY" else "ADD") in Report(file).errors
    ensures !Report(file).valid
  {
    var ins := file.stages[k].instructions[j];
    var e := NoSourcesMessage(if ins.Copy? then "COPY" else "ADD");
    InstructionsErrorsHas(file.stages[k].instructions, j, e);
    StagesErrorsHas(file.stages, k, e);
  }

  /** A COPY or ADD without a destination in any stage is reported likewise. */
  lemma MissingDestinationReported(file: IB.ParsedBuildFile, k: nat, j: nat)
    requires k < |file.stages| && j < |file.stages[k].instructions|
    requires var ins := file.stages[k].instructions[j]; (ins.Copy? || ins.Add?) && ins.dest == ""
    ensures var ins := file.stages[k].instructions[j];
      NoDestinationMessage(if ins.Copy? then "COPY" else "ADD") in Report(file).errors
    ensures !Report(file).valid
  {
    var ins := file.stages[k].instructions[j];
    var e := NoDestinationMessage(if ins.Copy? then "COPY" else "ADD");
    InstructionsErrorsHas(file.stages[k].instructions, j, e);
    StagesErrorsHas(file.stages, k, e);
  }

  /** A stage whose base image is empty is reported by its index. */
  lemma EmptyBaseReported(file: IB.ParsedBuildFile, k: nat)
    requires k < |file.stages| && file.stages[k].baseImage == ""
    ensures EmptyBaseMessage(k) in Report(file).errors
    ensures !Report(file).valid
  {
    StagesErrorsHas(file.stages, k, EmptyBaseMessage(k));
  }

  /** `get_default_build_file`. */
  const DefaultBuildFile := "Runefile"
}
