/** The Runefile parser of the browser language server
    (`lsp-wasm/src/parser`): a line-by-line pass that joins continuation
    lines, classifies each instruction by its keyword, checks the
    arguments of a few instructions and reports what it finds as
    diagnostics. */
module LspWasmParser {
  import opened Common

  datatype InstructionKind =
    | From | Run | Copy | Add | Cmd | Entrypoint | Env | Expose | Label | Maintainer
    | Volume | Workdir | Arg | User | Healthcheck | Shell | Stopsignal | Onbuild
    | Comment | Unknown

  /** A parsed instruction; `line` is the 0-based line it is reported at. */
  datatype Instruction = Instruction(kind: InstructionKind, line: nat, raw: string, keyword: string, arguments: string)

  datatype Severity = Error | Warning | Information | Hint

  datatype ParseError = ParseError(line: nat, message: string, severity: Severity)

  datatype Position = Position(line: nat, character: nat)
  datatype Range = Range(start: Position, end: Position)
  datatype Diagnostic = Diagnostic(range: Range, severity: nat, message: string, source: string)

  // ---------------------------------------------------------------------
  // Keywords

  /** The kinds a keyword names: all but comments and unknown words. */
  predicate Named(k: InstructionKind)
  {
    k != Comment && k != Unknown
  }

  function Name(k: InstructionKind): string
    requires Named(k)
  {
    match k
    case From => "FROM"
    case Run => "RUN"
    case Copy => "COPY"
    case Add => "ADD"
    case Cmd => "CMD"
    case Entrypoint => "ENTRYPOINT"
    case Env => "ENV"
    case Expose => "EXPOSE"
    case Label => "LABEL"
    case Maintainer => "MAINTAINER"
    case Volume => "VOLUME"
    case Workdir => "WORKDIR"
    case Arg => "ARG"
    case User => "USER"
    case Healthcheck => "HEALTHCHECK"
    case Shell => "SHELL"
    case Stopsignal => "STOPSIGNAL"
    case Onbuild => "ONBUILD"
  }

  /** The kind an upper-cased keyword selects in `parse_instruction`;
      every other word is `Unknown`. */
  function KindOf(keyword: string): (k: InstructionKind)
    ensures k != Comment
    ensures k != Unknown ==> Named(k) && Name(k) == keyword
  {
    match keyword
    case "FROM" => From
    case "RUN" => Run
    case "COPY" => Copy
    case "ADD" => Add
    case "CMD" => Cmd
    case "ENTRYPOINT" => Entrypoint
    case "ENV" => Env
    case "EXPOSE" => Expose
    case "LABEL" => Label
    case "MAINTAINER" => Maintainer
    case "VOLUME" => Volume
    case "WORKDIR" => Workdir
    case "ARG" => Arg
    case "USER" => User
    case "HEALTHCHECK" => Healthcheck
    case "SHELL" => Shell
    case "STOPSIGNAL" => Stopsignal
    case "ONBUILD" => Onbuild
    case _ => Unknown
  }

  /** Every keyword selects its own kind. */
  lemma KindOfName(k: InstructionKind)
    requires Named(k)
    ensures KindOf(Name(k)) == k
  {
    match k
    case From =>
    case Run =>
    case Copy =>
    case Add =>
    case Cmd =>
    case Entrypoint =>
    case Env =>
    case Expose =>
    case Label =>
    case Maintainer =>
    case Volume =>
    case Workdir =>
    case Arg =>
    case User =>
    case Healthcheck =>
    case Shell =>
    case Stopsignal =>
    case Onbuild =>
  }

  /** A word is `Unknown` exactly when no keyword spells it. */
  lemma UnknownExactly(keyword: string)
    ensures KindOf(keyword) == Unknown <==> forall n :: Named(n) ==> Name(n) != keyword
  {
    forall n | Named(n) && Name(n) == keyword
      ensures KindOf(keyword) == n
    {
      KindOfName(n);
    }
  }

  /** No two kinds share a keyword. */
  lemma NameInjective(a: InstructionKind, b: InstructionKind)
    requires Named(a) && Named(b) && Name(a) == Name(b)
    ensures a == b
  {
    KindOfName(a);
    KindOfName(b);
  }

  // ---------------------------------------------------------------------
  // Argument checks

  const FromMessage := "FROM requires an image argument"
  const CopyMessage := "COPY requires at least two arguments (source and destination)"
  const AddMessage := "ADD requires at least two arguments (source and destination)"
  const WorkdirEmptyMessage := "WORKDIR requires a path argument"
  const WorkdirRelativeMessage := "WORKDIR should use absolute path"
  const HealthcheckMessage := "HEALTHCHECK must be NONE or CMD"
  const MissingFromMessage := "Runefile must start with FROM instruction"

  /** The error added at line 0 when no FROM was seen. */
  const MissingFromError := ParseError(0, MissingFromMessage, Error)

  function UnknownWarning(keyword: string, lineNum: nat): ParseError
  {
    ParseError(lineNum, "Unknown instruction: " + keyword, Warning)
  }

  function PortWarning(port: string, lineNum: nat): ParseError
  {
    ParseError(lineNum, "Invalid port number: " + port, Warning)
  }

  /** A word that does not start with "--" (a source or a destination
      rather than a flag). */
  predicate IsOperand(w: string)
  {
    !IsPrefix("--", w)
  }

  /** The part of an EXPOSE word before any '/' is not a 16-bit port. */
  predicate BadPort(port: string)
  {
    ParseUint(Split(port, '/')[0], 0x1_0000).None?
  }

  /** One warning per EXPOSE word that is no port, in order. */
  function PortWarnings(ports: seq<string>, lineNum: nat): seq<ParseError>
  {
    if ports == [] then []
    else
      var last := ports[|ports| - 1];
      PortWarnings(ports[..|ports| - 1], lineNum) + (if BadPort(last) then [PortWarning(last, lineNum)] else [])
  }

  /** A warning names a port exactly when that word is in the list and is
      no port. */
  lemma {:induction false} PortWarningsExactly(ports: seq<string>, lineNum: nat, port: string)
    ensures PortWarning(port, lineNum) in PortWarnings(ports, lineNum) <==> port in ports && BadPort(port)
  {
    if ports != [] {
      var init := ports[..|ports| - 1];
      var last := ports[|ports| - 1];
      PortWarningsExactly(init, lineNum, port);
      assert ports == init + [last];
      if PortWarning(port, lineNum) == PortWarning(last, lineNum) {
        assert "Invalid port number: " + port == "Invalid port number: " + last;
        assert port == ("Invalid port number: " + port)[21..];
      }
    }
  }

  /** `validate_instruction`: the errors and warnings an instruction's
      arguments raise. */
  function Validation(kind: InstructionKind, arguments: string, lineNum: nat): seq<ParseError>
  {
    match kind
    case From =>
      if arguments == "" then [ParseError(lineNum, FromMessage, Error)] else []
    case Copy =>
      if |Filter(Words(arguments), IsOperand)| < 2 then [ParseError(lineNum, CopyMessage, Error)] else []
    case Add =>
      if |Filter(Words(arguments), IsOperand)| < 2 then [ParseError(lineNum, AddMessage, Error)] else []
    case Expose =>
      PortWarnings(Words(arguments), lineNum)
    case Workdir =>
      if arguments == "" then [ParseError(lineNum, WorkdirEmptyMessage, Error)]
      else if !IsPrefix("/", arguments) && !IsPrefix("$", arguments) then [ParseError(lineNum, WorkdirRelativeMessage, Warning)]
      else []
    case Healthcheck =>
      if arguments != "" && !IsPrefix("NONE", arguments) && !IsPrefix("CMD", arguments) then [ParseError(lineNum, HealthcheckMessage, Error)]
      else []
    case _ => []
  }

  // ---------------------------------------------------------------------
  // The line-by-line pass

  /** The instruction `parse_instruction` records for a line: the first
      whitespace-separated word upper-cased, the trimmed rest as the
      arguments, and the line itself as `raw`. */
  function InstructionOf(line: string, lineNum: nat): Instruction
  {
    var parts := SplitOnceSpace(Trim(line));
    var keyword := ToUpper(parts.0);
    var arguments := if parts.1.Some? then Trim(parts.1.value) else "";
    Instruction(KindOf(keyword), lineNum, line, keyword, arguments)
  }

  /** The errors `parse_instruction` adds for an instruction: the unknown
      keyword warning, then the argument checks. */
  function InstructionErrors(k: Instruction): seq<ParseError>
  {
    if k.kind == Unknown then [UnknownWarning(k.keyword, k.line)] + Validation(k.kind, k.arguments, k.line)
    else Validation(k.kind, k.arguments, k.line)
  }

  function CommentOf(line: string, trimmed: string, lineNum: nat): Instruction
    requires |trimmed| > 0
  {
    Instruction(Comment, lineNum, line, "#", Trim(trimmed[1..]))
  }

  /** The state of the pass: what has been recorded so far, whether a FROM
      was seen, and the continuation being collected. */
  datatype Scan = Scan(
    instructions: seq<Instruction>,
    errors: seq<ParseError>,
    hasFrom: bool,
    inMultiline: bool,
    buffer: string,
    startLine: nat)

  /** An instruction recorded with its errors. */
  function Record(p: Scan, k: Instruction): Scan
  {
    p.(instructions := p.instructions + [k],
       errors := p.errors + InstructionErrors(k),
       hasFrom := p.hasFrom || k.kind == From)
  }

  predicate Continues(trimmed: string)
  {
    |trimmed| > 0 && trimmed[|trimmed| - 1] == '\\'
  }

  /** What one physical line does to the pass. */
  datatype Effect =
    | Skip                                  // a blank line
    | Note(comment: Instruction)            // a '#' line, even inside a continuation
    | Extend(text: string)                  // the continuation goes on
    | Open(text: string, start: nat)        // a continuation begins
    | Emit(k: Instruction, closes: bool)    // an instruction, closing a continuation or not

  /** The effect of a line: a line ending in '\' starts or extends a
      continuation, and the line that ends one is parsed together with it
      at the line the continuation started. */
  function EffectOf(p: Scan, line: string, lineNum: nat): Effect
  {
    var t := Trim(line);
    if t == "" then Skip
    else if t[0] == '#' then Note(CommentOf(line, t, lineNum))
    else if p.inMultiline then
      if Continues(t) then Extend(p.buffer + " " + t[..|t| - 1])
      else Emit(InstructionOf(p.buffer + " " + t, p.startLine), true)
    else if Continues(t) then Open(t[..|t| - 1], lineNum)
    else Emit(InstructionOf(line, lineNum), false)
  }

  function Apply(p: Scan, e: Effect): Scan
  {
    match e
    case Skip => p
    case Note(c) => p.(instructions := p.instructions + [c])
    case Extend(text) => p.(buffer := text)
    case Open(text, start) => p.(inMultiline := true, buffer := text, startLine := start)
    case Emit(k, closes) => Record(if closes then p.(inMultiline := false, buffer := "") else p, k)
  }

  /** One physical line of the pass. */
  function Step(p: Scan, line: string, lineNum: nat): Scan
  {
    Apply(p, EffectOf(p, line, lineNum))
  }

  const Start := Scan([], [], false, false, "", 0)

  /** The pass over `lines`, numbered from 0. */
  function Walk(lines: seq<string>): Scan
  {
    if lines == [] then Start
    else Step(Walk(lines[..|lines| - 1]), lines[|lines| - 1], |lines| - 1)
  }

  /** The pass over all of `lines`, as the loop's invariant leaves it. */
  lemma WalkAll(lines: seq<string>)
    ensures Walk(lines[..|lines|]) == Walk(lines)
  {
    assert lines[..|lines|] == lines;
  }

  /** A blank line changes nothing. */
  lemma SkipStep(p: Scan, line: string, lineNum: nat)
    requires Trim(line) == ""
    ensures Step(p, line, lineNum) == p
  {
    assert EffectOf(p, line, lineNum) == Skip;
  }

  /** A comment line is recorded as a comment instruction, inside a
      continuation or not. */
  lemma NoteStep(p: Scan, line: string, lineNum: nat)
    requires Trim(line) != "" && Trim(line)[0] == '#'
    ensures Step(p, line, lineNum) == p.(instructions := p.instructions + [CommentOf(line, Trim(line), lineNum)])
  {
    assert EffectOf(p, line, lineNum) == Note(CommentOf(line, Trim(line), lineNum));
  }

  /** A continued line inside a continuation extends the buffer. */
  lemma ExtendStep(p: Scan, line: string, lineNum: nat)
    requires Trim(line) != "" && Trim(line)[0] != '#' && p.inMultiline && Continues(Trim(line))
    ensures Step(p, line, lineNum) == p.(buffer := p.buffer + " " + Trim(line)[..|Trim(line)| - 1])
  {
    assert EffectOf(p, line, lineNum) == Extend(p.buffer + " " + Trim(line)[..|Trim(line)| - 1]);
  }

  /** A continued line outside a continuation opens one at this line. */
  lemma OpenStep(p: Scan, line: string, lineNum: nat)
    requires Trim(line) != "" && Trim(line)[0] != '#' && !p.inMultiline && Continues(Trim(line))
    ensures Step(p, line, lineNum) == p.(inMultiline := true, buffer := Trim(line)[..|Trim(line)| - 1], startLine := lineNum)
  {
    assert EffectOf(p, line, lineNum) == Open(Trim(line)[..|Trim(line)| - 1], lineNum);
  }

  /** A line that ends a continuation parses the joined text at the line
      the continuation started. */
  lemma CloseStep(p: Scan, line: string, lineNum: nat)
    requires Trim(line) != "" && Trim(line)[0] != '#' && p.inMultiline && !Continues(Trim(line))
    ensures Step(p, line, lineNum) == Record(p.(inMultiline := false, buffer := ""), InstructionOf(p.buffer + " " + Trim(line), p.startLine))
  {
    assert EffectOf(p, line, lineNum) == Emit(InstructionOf(p.buffer + " " + Trim(line), p.startLine), true);
  }

  /** A line outside a continuation that does not start one is parsed on
      its own. */
  lemma EmitStep(p: Scan, line: string, lineNum: nat)
    requires Trim(line) != "" && Trim(line)[0] != '#' && !p.inMultiline && !Continues(Trim(line))
    ensures Step(p, line, lineNum) == Record(p, InstructionOf(line, lineNum))
  {
    assert EffectOf(p, line, lineNum) == Emit(InstructionOf(line, lineNum), false);
  }

  lemma WalkStep(lines: seq<string>, i: nat)
    requires i < |lines|
    ensures Walk(lines[..i + 1]) == Step(Walk(lines[..i]), lines[i], i)
  {
    assert lines[..i + 1][..i] == lines[..i];
  }

  /** No FROM among the instructions, yet at least one instruction (a
      comment counts). */
  predicate LacksFrom(ks: seq<Instruction>)
  {
    ks != [] && forall i :: 0 <= i < |ks| ==> ks[i].kind != From
  }

  datatype Parse = Parse(instructions: seq<Instruction>, errors: seq<ParseError>)

  /** `parse`: the pass over the lines of `content`, then the missing-FROM
      error. An unfinished continuation is dropped. */
  function Parsed(content: string): Parse
  {
    var p := Walk(Lines(content));
    Parse(p.instructions, p.errors + (if !p.hasFrom && p.instructions != [] then [MissingFromError] else []))
  }

  // ---------------------------------------------------------------------
  // Diagnostics

  function SeverityCode(s: Severity): (c: nat)
    ensures 1 <= c <= 4
  {
    match s
    case Error => 1
    case Warning => 2
    case Information => 3
    case Hint => 4
  }

  /** The severity an LSP diagnostic code stands for. */
  function SeverityOfCode(c: nat): (r: Option<Severity>)
    ensures r.Some? <==> 1 <= c <= 4
  {
    if c == 1 then Some(Error)
    else if c == 2 then Some(Warning)
    else if c == 3 then Some(Information)
    else if c == 4 then Some(Hint)
    else None
  }

  /** Each severity has a code of its own. */
  lemma SeverityCodeInjective(a: Severity, b: Severity)
    ensures SeverityOfCode(SeverityCode(a)) == Some(a)
    ensures SeverityCode(a) == SeverityCode(b) ==> a == b
  {
  }

  /** The diagnostic for an error: the whole of its line from column 0 to
      100, the line number cut to 32 bits. */
  function ToDiagnostic(e: ParseError): (d: Diagnostic)
    ensures SeverityOfCode(d.severity) == Some(e.severity)
    ensures d.message == e.message && d.source == "runefile-lsp"
    ensures d.range.start.line == d.range.end.line < U32
    ensures e.line < U32 ==> d.range.start.line == e.line
    ensures d.range.start.character == 0 && d.range.end.character == 100
  {
    var line := e.line % U32;
    Diagnostic(Range(Position(line, 0), Position(line, 100)), SeverityCode(e.severity), e.message, "runefile-lsp")
  }

  function Diagnostics(errors: seq<ParseError>): (r: seq<Diagnostic>)
    ensures |r| == |errors|
    ensures forall i :: 0 <= i < |r| ==> SeverityOfCode(r[i].severity) == Some(errors[i].severity) && r[i].message == errors[i].message
    ensures forall i :: 0 <= i < |r| ==> r[i].source == "runefile-lsp" && r[i].range.start.line == r[i].range.end.line < U32
    ensures forall i :: 0 <= i < |r| && errors[i].line < U32 ==> r[i].range.start.line == errors[i].line
  {
    seq(|errors|, i requires 0 <= i < |errors| => ToDiagnostic(errors[i]))
  }

  // ---------------------------------------------------------------------
  // The parser object

  class RunefileParser {
    var instructions: seq<Instruction>
    var errors: seq<ParseError>

    constructor()
      ensures instructions == [] && errors == []
    {
      instructions := [];
      errors := [];
    }

    /** Parses `content`, replacing whatever an earlier parse left. */
    method Parse(content: string)
      modifies this
      ensures instructions == Parsed(content).instructions
      ensures errors == Parsed(content).errors
    {
      instructions := [];
      errors := [];
      var hasFrom := false;
      var inMultiline := false;
      var buffer := "";
      var startLine: nat := 0;
      var lines := Lines(content);
      var lineNum := 0;
      while lineNum < |lines|
        invariant lineNum <= |lines|
        invariant Scan(instructions, errors, hasFrom, inMultiline, buffer, startLine) == Walk(lines[..lineNum])
      {
        hasFrom, inMultiline, buffer, startLine := ParseLine(lines, lineNum, hasFrom, inMultiline, buffer, startLine);
        lineNum := lineNum + 1;
      }
      WalkAll(lines);
      if !hasFrom && |instructions| > 0 {
        errors := errors + [MissingFromError];
      }
    }

    /** One line of `parse`: the loop's own variables come in and go out,
        and the two sequences grow as the line demands. */
    method ParseLine(lines: seq<string>, lineNum: nat, hasFrom: bool, inMultiline: bool, buffer: string, startLine: nat)
      returns (hasFrom': bool, inMultiline': bool, buffer': string, startLine': nat)
      requires lineNum < |lines|
      requires Scan(instructions, errors, hasFrom, inMultiline, buffer, startLine) == Walk(lines[..lineNum])
      modifies this
      ensures Scan(instructions, errors, hasFrom', inMultiline', buffer', startLine') == Walk(lines[..lineNum + 1])
    {
      var line := lines[lineNum];
      WalkStep(lines, lineNum);
      hasFrom', inMultiline', buffer', startLine' := hasFrom, inMultiline, buffer, startLine;
      ghost var p := Scan(instructions, errors, hasFrom, inMultiline, buffer, startLine);
      var trimmed := Trim(line);
      if trimmed == "" {
        SkipStep(p, line, lineNum);
      } else if trimmed[0] == '#' {
        NoteStep(p, line, lineNum);
        instructions := instructions + [Instruction(Comment, lineNum, line, "#", Trim(trimmed[1..]))];
      } else if inMultiline {
        if trimmed[|trimmed| - 1] == '\\' {
          ExtendStep(p, line, lineNum);
          buffer' := buffer + " " + trimmed[..|trimmed| - 1];
        } else {
          CloseStep(p, line, lineNum);
          buffer' := buffer + " " + trimmed;
          hasFrom' := ParseInstruction(buffer', startLine, hasFrom);
          inMultiline' := false;
          buffer' := "";
        }
      } else if trimmed[|trimmed| - 1] == '\\' {
        OpenStep(p, line, lineNum);
        inMultiline' := true;
        startLine' := lineNum;
        buffer' := trimmed[..|trimmed| - 1];
      } else {
        EmitStep(p, line, lineNum);
        hasFrom' := ParseInstruction(line, lineNum, hasFrom);
      }
    }

    /** Records the instruction on `line`, its warnings and errors, and
        whether a FROM has now been seen. */
    method ParseInstruction(line: string, lineNum: nat, hasFrom: bool) returns (hasFromNow: bool)
      modifies this
      ensures instructions == old(instructions) + [InstructionOf(line, lineNum)]
      ensures errors == old(errors) + InstructionErrors(InstructionOf(line, lineNum))
      ensures hasFromNow == (hasFrom || InstructionOf(line, lineNum).kind == From)
    {
      var keyword, arguments, kind := Classify(line);
      ghost var k := Instruction(kind, lineNum, line, keyword, arguments);
      ghost var before := errors;
      hasFromNow := hasFrom || kind == From;
      if kind == Unknown {
        errors := errors + [UnknownWarning(keyword, lineNum)];
      }
      ValidateInstruction(kind, arguments, lineNum);
      if kind == Unknown {
        ConcatAssoc(before, [UnknownWarning(keyword, lineNum)], Validation(kind, arguments, lineNum));
        assert InstructionErrors(k) == [UnknownWarning(keyword, lineNum)] + Validation(kind, arguments, lineNum);
      } else {
        assert errors == before + Validation(kind, arguments, lineNum);
        assert InstructionErrors(k) == Validation(kind, arguments, lineNum);
      }
      assert errors == before + InstructionErrors(k);
      instructions := instructions + [Instruction(kind, lineNum, line, keyword, arguments)];
    }

    static method Classify(line: string) returns (keyword: string, arguments: string, kind: InstructionKind)
      ensures forall n: nat :: Instruction(kind, n, line, keyword, arguments) == InstructionOf(line, n)
    {
      var trimmed := Trim(line);
      var parts := SplitOnceSpace(trimmed);
      keyword := ToUpper(parts.0);
      arguments := if parts.1.Some? then Trim(parts.1.value) else "";
      kind := KindOf(keyword);
    }

    /** Adds the errors and warnings an instruction's arguments raise. */
    method ValidateInstruction(kind: InstructionKind, arguments: string, lineNum: nat)
      modifies this
      ensures instructions == old(instructions)
      ensures errors == old(errors) + Validation(kind, arguments, lineNum)
    {
      if kind == Expose {
        CheckPorts(Words(arguments), lineNum);
      } else {
        errors := errors + Validation(kind, arguments, lineNum);
      }
    }

    /** The EXPOSE check: a warning for each word that is no port. */
    method CheckPorts(ports: seq<string>, lineNum: nat)
      modifies this
      ensures instructions == old(instructions)
      ensures errors == old(errors) + PortWarnings(ports, lineNum)
    {
      var i := 0;
      while i < |ports|
        invariant i <= |ports|
        invariant instructions == old(instructions)
        invariant errors == old(errors) + PortWarnings(ports[..i], lineNum)
      {
        assert ports[..i + 1][..i] == ports[..i];
        var portNum := Split(ports[i], '/')[0];
        if ParseUint(portNum, 0x1_0000).None? {
          errors := errors + [PortWarning(ports[i], lineNum)];
        }
        i := i + 1;
      }
      assert ports[..|ports|] == ports;
    }

    /** The diagnostics reported for the current errors, one per error. */
    function GetDiagnostics(): (r: seq<Diagnostic>)
      reads this
      ensures |r| == |errors|
      ensures forall i :: 0 <= i < |r| ==> SeverityOfCode(r[i].severity) == Some(errors[i].severity)
      ensures forall i :: 0 <= i < |r| ==> r[i].message == errors[i].message && r[i].source == "runefile-lsp"
      ensures forall i :: 0 <= i < |r| && errors[i].line < U32 ==> r[i].range.start.line == errors[i].line
    {
      Diagnostics(errors)
    }

    function InstructionCount(): (r: nat)
      reads this
      ensures r == |instructions|
    {
      |instructions|
    }

    function ErrorCount(): (r: nat)
      reads this
      ensures r == |GetDiagnostics()|
    {
      |errors|
    }
  }

  // ---------------------------------------------------------------------
  // Properties of the pass

  /** The errors of a list of instructions, in order. */
  function ErrorsOf(ks: seq<Instruction>): seq<ParseError>
  {
    if ks == [] then [] else ErrorsOf(ks[..|ks| - 1]) + InstructionErrors(ks[|ks| - 1])
  }

  lemma ErrorsOfAppend(ks: seq<Instruction>, k: Instruction)
    ensures ErrorsOf(ks + [k]) == ErrorsOf(ks) + InstructionErrors(k)
  {
    assert (ks + [k])[..|ks|] == ks;
  }

  /** What the pass keeps true over `n` lines: `hasFrom` says whether
      one of the instructions is a FROM, every instruction but a comment
      has the kind its keyword selects, every instruction and a pending
      continuation lie within the lines, and no more instructions than
      lines are recorded. */
  predicate Accounted(p: Scan, n: nat)
  {
    && (p.hasFrom <==> exists i :: 0 <= i < |p.instructions| && p.instructions[i].kind == From)
    && (forall i :: 0 <= i < |p.instructions| ==> p.instructions[i].line < n)
    && (forall i :: 0 <= i < |p.instructions| && p.instructions[i].kind != Comment ==>
          p.instructions[i].kind == KindOf(p.instructions[i].keyword))
    && (p.inMultiline ==> p.startLine < n)
    && |p.instructions| <= n
  }

  /** An effect fits line `n - 1`: whatever it records or opens lies at or
      before that line, and an emitted instruction carries the kind of its
      keyword. */
  predicate Fits(e: Effect, n: nat)
  {
    match e
    case Skip => true
    case Note(c) => c.kind == Comment && c.line < n
    case Extend(_) => true
    case Open(_, start) => start < n
    case Emit(k, _) => k.line < n && k.kind == KindOf(k.keyword)
  }

  lemma EffectFits(p: Scan, line: string, lineNum: nat)
    requires p.inMultiline ==> p.startLine < lineNum + 1
    ensures Fits(EffectOf(p, line, lineNum), lineNum + 1)
  {
  }

  lemma ApplyAccounted(p: Scan, e: Effect, n: nat)
    requires n > 0 && Accounted(p, n - 1) && Fits(e, n)
    ensures Accounted(Apply(p, e), n)
  {
    var q := Apply(p, e);
    if e.Note? || e.Emit? {
      assert forall i :: 0 <= i < |p.instructions| ==> q.instructions[i] == p.instructions[i];
      assert q.instructions[|p.instructions|] == if e.Note? then e.comment else e.k;
      if q.hasFrom && !p.hasFrom {
        assert q.instructions[|p.instructions|].kind == From;
      }
    }
  }

  /** The errors of the pass are those of its instructions. */
  lemma ApplyErrors(p: Scan, e: Effect)
    requires p.errors == ErrorsOf(p.instructions)
    requires e.Note? ==> e.comment.kind == Comment
    ensures Apply(p, e).errors == ErrorsOf(Apply(p, e).instructions)
  {
    match e
    case Note(c) =>
      ErrorsOfAppend(p.instructions, c);
      assert InstructionErrors(c) == [];
    case Emit(k, _) =>
      ErrorsOfAppend(p.instructions, k);
    case _ =>
  }

  lemma {:induction false} WalkAccounted(lines: seq<string>)
    ensures Accounted(Walk(lines), |lines|)
    ensures Walk(lines).errors == ErrorsOf(Walk(lines).instructions)
  {
    if lines != [] {
      var init := lines[..|lines| - 1];
      var p := Walk(init);
      var e := EffectOf(p, lines[|lines| - 1], |lines| - 1);
      WalkAccounted(init);
      EffectFits(p, lines[|lines| - 1], |lines| - 1);
      ApplyAccounted(p, e, |lines|);
      ApplyErrors(p, e);
    }
  }

  lemma {:induction false} ErrorsOfHas(ks: seq<Instruction>, i: nat, e: ParseError)
    requires i < |ks| && e in InstructionErrors(ks[i])
    ensures e in ErrorsOf(ks)
  {
    if i < |ks| - 1 {
      ErrorsOfHas(ks[..|ks| - 1], i, e);
    }
  }

  lemma {:induction false} ErrorsOfFrom(ks: seq<Instruction>, e: ParseError)
    requires e in ErrorsOf(ks)
    ensures exists i :: 0 <= i < |ks| && e in InstructionErrors(ks[i])
  {
    var init := ks[..|ks| - 1];
    if e in ErrorsOf(init) {
      ErrorsOfFrom(init, e);
      var i :| 0 <= i < |init| && e in InstructionErrors(init[i]);
      assert ks[i] == init[i];
    } else {
      assert e in InstructionErrors(ks[|ks| - 1]);
    }
  }

  /** No instruction raises the missing-FROM error itself. */
  lemma NotMissingFrom(k: Instruction)
    ensures MissingFromError !in InstructionErrors(k)
  {
    var v := Validation(k.kind, k.arguments, k.line);
    if k.kind == Expose {
      if MissingFromError in v {
        PortWarningsMessages(Words(k.arguments), k.line, MissingFromError);
      }
    }
  }

  lemma {:induction false} PortWarningsMessages(ports: seq<string>, lineNum: nat, e: ParseError)
    requires e in PortWarnings(ports, lineNum)
    ensures e.severity == Warning
  {
    var init := ports[..|ports| - 1];
    if e in PortWarnings(init, lineNum) {
      PortWarningsMessages(init, lineNum, e);
    }
  }

  // ---------------------------------------------------------------------
  // Properties of `parse`

  /** The errors of a parse are exactly those of its instructions, plus the
      missing-FROM error when there are instructions but no FROM. */
  lemma ErrorsExactly(content: string, e: ParseError)
    ensures e in Parsed(content).errors <==>
      (exists i :: 0 <= i < |Parsed(content).instructions| && e in InstructionErrors(Parsed(content).instructions[i]))
      || (e == MissingFromError && LacksFrom(Parsed(content).instructions))
  {
    var lines := Lines(content);
    WalkAccounted(lines);
    var p := Walk(lines);
    if e in p.errors {
      ErrorsOfFrom(p.instructions, e);
    }
    if exists i :: 0 <= i < |p.instructions| && e in InstructionErrors(p.instructions[i]) {
      var i :| 0 <= i < |p.instructions| && e in InstructionErrors(p.instructions[i]);
      ErrorsOfHas(p.instructions, i, e);
    }
  }

  /** The missing-FROM error is raised exactly when the file has
      instructions (comments included) and none of them is a FROM. */
  lemma MissingFromExactly(content: string)
    ensures MissingFromError in Parsed(content).errors <==> LacksFrom(Parsed(content).instructions)
  {
    ErrorsExactly(content, MissingFromError);
    forall k | k in Parsed(content).instructions
      ensures MissingFromError !in InstructionErrors(k)
    {
      NotMissingFrom(k);
    }
  }

  /** Every instruction with an unknown keyword comes with a warning at its
      line naming the keyword. */
  lemma UnknownWarned(content: string, i: nat)
    requires i < |Parsed(content).instructions|
    ensures Parsed(content).instructions[i].kind == Unknown ==>
      var k := Parsed(content).instructions[i];
      (forall n :: Named(n) ==> Name(n) != k.keyword) && UnknownWarning(k.keyword, k.line) in Parsed(content).errors
  {
    var k := Parsed(content).instructions[i];
    if k.kind == Unknown {
      InstructionKindOf(content, i);
      UnknownExactly(k.keyword);
      ErrorsExactly(content, UnknownWarning(k.keyword, k.line));
    }
  }

  /** A recorded instruction that is not a comment carries the kind its
      keyword selects. */
  lemma InstructionKindOf(content: string, i: nat)
    requires i < |Parsed(content).instructions|
    ensures Parsed(content).instructions[i].kind != Comment ==>
      Parsed(content).instructions[i].kind == KindOf(Parsed(content).instructions[i].keyword)
  {
    WalkAccounted(Lines(content));
  }

  /** COPY and ADD with fewer than two operands are errors at their line. */
  lemma CopyAddNeedTwo(content: string, i: nat)
    requires i < |Parsed(content).instructions|
    ensures var k := Parsed(content).instructions[i];
      (k.kind == Copy || k.kind == Add) && |Filter(Words(k.arguments), IsOperand)| < 2 ==>
      ParseError(k.line, if k.kind == Copy then CopyMessage else AddMessage, Error) in Parsed(content).errors
  {
    var k := Parsed(content).instructions[i];
    var e := ParseError(k.line, if k.kind == Copy then CopyMessage else AddMessage, Error);
    if (k.kind == Copy || k.kind == Add) && |Filter(Words(k.arguments), IsOperand)| < 2 {
      assert e in InstructionErrors(k);
      ErrorsExactly(content, e);
    }
  }

  /** An empty WORKDIR is an error; one that starts with neither '/' nor
      '$' is a warning. */
  lemma WorkdirChecked(content: string, i: nat)
    requires i < |Parsed(content).instructions|
    ensures var k := Parsed(content).instructions[i];
      k.kind == Workdir ==>
        (k.arguments == "" ==> ParseError(k.line, WorkdirEmptyMessage, Error) in Parsed(content).errors)
        && (k.arguments != "" && !IsPrefix("/", k.arguments) && !IsPrefix("$", k.arguments) ==>
              ParseError(k.line, WorkdirRelativeMessage, Warning) in Parsed(content).errors)
  {
    var k := Parsed(content).instructions[i];
    if k.kind == Workdir {
      if k.arguments == "" {
        assert ParseError(k.line, WorkdirEmptyMessage, Error) in InstructionErrors(k);
        ErrorsExactly(content, ParseError(k.line, WorkdirEmptyMessage, Error));
      } else if !IsPrefix("/", k.arguments) && !IsPrefix("$", k.arguments) {
        assert ParseError(k.line, WorkdirRelativeMessage, Warning) in InstructionErrors(k);
        ErrorsExactly(content, ParseError(k.line, WorkdirRelativeMessage, Warning));
      }
    }
  }

  /** A parse records no more instructions than the content has lines, and
      every one at a line of the content. */
  lemma InstructionsWithinLines(content: string)
    ensures |Parsed(content).instructions| <= |Lines(content)|
    ensures forall k :: k in Parsed(content).instructions ==> k.line < |Lines(content)|
  {
    WalkAccounted(Lines(content));
  }

  /** Parsing twice into the same parser gives what parsing once gives. */
  method ParseTwice(parser: RunefileParser, first: string, second: string)
    modifies parser
    ensures parser.instructions == Parsed(second).instructions
    ensures parser.errors == Parsed(second).errors
  {
    parser.Parse(first);
    parser.Parse(second);
  }
}
