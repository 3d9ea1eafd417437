/** The Runefile syntax checker behind the language server
    (`src/lsp/syntax.rs`): keyword recognition, the line-by-line parse with
    its continuation buffer, the ARG/ENV/LABEL/stage metadata gathered along
    the way and the whole-file checks that follow. */
module LspSyntax {
  import opened Common

  datatype InstructionKind =
    | From | Run | Cmd | Label | Expose | Env | Add | Copy | Entrypoint | Volume
    | User | Workdir | Arg | Onbuild | Stopsignal | Healthcheck | Shell | Maintainer
    | Comment | Unknown(text: string)

  /** The kinds a keyword names: all but comments and unknown words. */
  predicate IsKeyword(k: InstructionKind)
  {
    !k.Comment? && !k.Unknown?
  }

  /** The upper-case keyword of a kind. */
  function Keyword(k: InstructionKind): string
    requires IsKeyword(k)
  {
    match k
    case From => "FROM"
    case Run => "RUN"
    case Cmd => "CMD"
    case Label => "LABEL"
    case Expose => "EXPOSE"
    case Env => "ENV"
    case Add => "ADD"
    case Copy => "COPY"
    case Entrypoint => "ENTRYPOINT"
    case Volume => "VOLUME"
    case User => "USER"
    case Workdir => "WORKDIR"
    case Arg => "ARG"
    case Onbuild => "ONBUILD"
    case Stopsignal => "STOPSIGNAL"
    case Healthcheck => "HEALTHCHECK"
    case Shell => "SHELL"
    case Maintainer => "MAINTAINER"
  }

  /** `InstructionKind::from_str`: the word is upper-cased before it is
      compared, and a word that is no keyword keeps its original spelling. */
  function FromStr(s: string): (k: InstructionKind)
    ensures !k.Comment?
    ensures !k.Unknown? ==> Keyword(k) == ToUpper(s)
    ensures k.Unknown? ==> k.text == s && forall kind :: IsKeyword(kind) ==> Keyword(kind) != ToUpper(s)
  {
    var u := ToUpper(s);
    if u == "FROM" then From
    else if u == "RUN" then Run
    else if u == "CMD" then Cmd
    else if u == "LABEL" then Label
    else if u == "EXPOSE" then Expose
    else if u == "ENV" then Env
    else if u == "ADD" then Add
    else if u == "COPY" then Copy
    else if u == "ENTRYPOINT" then Entrypoint
    else if u == "VOLUME" then Volume
    else if u == "USER" then User
    else if u == "WORKDIR" then Workdir
    else if u == "ARG" then Arg
    else if u == "ONBUILD" then Onbuild
    else if u == "STOPSIGNAL" then Stopsignal
    else if u == "HEALTHCHECK" then Healthcheck
    else if u == "SHELL" then Shell
    else if u == "MAINTAINER" then Maintainer
    else Unknown(s)
  }

  /** Recognition ignores case: words that agree once upper-cased are the
      same keyword, or both unknown. */
  lemma FromStrIgnoresCase(a: string, b: string)
    requires ToUpper(a) == ToUpper(b)
    ensures FromStr(a).Unknown? <==> FromStr(b).Unknown?
    ensures !FromStr(a).Unknown? ==> FromStr(a) == FromStr(b)
  {
  }

  /** An instruction as the language server keeps it: its kind, the text it
      came from, its arguments, its (0-based) line and the column of its
      keyword. */
  datatype Instruction = Instruction(kind: InstructionKind, raw: string, arguments: string, line: nat, column: nat)

  datatype ErrorSeverity = Error | Warning | Info | Hint

  datatype ParseError = ParseError(message: string, line: nat, column: nat, severity: ErrorSeverity)

  /** Everything `RunefileParser` holds. */
  datatype ParserState = ParserState(
    instructions: seq<Instruction>,
    args: map<string, Option<string>>,
    envs: map<string, string>,
    labels: map<string, string>,
    stages: seq<string>,
    errors: seq<ParseError>)

  const EmptyState := ParserState([], map[], map[], map[], [], [])

  // ----- metadata -----

  /** `parse_arg`: `NAME=default` or a bare `NAME`, both trimmed. */
  function ArgEntry(arguments: string): (r: (string, Option<string>))
    ensures r.1.Some? <==> '=' in arguments
  {
    var (name, dflt) := SplitOnce(arguments, '=');
    if dflt.Some? then (Trim(name), Some(Trim(dflt.value))) else (Trim(arguments), None)
  }

  /** The key of a `key=value` word, if it has a '='. */
  function PairKey(word: string): Option<string>
  {
    var (key, value) := SplitOnce(word, '=');
    if value.Some? then Some(key) else None
  }

  /** The value of a `key=value` word with its surrounding '"' stripped. */
  function PairValue(word: string): string
  {
    var (key, value) := SplitOnce(word, '=');
    if value.Some? then TrimMatches(value.value, '"') else ""
  }

  /** The `key=value` words of ENV and LABEL recorded in order; a word
      without '=' is ignored. */
  function InsertPairs(m: map<string, string>, words: seq<string>): map<string, string>
  {
    if words == [] then m
    else
      var init := InsertPairs(m, words[..|words| - 1]);
      var w := words[|words| - 1];
      if PairKey(w).Some? then init[PairKey(w).value := PairValue(w)] else init
  }

  /** A key is recorded when it was there before or some word gives it. */
  lemma {:induction false} InsertPairsKeys(m: map<string, string>, words: seq<string>, k: string)
    ensures k in InsertPairs(m, words) <==> k in m || exists i :: 0 <= i < |words| && PairKey(words[i]) == Some(k)
  {
    if words != [] {
      InsertPairsKeys(m, words[..|words| - 1], k);
      GivesKeySplit(words, words[..|words| - 1], k);
    }
  }

  /** Some word gives `k` exactly when an earlier word or the last one does. */
  lemma GivesKeySplit(words: seq<string>, init: seq<string>, k: string)
    requires words != [] && init == words[..|words| - 1]
    ensures (exists i :: 0 <= i < |words| && PairKey(words[i]) == Some(k))
      <==> ((exists i :: 0 <= i < |init| && PairKey(init[i]) == Some(k)) || PairKey(words[|words| - 1]) == Some(k))
  {
    if i :| 0 <= i < |words| && PairKey(words[i]) == Some(k) {
      if i < |init| {
        assert init[i] == words[i];
      }
    }
    if i :| 0 <= i < |init| && PairKey(init[i]) == Some(k) {
      assert words[i] == init[i];
    }
  }

  /** The last word that gives a key decides its value. */
  lemma {:induction false} InsertPairsLastWins(m: map<string, string>, words: seq<string>, j: nat, k: string)
    requires j < |words| && PairKey(words[j]) == Some(k)
    requires forall i :: j < i < |words| ==> PairKey(words[i]) != Some(k)
    ensures k in InsertPairs(m, words) && InsertPairs(m, words)[k] == PairValue(words[j])
  {
    var init := words[..|words| - 1];
    if j < |words| - 1 {
      assert init[j] == words[j];
      forall i | j < i < |init|
        ensures PairKey(init[i]) != Some(k)
      {
        assert init[i] == words[i];
      }
      InsertPairsLastWins(m, init, j, k);
    }
  }

  /** The recording loop of `parse_env` and `parse_label`. */
  method RecordPairs(m: map<string, string>, words: seq<string>) returns (r: map<string, string>)
    ensures r == InsertPairs(m, words)
  {
    r := m;
    var i := 0;
    while i < |words|
      invariant 0 <= i <= |words|
      invariant r == InsertPairs(m, words[..i])
    {
      assert words[..i + 1][..i] == words[..i];
      var key, value := SplitOnce(words[i], '=').0, SplitOnce(words[i], '=').1;
      if value.Some? {
        r := r[key := TrimMatches(value.value, '"')];
      }
      i := i + 1;
    }
    assert words[..i] == words;
  }

  /** `parse_env`: with a '=' anywhere, every `key=value` word; otherwise
      `KEY value`, split at the first whitespace. */
  function EnvUpdate(envs: map<string, string>, arguments: string): map<string, string>
  {
    if '=' in arguments then InsertPairs(envs, Words(arguments))
    else
      var (key, value) := SplitOnceSpace(arguments);
      if value.Some? then envs[key := value.value] else envs
  }

  /** The index of the first "AS" (in any case) with a word after it, from
      index `i` on. */
  function FirstAs(words: seq<string>, i: nat): (r: Option<nat>)
    requires i <= |words|
    ensures r.Some? ==> i <= r.value && r.value + 1 < |words| && ToUpper(words[r.value]) == "AS"
    ensures forall j :: i <= j && j + 1 < |words| && (r.None? || j < r.value) ==> ToUpper(words[j]) != "AS"
    decreases |words| - i
  {
    if i + 1 >= |words| then None
    else if ToUpper(words[i]) == "AS" then Some(i)
    else FirstAs(words, i + 1)
  }

  /** The stage name `FROM image AS name` declares, as a list of at most one. */
  function StageNames(arguments: string): (r: seq<string>)
    ensures |r| <= 1
  {
    var words := Words(arguments);
    match FirstAs(words, 0)
    case Some(i) => [words[i + 1]]
    case None => []
  }

  /** What each kind of instruction adds to the metadata. */
  function Metadata(st: ParserState, kind: InstructionKind, arguments: string): ParserState
  {
    match kind
    case Arg => st.(args := st.args[ArgEntry(arguments).0 := ArgEntry(arguments).1])
    case Env => st.(envs := EnvUpdate(st.envs, arguments))
    case Label => st.(labels := InsertPairs(st.labels, Words(arguments)))
    case From => st.(stages := st.stages + StageNames(arguments))
    case _ => st
  }

  // ----- one line -----

  /** The column of the keyword: its first occurrence in the line. */
  function KeywordColumn(line: string, keyword: string): nat
  {
    if keyword == "" then 0
    else match FindStr(line, keyword)
      case Some(c) => c
      case None => 0
  }

  /** `parse_line`: blank lines are skipped; a `# syntax=` or `# escape=`
      directive is skipped on line 0 or before any instruction; other '#'
      lines become comments; anything else is a keyword and its arguments. */
  function LineStep(st: ParserState, line: string, lineNum: nat): ParserState
  {
    var t := Trim(line);
    if t == "" then st
    else if t[0] == '#' then
      if (lineNum == 0 || st.instructions == []) && (IsPrefix("# syntax=", t) || IsPrefix("# escape=", t)) then st
      else st.(instructions := st.instructions + [Instruction(Comment, line, Trim(t[1..]), lineNum, 0)])
    else
      var keyword := SplitOnceSpace(t).0;
      var rest := SplitOnceSpace(t).1;
      var arguments := if rest.Some? then Trim(rest.value) else "";
      var kind := FromStr(keyword);
      var st1 := Metadata(st, kind, arguments);
      st1.(instructions := st1.instructions + [Instruction(kind, line, arguments, lineNum, KeywordColumn(line, keyword))])
  }

  /** A line never reports an error by itself, and adds at most one instruction. */
  lemma LineStepShape(st: ParserState, line: string, lineNum: nat)
    ensures LineStep(st, line, lineNum).errors == st.errors
    ensures var r := LineStep(st, line, lineNum).instructions;
      r == st.instructions || (|r| == |st.instructions| + 1 && r[..|st.instructions|] == st.instructions)
  {
    var t := Trim(line);
    if t != "" && t[0] != '#' {
      var rest := SplitOnceSpace(t).1;
      MetadataKeeps(st, FromStr(SplitOnceSpace(t).0), if rest.Some? then Trim(rest.value) else "");
    }
  }

  lemma MetadataKeeps(st: ParserState, kind: InstructionKind, arguments: string)
    ensures Metadata(st, kind, arguments).instructions == st.instructions
    ensures Metadata(st, kind, arguments).errors == st.errors
  {
  }

  // ----- continuation -----

  predicate Continues(t: string)
  {
    |t| > 0 && t[|t| - 1] == '\\'
  }

  /** A logical line: the joined text and the number of the physical line
      it is reported at. */
  datatype LogicalLine = LogicalLine(text: string, lineNum: nat)

  /** The logical lines from physical line `i` on, `pending` holding the
      continuation collected so far. A joined line is reported at the
      physical line that ends it. */
  function Logical(lines: seq<string>, i: nat, pending: string): seq<LogicalLine>
    requires i <= |lines|
    decreases |lines| - i
  {
    if i == |lines| then []
    else
      var t := Trim(lines[i]);
      if Continues(t) then Logical(lines, i + 1, pending + t[..|t| - 1] + " ")
      else [LogicalLine(pending + t, i)] + Logical(lines, i + 1, "")
  }

  /** The continuation buffer left at the end and the line it started at. */
  function Pending(lines: seq<string>, i: nat, pending: string, start: nat): (r: (string, nat))
    requires i <= |lines|
    decreases |lines| - i
  {
    if i == |lines| then (pending, start)
    else
      var t := Trim(lines[i]);
      if Continues(t) then Pending(lines, i + 1, pending + t[..|t| - 1] + " ", if pending == "" then i else start)
      else Pending(lines, i + 1, "", start)
  }

  /** A file whose last line ends in a backslash leaves the buffer open. */
  lemma {:induction false} PendingOpen(lines: seq<string>, i: nat, pending: string, start: nat)
    requires i < |lines| && Continues(Trim(lines[|lines| - 1]))
    ensures Pending(lines, i, pending, start).0 != ""
    decreases |lines| - i
  {
    var t := Trim(lines[i]);
    if Continues(t) {
      var next := pending + t[..|t| - 1] + " ";
      var nextStart := if pending == "" then i else start;
      assert Pending(lines, i, pending, start) == Pending(lines, i + 1, next, nextStart);
      if i + 1 < |lines| {
        PendingOpen(lines, i + 1, next, nextStart);
      } else {
        assert |next| > 0;
      }
    } else {
      assert Pending(lines, i, pending, start) == Pending(lines, i + 1, "", start);
      PendingOpen(lines, i + 1, "", start);
    }
  }

  /** Each logical line through the line parser, in order. */
  function RunLines(st: ParserState, ls: seq<LogicalLine>): ParserState
    decreases |ls|
  {
    if ls == [] then st else RunLines(LineStep(st, ls[0].text, ls[0].lineNum), ls[1..])
  }

  /** The line pass reports no error of its own. */
  lemma {:induction false} RunLinesErrors(st: ParserState, ls: seq<LogicalLine>)
    ensures RunLines(st, ls).errors == st.errors
    decreases |ls|
  {
    if ls != [] {
      LineStepShape(st, ls[0].text, ls[0].lineNum);
      RunLinesErrors(LineStep(st, ls[0].text, ls[0].lineNum), ls[1..]);
    }
  }

  // ----- whole-file checks -----

  // The longer messages are written as two literals joined, which keeps
  // their characters within the verifier's reach.
  const MissingFromMessage: string := "Runefile must have " + "at least one FROM instruction"
  const FirstNotFromMessage: string := "First instruction " + "must be FROM (except for ARG)"
  const MaintainerMessage: string := "MAINTAINER is deprecated, " + "use LABEL maintainer=\"...\" instead"
  const MultipleCmdMessage: string := "Multiple CMD instructions found; " + "only the last one will be used"
  const HealthcheckMessage := "HEALTHCHECK must specify CMD or NONE"
  const UnclosedMessage := "Unclosed line continuation"

  predicate HasKind(insts: seq<Instruction>, k: InstructionKind)
  {
    exists i :: 0 <= i < |insts| && insts[i].kind == k
  }

  function CountKind(insts: seq<Instruction>, k: InstructionKind): (n: nat)
    ensures n <= |insts|
    ensures n > 0 <==> HasKind(insts, k)
  {
    if insts == [] then 0
    else
      var init := insts[..|insts| - 1];
      var n := CountKind(init, k) + if insts[|insts| - 1].kind == k then 1 else 0;
      assert HasKind(init, k) ==> HasKind(insts, k) by {
        if HasKind(init, k) {
          var i :| 0 <= i < |init| && init[i].kind == k;
          assert insts[i] == init[i];
        }
      }
      assert HasKind(insts, k) ==> HasKind(init, k) || insts[|insts| - 1].kind == k by {
        if HasKind(insts, k) {
          var i :| 0 <= i < |insts| && insts[i].kind == k;
          if i < |init| {
            assert init[i] == insts[i];
          }
        }
      }
      n
  }

  /** The first instruction from `i` on that is neither ARG nor a comment. */
  function FirstNonArg(insts: seq<Instruction>, i: nat): (r: Option<nat>)
    requires i <= |insts|
    ensures r.Some? ==> i <= r.value < |insts| && !insts[r.value].kind.Arg? && !insts[r.value].kind.Comment?
    ensures forall j :: i <= j < |insts| && (r.None? || j < r.value) ==> insts[j].kind.Arg? || insts[j].kind.Comment?
    decreases |insts| - i
  {
    if i == |insts| then None
    else if !insts[i].kind.Arg? && !insts[i].kind.Comment? then Some(i)
    else FirstNonArg(insts, i + 1)
  }

  function MissingFromErrors(insts: seq<Instruction>): seq<ParseError>
  {
    if HasKind(insts, From) then [] else [ParseError(MissingFromMessage, 0, 0, Error)]
  }

  function FirstNotFromErrors(insts: seq<Instruction>): seq<ParseError>
  {
    match FirstNonArg(insts, 0)
    case Some(j) =>
      if insts[j].kind != From then [ParseError(FirstNotFromMessage, insts[j].line, insts[j].column, Error)] else []
    case None => []
  }

  function MaintainerWarning(inst: Instruction): ParseError
  {
    ParseError(MaintainerMessage, inst.line, inst.column, Warning)
  }

  /** One warning per MAINTAINER instruction, in order. */
  function MaintainerWarnings(insts: seq<Instruction>): (r: seq<ParseError>)
    ensures forall e :: e in r ==> e.message == MaintainerMessage && e.severity == Warning
  {
    if insts == [] then []
    else
      var last := insts[|insts| - 1];
      MaintainerWarnings(insts[..|insts| - 1]) + (if last.kind == Maintainer then [MaintainerWarning(last)] else [])
  }

  function CmdWarnings(insts: seq<Instruction>): seq<ParseError>
  {
    if CountKind(insts, Cmd) > 1 then [ParseError(MultipleCmdMessage, 0, 0, Warning)] else []
  }

  /** `check_healthcheck`: after upper-casing, NONE is accepted and so is
      any text containing CMD; anything else is an error at the
      instruction. */
  function CheckHealthcheck(inst: Instruction): (r: Option<ParseError>)
    ensures r.Some? ==> r.value == ParseError(HealthcheckMessage, inst.line, inst.column, Error)
    ensures Trim(ToUpper(inst.arguments)) == "NONE" ==> r.None?
    ensures Contains(ToUpper(inst.arguments), "CMD") ==> r.None?
    ensures r.None? ==> Trim(ToUpper(inst.arguments)) == "NONE" || Contains(ToUpper(inst.arguments), "CMD")
  {
    var args := ToUpper(inst.arguments);
    if Trim(args) == "NONE" then None
    else if !Contains(args, "CMD") then Some(ParseError(HealthcheckMessage, inst.line, inst.column, Error))
    else None
  }

  /** The healthcheck errors of the HEALTHCHECK instructions, in order. */
  function HealthcheckErrors(insts: seq<Instruction>): (r: seq<ParseError>)
    ensures forall e :: e in r ==> e.message == HealthcheckMessage && e.severity == Error
  {
    if insts == [] then []
    else
      var last := insts[|insts| - 1];
      var found := if last.kind == Healthcheck then CheckHealthcheck(last) else None;
      HealthcheckErrors(insts[..|insts| - 1]) + (if found.Some? then [found.value] else [])
  }

  /** Everything `validate` appends, in its order. */
  function ValidationErrors(insts: seq<Instruction>): seq<ParseError>
  {
    MissingFromErrors(insts) + FirstNotFromErrors(insts) + MaintainerWarnings(insts)
      + CmdWarnings(insts) + HealthcheckErrors(insts)
  }

  /** The missing-FROM error is reported exactly when there is no FROM. */
  lemma MissingFromReported(insts: seq<Instruction>)
    ensures ParseError(MissingFromMessage, 0, 0, Error) in ValidationErrors(insts) <==> !HasKind(insts, From)
  {
    var e := ParseError(MissingFromMessage, 0, 0, Error);
    if !HasKind(insts, From) {
      assert ValidationErrors(insts)[0] == e;
    } else {
      assert e !in FirstNotFromErrors(insts) && e !in CmdWarnings(insts);
      assert e !in MaintainerWarnings(insts) && e !in HealthcheckErrors(insts);
    }
  }

  /** The first instruction other than ARG and comments must be FROM: the
      error is reported exactly when it is not, at that instruction, and
      nowhere else. */
  lemma FirstNotFromReported(insts: seq<Instruction>)
    ensures forall e :: e in ValidationErrors(insts) && e.message == FirstNotFromMessage ==>
      FirstNonArg(insts, 0).Some? && insts[FirstNonArg(insts, 0).value].kind != From
      && e == ParseError(FirstNotFromMessage, insts[FirstNonArg(insts, 0).value].line, insts[FirstNonArg(insts, 0).value].column, Error)
    ensures FirstNonArg(insts, 0).Some? && insts[FirstNonArg(insts, 0).value].kind != From ==>
      var j := FirstNonArg(insts, 0).value;
      ParseError(FirstNotFromMessage, insts[j].line, insts[j].column, Error) in ValidationErrors(insts)
  {
    forall e | e in ValidationErrors(insts) && e.message == FirstNotFromMessage
      ensures FirstNonArg(insts, 0).Some? && insts[FirstNonArg(insts, 0).value].kind != From
      ensures e == ParseError(FirstNotFromMessage, insts[FirstNonArg(insts, 0).value].line, insts[FirstNonArg(insts, 0).value].column, Error)
    {
      FirstNotFromOnly(insts, e);
      FirstNotFromShape(insts, e);
    }
    if FirstNonArg(insts, 0).Some? && insts[FirstNonArg(insts, 0).value].kind != From {
      FirstNotFromPresent(insts, FirstNonArg(insts, 0).value);
    }
  }

  /** The whole-file checks' messages are pairwise different. */
  lemma MessagesDistinct()
    ensures FirstNotFromMessage != MissingFromMessage && FirstNotFromMessage != MaintainerMessage
    ensures FirstNotFromMessage != MultipleCmdMessage && FirstNotFromMessage != HealthcheckMessage
    ensures MissingFromMessage != MaintainerMessage && MissingFromMessage != MultipleCmdMessage
    ensures MissingFromMessage != HealthcheckMessage
  {
    assert FirstNotFromMessage[0] == 'F' && MissingFromMessage[0] == 'R';
    assert MaintainerMessage[0] == 'M' && MultipleCmdMessage[0] == 'M' && HealthcheckMessage[0] == 'H';
  }

  /** The FROM-first error exists only when the first instruction that is
      neither ARG nor a comment is not FROM. */
  lemma FirstNotFromShape(insts: seq<Instruction>, e: ParseError)
    requires e in FirstNotFromErrors(insts)
    ensures FirstNonArg(insts, 0).Some? && insts[FirstNonArg(insts, 0).value].kind != From
    ensures e == ParseError(FirstNotFromMessage, insts[FirstNonArg(insts, 0).value].line, insts[FirstNonArg(insts, 0).value].column, Error)
  {
  }

  /** When the first instruction that counts is not FROM, its error is
      among those `validate` appends. */
  lemma FirstNotFromPresent(insts: seq<Instruction>, j: nat)
    requires j < |insts| && insts[j].kind != From && FirstNonArg(insts, 0) == Some(j)
    ensures ParseError(FirstNotFromMessage, insts[j].line, insts[j].column, Error) in ValidationErrors(insts)
  {
    ValidationMembers(insts, ParseError(FirstNotFromMessage, insts[j].line, insts[j].column, Error));
  }

  /** Only the FROM-first check produces its message. */
  lemma FirstNotFromOnly(insts: seq<Instruction>, e: ParseError)
    requires e in ValidationErrors(insts) && e.message == FirstNotFromMessage
    ensures e in FirstNotFromErrors(insts)
  {
    ValidationMembers(insts, e);
    MessagesDistinct();
  }

  /** An error `validate` appends comes from exactly one of its checks. */
  lemma ValidationMembers(insts: seq<Instruction>, e: ParseError)
    ensures e in ValidationErrors(insts) <==>
      e in MissingFromErrors(insts) || e in FirstNotFromErrors(insts) || e in MaintainerWarnings(insts)
      || e in CmdWarnings(insts) || e in HealthcheckErrors(insts)
  {
  }

  /** Every MAINTAINER instruction draws a warning at its position, and
      there is one warning per such instruction. */
  lemma {:induction false} MaintainerWarned(insts: seq<Instruction>)
    ensures |MaintainerWarnings(insts)| == CountKind(insts, Maintainer)
    ensures forall i :: 0 <= i < |insts| && insts[i].kind == Maintainer ==> MaintainerWarning(insts[i]) in MaintainerWarnings(insts)
  {
    if insts != [] {
      var init := insts[..|insts| - 1];
      MaintainerWarned(init);
      forall i | 0 <= i < |init|
        ensures insts[i] == init[i]
      {
      }
    }
  }

  /** More than one CMD draws the warning, and only then. */
  lemma MultipleCmdReported(insts: seq<Instruction>)
    ensures ParseError(MultipleCmdMessage, 0, 0, Warning) in ValidationErrors(insts) <==> CountKind(insts, Cmd) > 1
  {
    var e := ParseError(MultipleCmdMessage, 0, 0, Warning);
    assert e !in MissingFromErrors(insts) && e !in FirstNotFromErrors(insts);
    assert e !in MaintainerWarnings(insts) && e !in HealthcheckErrors(insts);
  }

  /** The healthcheck errors are those of the HEALTHCHECK instructions that
      give neither CMD nor NONE. */
  lemma {:induction false} HealthcheckReported(insts: seq<Instruction>, i: nat)
    requires i < |insts| && insts[i].kind == Healthcheck
    ensures CheckHealthcheck(insts[i]).Some? ==> CheckHealthcheck(insts[i]).value in HealthcheckErrors(insts)
  {
    var init := insts[..|insts| - 1];
    if i < |init| {
      assert init[i] == insts[i];
      HealthcheckReported(init, i);
    }
  }

  /** The MAINTAINER loop of `validate`. */
  method CollectMaintainerWarnings(insts: seq<Instruction>) returns (found: seq<ParseError>)
    ensures found == MaintainerWarnings(insts)
  {
    found := [];
    var i := 0;
    while i < |insts|
      invariant 0 <= i <= |insts|
      invariant found == MaintainerWarnings(insts[..i])
    {
      assert insts[..i + 1][..i] == insts[..i];
      if insts[i].kind == Maintainer {
        found := found + [MaintainerWarning(insts[i])];
      }
      i := i + 1;
    }
    assert insts[..i] == insts;
  }

  /** The HEALTHCHECK pass of `validate`. */
  method CollectHealthcheckErrors(insts: seq<Instruction>) returns (found: seq<ParseError>)
    ensures found == HealthcheckErrors(insts)
  {
    found := [];
    var i := 0;
    while i < |insts|
      invariant 0 <= i <= |insts|
      invariant found == HealthcheckErrors(insts[..i])
    {
      assert insts[..i + 1][..i] == insts[..i];
      if insts[i].kind == Healthcheck {
        var issue := CheckHealthcheck(insts[i]);
        if issue.Some? {
          found := found + [issue.value];
        }
      }
      i := i + 1;
    }
    assert insts[..i] == insts;
  }

  // ----- the parser -----

  /** The state after `parse`: every earlier state is discarded, the
      logical lines go through the line parser, an open continuation is
      reported and the whole-file checks run last. */
  function Parsed(content: string): ParserState
  {
    var lines := Lines(content);
    var open := Pending(lines, 0, "", 0);
    Finished(RunLines(EmptyState, Logical(lines, 0, "")), open.0, open.1)
  }

  /** The end of `parse`: an open continuation buffer is reported at the
      line it started at, then the whole-file checks run. */
  function Finished(st: ParserState, pending: string, start: nat): ParserState
  {
    var st1 := if pending != "" then st.(errors := st.errors + [ParseError(UnclosedMessage, start, 0, Error)]) else st;
    st1.(errors := st1.errors + ValidationErrors(st1.instructions))
  }

  /** The errors after a parse are the open-continuation error, if any,
      followed by the whole-file checks; nothing else is reported. */
  lemma ParsedErrors(content: string)
    ensures var lines := Lines(content);
      var open := Pending(lines, 0, "", 0);
      Parsed(content).errors
        == (if open.0 != "" then [ParseError(UnclosedMessage, open.1, 0, Error)] else [])
           + ValidationErrors(Parsed(content).instructions)
  {
    var lines := Lines(content);
    var open := Pending(lines, 0, "", 0);
    var st := RunLines(EmptyState, Logical(lines, 0, ""));
    RunLinesErrors(EmptyState, Logical(lines, 0, ""));
    FinishedErrors(st, open.0, open.1);
  }

  /** The end of `parse` adds the open-continuation error, if any, then
      the whole-file checks, and leaves the instructions alone. */
  lemma FinishedErrors(st: ParserState, pending: string, start: nat)
    ensures Finished(st, pending, start).instructions == st.instructions
    ensures Finished(st, pending, start).errors
      == st.errors + (if pending != "" then [ParseError(UnclosedMessage, start, 0, Error)] else [])
         + ValidationErrors(st.instructions)
  {
  }

  /** A file whose last line ends in a backslash draws the open-continuation error. */
  lemma UnclosedReported(content: string)
    requires |Lines(content)| > 0 && Continues(Trim(Lines(content)[|Lines(content)| - 1]))
    ensures exists e :: e in Parsed(content).errors && e.message == UnclosedMessage && e.severity == Error
  {
    var lines := Lines(content);
    PendingOpen(lines, 0, "", 0);
    ParsedErrors(content);
    var open := Pending(lines, 0, "", 0);
    assert Parsed(content).errors[0] == ParseError(UnclosedMessage, open.1, 0, Error);
  }

  /** A line ending in a backslash joins the buffer and, when the buffer
      was empty, marks where the continuation started. */
  lemma LogicalCont(lines: seq<string>, i: nat, pending: string, start: nat)
    requires i < |lines| && Continues(Trim(lines[i]))
    ensures var t := Trim(lines[i]);
      Logical(lines, i, pending) == Logical(lines, i + 1, pending + t[..|t| - 1] + " ") &&
      Pending(lines, i, pending, start) == Pending(lines, i + 1, pending + t[..|t| - 1] + " ", if pending == "" then i else start)
  {
  }

  /** Any other line ends the logical line, which is parsed at once. */
  lemma LogicalEmit(st: ParserState, lines: seq<string>, i: nat, pending: string, start: nat)
    requires i < |lines| && !Continues(Trim(lines[i]))
    ensures RunLines(st, Logical(lines, i, pending))
      == RunLines(LineStep(st, pending + Trim(lines[i]), i), Logical(lines, i + 1, ""))
    ensures Pending(lines, i, pending, start) == Pending(lines, i + 1, "", start)
  {
    var x := LogicalLine(pending + Trim(lines[i]), i);
    var rest := Logical(lines, i + 1, "");
    assert Logical(lines, i, pending) == [x] + rest;
    assert ([x] + rest)[0] == x && ([x] + rest)[1..] == rest;
  }

  /** At the end of the lines nothing is left to parse. */
  lemma LogicalDone(st: ParserState, lines: seq<string>, pending: string, start: nat)
    ensures RunLines(st, Logical(lines, |lines|, pending)) == st
    ensures Pending(lines, |lines|, pending, start) == (pending, start)
  {
  }

  /** `RunefileParser`: the parsed instructions, the ARG/ENV/LABEL
      metadata, the stage names and the diagnostics of the last parse. */
  class RunefileParser {
    var instructions: seq<Instruction>
    var args: map<string, Option<string>>
    var envs: map<string, string>
    var labels: map<string, string>
    var stages: seq<string>
    var errors: seq<ParseError>

    function State(): ParserState
      reads this
    {
      ParserState(instructions, args, envs, labels, stages, errors)
    }

    /** `RunefileParser::new`. */
    constructor ()
      ensures State() == EmptyState
    {
      instructions := [];
      args := map[];
      envs := map[];
      labels := map[];
      stages := [];
      errors := [];
    }

    /** `parse`: clears the parser, then one step per physical line. */
    method Parse(content: string)
      modifies this
      ensures State() == Parsed(content)
    {
      Reset();
      var lines := Lines(content);
      var buffer := "";
      var start := 0;
      var i := 0;
      ghost var target := RunLines(EmptyState, Logical(lines, 0, ""));
      ghost var open := Pending(lines, 0, "", 0);
      while i < |lines|
        invariant 0 <= i <= |lines|
        invariant RunLines(State(), Logical(lines, i, buffer)) == target
        invariant Pending(lines, i, buffer, start) == open
        decreases |lines| - i
      {
        buffer, start := FeedLine(lines, i, buffer, start);
        i := i + 1;
      }
      LogicalDone(State(), lines, buffer, start);
      Finish(buffer, start);
    }

    /** One pass of `parse`'s loop: a line ending in a backslash joins the
        continuation buffer, any other line completes a logical line, which
        is parsed at once. */
    method FeedLine(lines: seq<string>, i: nat, buffer: string, start: nat) returns (buffer': string, start': nat)
      requires i < |lines|
      modifies this
      ensures RunLines(State(), Logical(lines, i + 1, buffer')) == RunLines(old(State()), Logical(lines, i, buffer))
      ensures Pending(lines, i + 1, buffer', start') == Pending(lines, i, buffer, start)
    {
      var trimmed := Trim(lines[i]);
      if Continues(trimmed) {
        LogicalCont(lines, i, buffer, start);
        start' := if buffer == "" then i else start;
        buffer' := buffer + trimmed[..|trimmed| - 1] + " ";
        return;
      }
      var fullLine := if buffer != "" then buffer + trimmed else trimmed;
      assert fullLine == buffer + trimmed;
      LogicalEmit(State(), lines, i, buffer, start);
      ParseLine(fullLine, i);
      buffer', start' := "", start;
    }

    /** The fields `parse` clears before it starts. */
    method Reset()
      modifies this
      ensures State() == EmptyState
    {
      instructions := [];
      errors := [];
      args := map[];
      envs := map[];
      labels := map[];
      stages := [];
    }

    /** The end of `parse`, after the last line. */
    method Finish(buffer: string, start: nat)
      modifies this
      ensures State() == Finished(old(State()), buffer, start)
    {
      if buffer != "" {
        errors := errors + [ParseError(UnclosedMessage, start, 0, Error)];
      }
      Validate();
    }

    /** `parse_line`. */
    method ParseLine(line: string, lineNum: nat)
      modifies this
      ensures State() == LineStep(old(State()), line, lineNum)
    {
      var trimmed := Trim(line);
      if trimmed == "" {
        return;
      }
      if trimmed[0] == '#' {
        if lineNum == 0 || instructions == [] {
          if IsPrefix("# syntax=", trimmed) {
            return;
          }
          if IsPrefix("# escape=", trimmed) {
            return;
          }
        }
        instructions := instructions + [Instruction(Comment, line, Trim(trimmed[1..]), lineNum, 0)];
        return;
      }
      var keyword := SplitOnceSpace(trimmed).0;
      var rest := SplitOnceSpace(trimmed).1;
      var arguments := if rest.Some? then Trim(rest.value) else "";
      var kind := FromStr(keyword);
      var column := KeywordColumn(line, keyword);
      if kind == Arg {
        ParseArg(arguments);
      } else if kind == Env {
        ParseEnv(arguments);
      } else if kind == Label {
        ParseLabel(arguments);
      } else if kind == From {
        ParseFrom(arguments);
      }
      instructions := instructions + [Instruction(kind, line, arguments, lineNum, column)];
    }

    /** `parse_arg`. */
    method ParseArg(arguments: string)
      modifies this
      ensures State() == Metadata(old(State()), Arg, arguments)
    {
      var (name, dflt) := SplitOnce(arguments, '=');
      if dflt.Some? {
        args := args[Trim(name) := Some(Trim(dflt.value))];
      } else {
        args := args[Trim(arguments) := None];
      }
    }

    /** `parse_env`. */
    method ParseEnv(arguments: string)
      modifies this
      ensures State() == Metadata(old(State()), Env, arguments)
    {
      if '=' in arguments {
        envs := RecordPairs(envs, Words(arguments));
      } else {
        var (key, value) := SplitOnceSpace(arguments);
        if value.Some? {
          envs := envs[key := value.value];
        }
      }
    }

    /** `parse_label`. */
    method ParseLabel(arguments: string)
      modifies this
      ensures State() == Metadata(old(State()), Label, arguments)
    {
      labels := RecordPairs(labels, Words(arguments));
    }

    /** `parse_from`: scans the words for the first "AS" with a word after it. */
    method ParseFrom(arguments: string)
      modifies this
      ensures State() == Metadata(old(State()), From, arguments)
    {
      var parts := Words(arguments);
      var i := 0;
      while i < |parts|
        invariant 0 <= i <= |parts|
        invariant FirstAs(parts, i) == FirstAs(parts, 0)
        invariant stages == old(stages)
      {
        if ToUpper(parts[i]) == "AS" && i + 1 < |parts| {
          stages := stages + [parts[i + 1]];
          return;
        }
        i := i + 1;
      }
    }

    /** `validate`: appends the whole-file diagnostics. */
    method Validate()
      modifies this
      ensures State() == old(State()).(errors := old(errors) + ValidationErrors(old(instructions)))
    {
      var warnings := CollectMaintainerWarnings(instructions);
      var checks := CollectHealthcheckErrors(instructions);
      errors := errors + (MissingFromErrors(instructions) + FirstNotFromErrors(instructions) + warnings
        + CmdWarnings(instructions) + checks);
    }
  }
}
