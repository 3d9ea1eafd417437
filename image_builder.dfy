/** The Runefile/Dockerfile parser of `src/image/builder.rs`: physical lines
    are trimmed, blank and '#' lines skipped and backslash continuations
    joined into logical lines; each logical line is parsed into an
    instruction; FROM instructions open build stages and every other
    instruction joins the current stage.

    JSON decoding of an argument (`["a", "b"]`) is done by a library the
    model cannot see; it is the parameter `json`, which yields the decoded
    string array or `None` when the text is not one. */
module ImageBuilder {
  import opened Common

  type Json = string -> Option<seq<string>>

  datatype BuildInstruction =
    | From(image: string, tag: Option<string>, alias: Option<string>)
    | Run(script: string, shell: bool)
    | Copy(src: seq<string>, dest: string, from: Option<string>, chown: Option<string>)
    | Add(src: seq<string>, dest: string, chown: Option<string>)
    | Cmd(command: seq<string>, shell: bool)
    | Entrypoint(command: seq<string>, shell: bool)
    | Env(key: string, value: string)
    | Arg(name: string, default: Option<string>)
    | Workdir(path: string)
    | User(user: string, group: Option<string>)
    | Expose(port: nat, protocol: string)
    | Volume(paths: seq<string>)
    | Label(labels: map<string, string>)
    | Healthcheck(cmd: Option<string>, interval: Option<string>, timeout: Option<string>,
                  startPeriod: Option<string>, retries: Option<nat>)
    | Stopsignal(signal: string)
    | Shell(program: seq<string>)
    | Onbuild(instruction: BuildInstruction)

  datatype BuildStage = BuildStage(
    name: Option<string>,
    baseImage: string,
    baseTag: Option<string>,
    instructions: seq<BuildInstruction>)

  datatype ParsedBuildFile = ParsedBuildFile(stages: seq<BuildStage>)

  function ParseError(line: nat, msg: string): RuneError
  {
    DockerfileParse(line, msg)
  }

  // ---------------------------------------------------------------------
  // Instruction helpers

  /** `FROM image[:tag] [AS alias]`. */
  function ParseFrom(args: string, lineNum: nat): (r: Result<BuildInstruction>)
    ensures Words(args) == [] <==> r.Err?
    ensures r.Err? ==> r.error == ParseError(lineNum, "FROM requires an image")
    ensures r.Ok? ==>
      && r.value.From?
      && ':' !in r.value.image
      && Words(args)[0] == (if r.value.tag.Some? then r.value.image + ":" + r.value.tag.value else r.value.image)
      && (r.value.alias.Some? <==> |Words(args)| >= 3 && ToUpper(Words(args)[1]) == "AS")
      && (r.value.alias.Some? ==> r.value.alias.value == Words(args)[2])
  {
    var parts := Words(args);
    if parts == [] then Err(ParseError(lineNum, "FROM requires an image"))
    else
      var (image, tag) := SplitOnce(parts[0], ':');
      var alias := if |parts| >= 3 && ToUpper(parts[1]) == "AS" then Some(parts[2]) else None;
      Ok(From(image, tag, alias))
  }

  /** RUN keeps its text; it is the exec form when it starts with '['. */
  function ParseRun(args: string): (r: BuildInstruction)
    ensures r.Run? && r.script == args
    ensures r.shell <==> !(|args| > 0 && args[0] == '[')
  {
    Run(args, !(|args| > 0 && args[0] == '['))
  }

  /** Text up to the first space (or all of it), and what follows trimmed. */
  function FlagValue(rest: string): (r: (string, string))
    ensures |r.1| <= |rest|
    ensures ' ' !in r.0
    ensures ' ' !in rest ==> r == (rest, "")
    ensures ' ' in rest ==> |r.0| < |rest| && rest[..|r.0|] == r.0 && rest[|r.0|] == ' ' && r.1 == Trim(rest[|r.0|..])
  {
    match FindChar(rest, ' ')
    case None => (rest, "")
    case Some(e) => (rest[..e], Trim(rest[e..]))
  }

  /** The leading `--from=` / `--chown=` flags of COPY, consumed left to right
      until something else is found; a later flag overrides an earlier one. */
  function CopyFlags(remaining: string, from: Option<string>, chown: Option<string>): (r: (string, Option<string>, Option<string>))
    ensures |r.0| <= |remaining|
    ensures !IsPrefix("--from=", r.0) && !IsPrefix("--chown=", r.0)
    ensures !IsPrefix("--from=", remaining) && !IsPrefix("--chown=", remaining) ==> r == (remaining, from, chown)
    ensures IsPrefix("--from=", remaining) || from.Some? ==> r.1.Some?
    ensures IsPrefix("--chown=", remaining) || chown.Some? ==> r.2.Some?
    ensures r.1 != from ==> r.1.Some? && ' ' !in r.1.value
    ensures r.2 != chown ==> r.2.Some? && ' ' !in r.2.value
    ensures r.1 != from || r.2 != chown ==> IsPrefix("--from=", remaining) || IsPrefix("--chown=", remaining)
    decreases |remaining|
  {
    if IsPrefix("--from=", remaining) then
      var (v, rest) := FlagValue(remaining[7..]);
      assert !IsPrefix("--chown=", remaining) by { assert remaining[2] == "--from="[2]; }
      CopyFlags(rest, Some(v), chown)
    else if IsPrefix("--chown=", remaining) then
      var (v, rest) := FlagValue(remaining[8..]);
      CopyFlags(rest, from, Some(v))
    else (remaining, from, chown)
  }

  /** Sources and destination: the last word is the destination and the
      others the sources; with fewer than two words both are empty. */
  function SrcDest(words: seq<string>): (r: (seq<string>, string))
    ensures |words| < 2 ==> r == ([], "")
    ensures |words| >= 2 ==> r.0 + [r.1] == words
  {
    if |words| < 2 then ([], "") else (words[..|words| - 1], words[|words| - 1])
  }

  function CopyArgs(args: string): (r: BuildInstruction)
    ensures r.Copy?
    ensures |r.src| == 0 <==> r.dest == ""
    ensures IsPrefix("--from=", args) ==> r.from.Some? && ' ' !in r.from.value
    ensures IsPrefix("--chown=", args) ==> r.chown.Some? && ' ' !in r.chown.value
    ensures r.from.Some? || r.chown.Some? ==> IsPrefix("--from=", args) || IsPrefix("--chown=", args)
    ensures !IsPrefix("--from=", args) && !IsPrefix("--chown=", args) ==>
      r.from.None? && r.chown.None? && r.src + [r.dest] == (if |Words(args)| < 2 then [""] else Words(args))
  {
    var (remaining, from, chown) := CopyFlags(args, None, None);
    var (src, dest) := SrcDest(Words(remaining));
    Copy(src, dest, from, chown)
  }

  /** COPY as the source writes it: a loop over the flags. */
  method ParseCopy(args: string) returns (r: BuildInstruction)
    ensures r == CopyArgs(args)
    ensures r.Copy? && (|r.src| == 0 <==> r.dest == "")
  {
    var from: Option<string> := None;
    var chown: Option<string> := None;
    var remaining := args;
    while IsPrefix("--", remaining)
      invariant CopyFlags(remaining, from, chown) == CopyFlags(args, None, None)
      decreases |remaining|
    {
      if IsPrefix("--from=", remaining) {
        var (v, rest) := FlagValue(remaining[7..]);
        from := Some(v);
        remaining := rest;
      } else if IsPrefix("--chown=", remaining) {
        var (v, rest) := FlagValue(remaining[8..]);
        chown := Some(v);
        remaining := rest;
      } else {
        break;
      }
    }
    assert !IsPrefix("--from=", remaining) && !IsPrefix("--chown=", remaining) by {
      assert IsPrefix("--", "--from=") && IsPrefix("--", "--chown=");
      if IsPrefix("--from=", remaining) { PrefixTrans("--", "--from=", remaining); }
      if IsPrefix("--chown=", remaining) { PrefixTrans("--", "--chown=", remaining); }
    }
    var parts := Words(remaining);
    if |parts| < 2 {
      return Copy([], "", from, chown);
    }
    r := Copy(parts[..|parts| - 1], parts[|parts| - 1], from, chown);
  }

  /** A COPY flag as written in a Runefile: `--from=<value>` or
      `--chown=<value>`. */
  datatype CopyFlag = FromFlag(value: string) | ChownFlag(value: string)

  function FlagText(f: CopyFlag): string
  {
    match f
    case FromFlag(v) => "--from=" + v
    case ChownFlag(v) => "--chown=" + v
  }

  /** Flags written out in order, each followed by one space. */
  function RenderFlags(fs: seq<CopyFlag>): string
  {
    if fs == [] then "" else FlagText(fs[0]) + " " + RenderFlags(fs[1..])
  }

  /** The value of the last `--from=` flag (`isFrom`) or the last `--chown=`
      flag among `fs`, `dflt` when there is none. */
  function LastFlag(fs: seq<CopyFlag>, isFrom: bool, dflt: Option<string>): Option<string>
    decreases |fs|
  {
    if fs == [] then dflt
    else if fs[|fs| - 1].FromFlag? == isFrom then Some(fs[|fs| - 1].value)
    else LastFlag(fs[..|fs| - 1], isFrom, dflt)
  }

  /** A first flag only matters when no later flag of its kind follows. */
  lemma {:induction false} LastFlagCons(f: CopyFlag, fs: seq<CopyFlag>, isFrom: bool, dflt: Option<string>)
    ensures LastFlag([f] + fs, isFrom, dflt) ==
            LastFlag(fs, isFrom, if f.FromFlag? == isFrom then Some(f.value) else dflt)
    decreases |fs|
  {
    var s := [f] + fs;
    if fs == [] {
      assert s[..|s| - 1] == [];
    } else {
      assert s[..|s| - 1] == [f] + fs[..|fs| - 1];
      assert s[|s| - 1] == fs[|fs| - 1];
      LastFlagCons(f, fs[..|fs| - 1], isFrom, dflt);
    }
  }

  /** A blank followed by text that has no white space at either end trims
      to that text. */
  lemma TrimBlank(t: string)
    requires |t| > 0 && !IsSpace(t[0]) && !IsSpace(t[|t| - 1])
    ensures Trim(" " + t) == t
  {
    assert (" " + t)[1..] == t;
    assert TrimStart(" " + t) == TrimStart(t);
    TrimUnchanged(t);
  }

  /** A value and a blank in front of text with no white space at either
      end: the flag value is read up to the blank, the rest is the text. */
  lemma FlagValueBlank(v: string, tail: string)
    requires ' ' !in v
    requires |tail| > 0 && !IsSpace(tail[0]) && !IsSpace(tail[|tail| - 1])
    ensures FlagValue(v + " " + tail) == (v, tail)
  {
    var after := v + " " + tail;
    assert after[..|v|] == v;
    assert after[|v|..] == " " + tail;
    FindCharAt(after, ' ', |v|);
    TrimBlank(tail);
  }

  /** One rendered flag in front of text with no white space at either end
      is consumed and sets its value. */
  lemma CopyFlagStep(f: CopyFlag, tail: string, from: Option<string>, chown: Option<string>)
    requires ' ' !in f.value
    requires |tail| > 0 && !IsSpace(tail[0]) && !IsSpace(tail[|tail| - 1])
    ensures f.FromFlag? ==> CopyFlags(FlagText(f) + " " + tail, from, chown) == CopyFlags(tail, Some(f.value), chown)
    ensures f.ChownFlag? ==> CopyFlags(FlagText(f) + " " + tail, from, chown) == CopyFlags(tail, from, Some(f.value))
  {
    FlagValueBlank(f.value, tail);
    match f
    case FromFlag(v) => FromStep(v, tail, from, chown);
    case ChownFlag(v) => ChownStep(v, tail, from, chown);
  }

  lemma FromStep(v: string, tail: string, from: Option<string>, chown: Option<string>)
    requires FlagValue(v + " " + tail) == (v, tail)
    ensures CopyFlags(FlagText(FromFlag(v)) + " " + tail, from, chown) == CopyFlags(tail, Some(v), chown)
  {
    var s := FlagText(FromFlag(v)) + " " + tail;
    assert s == "--from=" + (v + " " + tail);
    assert IsPrefix("--from=", s) && s[7..] == v + " " + tail;
  }

  lemma ChownStep(v: string, tail: string, from: Option<string>, chown: Option<string>)
    requires FlagValue(v + " " + tail) == (v, tail)
    ensures CopyFlags(FlagText(ChownFlag(v)) + " " + tail, from, chown) == CopyFlags(tail, from, Some(v))
  {
    var s := FlagText(ChownFlag(v)) + " " + tail;
    assert s == "--chown=" + (v + " " + tail);
    assert !IsPrefix("--from=", s) by { assert s[2] == 'c'; }
    assert IsPrefix("--chown=", s) && s[8..] == v + " " + tail;
  }

  /** Rendered flags followed by `rest` start with a dash, or are `rest`. */
  lemma RenderedEnds(fs: seq<CopyFlag>, rest: string)
    requires |rest| > 0 && !IsSpace(rest[0]) && !IsSpace(rest[|rest| - 1])
    ensures var t := RenderFlags(fs) + rest; |t| > 0 && !IsSpace(t[0]) && !IsSpace(t[|t| - 1])
  {
    var t := RenderFlags(fs) + rest;
    assert t[|t| - 1] == rest[|rest| - 1];
    if fs != [] {
      assert t[0] == FlagText(fs[0])[0] == '-';
    } else {
      assert t == rest;
    }
  }

  /** The flag loop of COPY reads every rendered flag back, the last flag of
      each kind winning, and stops at the text that follows the flags. */
  lemma {:induction false} CopyFlagsRendered(fs: seq<CopyFlag>, rest: string, from: Option<string>, chown: Option<string>)
    requires forall k :: 0 <= k < |fs| ==> ' ' !in fs[k].value
    requires |rest| > 0 && !IsSpace(rest[0]) && !IsSpace(rest[|rest| - 1])
    requires !IsPrefix("--from=", rest) && !IsPrefix("--chown=", rest)
    ensures CopyFlags(RenderFlags(fs) + rest, from, chown) == (rest, LastFlag(fs, true, from), LastFlag(fs, false, chown))
    decreases |fs|
  {
    if fs == [] {
      assert RenderFlags(fs) + rest == rest;
    } else {
      var f := fs[0];
      var tail := RenderFlags(fs[1..]) + rest;
      assert RenderFlags(fs) + rest == FlagText(f) + " " + tail;
      RenderedEnds(fs[1..], rest);
      CopyFlagStep(f, tail, from, chown);
      assert fs == [f] + fs[1..];
      LastFlagCons(f, fs[1..], true, from);
      LastFlagCons(f, fs[1..], false, chown);
      if f.FromFlag? {
        CopyFlagsRendered(fs[1..], rest, Some(f.value), chown);
      } else {
        CopyFlagsRendered(fs[1..], rest, from, Some(f.value));
      }
    }
  }

  /** COPY with rendered flags gives the last value of each flag, and the
      words after the flags as sources and destination. */
  lemma CopyArgsRendered(fs: seq<CopyFlag>, rest: string)
    requires forall k :: 0 <= k < |fs| ==> ' ' !in fs[k].value
    requires |rest| > 0 && !IsSpace(rest[0]) && !IsSpace(rest[|rest| - 1])
    requires !IsPrefix("--from=", rest) && !IsPrefix("--chown=", rest)
    ensures CopyArgs(RenderFlags(fs) + rest) ==
      Copy(SrcDest(Words(rest)).0, SrcDest(Words(rest)).1, LastFlag(fs, true, None), LastFlag(fs, false, None))
  {
    CopyFlagsRendered(fs, rest, None, None);
  }

  /** ADD accepts a single leading `--chown=` flag. */
  function ParseAdd(args: string): (r: BuildInstruction)
    ensures r.Add?
    ensures |r.src| == 0 <==> r.dest == ""
    ensures !IsPrefix("--chown=", args) ==> r.chown.None? && SrcDest(Words(args)) == (r.src, r.dest)
    ensures IsPrefix("--chown=", args) ==>
      r.chown == Some(FlagValue(args[8..]).0) && ' ' !in r.chown.value
      && SrcDest(Words(FlagValue(args[8..]).1)) == (r.src, r.dest)
  {
    var (remaining, chown) :=
      if IsPrefix("--chown=", args) then
        var (v, rest) := FlagValue(args[8..]); (rest, Some(v))
      else (args, None);
    var (src, dest) := SrcDest(Words(remaining));
    Add(src, dest, chown)
  }

  /** CMD/ENTRYPOINT: the exec form is decoded as JSON (an undecodable one
      gives no command); the shell form is the whole text. */
  function CommandForm(args: string, json: Json): (r: (seq<string>, bool))
    ensures !(|args| > 0 && args[0] == '[') ==> r == ([args], true)
    ensures |args| > 0 && args[0] == '[' ==> !r.1 && (json(args).None? ==> r.0 == [])
    ensures |args| > 0 && args[0] == '[' && json(args).Some? ==> r.0 == json(args).value
  {
    if |args| > 0 && args[0] == '[' then
      (match json(args) case Some(v) => v case None => [], false)
    else ([args], true)
  }

  /** `ENV key=value` (value trimmed and unquoted) or `ENV key value`. */
  function ParseEnv(args: string, lineNum: nat): (r: Result<BuildInstruction>)
    ensures '=' !in args && SplitOnceSpace(args).1.None? <==> r.Err?
    ensures r.Err? ==> r.error == ParseError(lineNum, "ENV requires a key and value")
    ensures r.Ok? ==> r.value.Env?
    ensures r.Ok? && '=' in args ==> '=' !in r.value.key
    ensures r.Ok? && '=' in args && |r.value.value| > 0 ==> r.value.value[0] != '"' && r.value.value[|r.value.value| - 1] != '"'
    ensures r.Ok? && '=' !in args && |r.value.value| > 0 ==> !IsSpace(r.value.value[0])
    ensures r.Ok? && '=' in args ==>
      && r.value.key == Trim(SplitOnce(args, '=').0)
      && r.value.value == TrimMatches(Trim(SplitOnce(args, '=').1.value), '"')
    ensures r.Ok? && '=' !in args ==>
      r.value.key == SplitOnceSpace(args).0 && r.value.value == Trim(SplitOnceSpace(args).1.value)
  {
    match FindChar(args, '=')
    case Some(eq) =>
      var key := Trim(args[..eq]);
      TrimChars(args[..eq]);
      assert forall c :: c in key ==> c in args[..eq];
      var value := TrimMatches(Trim(args[eq + 1..]), '"');
      Ok(Env(key, value))
    case None =>
      var (k, rest) := SplitOnceSpace(args);
      if rest.None? then Err(ParseError(lineNum, "ENV requires a key and value"))
      else Ok(Env(k, Trim(rest.value)))
  }

  /** `ENV key=value` gives back a key without '=' and a value that neither
      is surrounded by white space nor starts or ends with a quote. */
  lemma EnvRoundTrip(key: string, value: string, lineNum: nat)
    requires '=' !in key
    requires |key| > 0 ==> !IsSpace(key[0]) && !IsSpace(key[|key| - 1])
    requires |value| > 0 ==> !IsSpace(value[0]) && !IsSpace(value[|value| - 1])
    requires |value| > 0 ==> value[0] != '"' && value[|value| - 1] != '"'
    ensures ParseEnv(key + "=" + value, lineNum) == Ok(Env(key, value))
  {
    var args := key + "=" + value;
    assert args[..|key|] == key && args[|key| + 1..] == value;
    FindCharAt(args, '=', |key|);
    TrimUnchanged(key);
    TrimUnchanged(value);
    assert TrimMatches(value, '"') == value;
    assert ParseEnv(args, lineNum) == Ok(Env(Trim(args[..|key|]), TrimMatches(Trim(args[|key| + 1..]), '"')));
  }

  /** `ARG name[=default]`. */
  function ParseArg(args: string): (r: BuildInstruction)
    ensures r.Arg?
    ensures r.default.Some? <==> '=' in args
    ensures '=' !in args ==> r.name == Trim(args)
    ensures '=' in args ==> '=' !in r.name
    ensures '=' in args ==>
      r.name == Trim(SplitOnce(args, '=').0) && r.default == Some(Trim(SplitOnce(args, '=').1.value))
  {
    match FindChar(args, '=')
    case Some(eq) =>
      TrimChars(args[..eq]);
      Arg(Trim(args[..eq]), Some(Trim(args[eq + 1..])))
    case None => Arg(Trim(args), None)
  }

  /** `USER user[:group]`. */
  function ParseUser(args: string): (r: BuildInstruction)
    ensures r.User? && ':' !in r.user
    ensures r.group.None? ==> r.user == args
    ensures r.group.Some? ==> args == r.user + ":" + r.group.value
  {
    var (u, g) := SplitOnce(args, ':');
    User(u, g)
  }

  /** `EXPOSE port[/protocol]`: the port must be a 16-bit number, the
      protocol defaults to tcp. */
  function ParseExpose(args: string, lineNum: nat): (r: Result<BuildInstruction>)
    ensures r.Err? <==> ParseUint(Split(args, '/')[0], U16).None?
    ensures r.Err? ==> r.error.DockerfileParse? && r.error.line == lineNum
    ensures r.Ok? ==>
      && r.value.Expose? && r.value.port < U16
      && r.value.protocol == (if |Split(args, '/')| > 1 then Split(args, '/')[1] else "tcp")
    ensures r.Ok? && '/' !in args ==> r.value.protocol == "tcp"
    ensures r.Ok? ==> r.value.port == ParseUint(Split(args, '/')[0], U16).value
  {
    var parts := Split(args, '/');
    assert '/' !in args ==> |parts| == 1 by {
      if '/' !in args { SplitWithout(args, '/'); }
    }
    match ParseUint(parts[0], U16)
    case None => Err(ParseError(lineNum, "Invalid port number: " + parts[0]))
    case Some(port) => Ok(Expose(port, if |parts| > 1 then parts[1] else "tcp"))
  }

  /** `EXPOSE <port>/<protocol>` and `EXPOSE <port>` give back the port and
      the protocol, tcp when none is written. */
  lemma ExposeRoundTrip(port: nat, protocol: string, lineNum: nat)
    requires port < U16 && '/' !in protocol
    ensures ParseExpose(NatToString(port) + "/" + protocol, lineNum) == Ok(Expose(port, protocol))
    ensures ParseExpose(NatToString(port), lineNum) == Ok(Expose(port, "tcp"))
  {
    var p := NatToString(port);
    assert '/' !in p by { assert forall k :: 0 <= k < |p| ==> IsDigit(p[k]); }
    SplitPair(p, protocol, '/');
    SplitWithout(p, '/');
    ParseNatToString(port, U16);
  }

  function ParseVolume(args: string, json: Json): (r: BuildInstruction)
    ensures r.Volume?
    ensures !(|args| > 0 && args[0] == '[') ==> r.paths == Words(args)
    ensures |args| > 0 && args[0] == '[' ==> r.paths == (if json(args).Some? then json(args).value else [])
  {
    if |args| > 0 && args[0] == '[' then Volume(match json(args) case Some(v) => v case None => [])
    else Volume(Words(args))
  }

  /** LABEL: every word of the form key=value, in order (a later key wins). */
  function Labels(words: seq<string>, acc: map<string, string>): (r: map<string, string>)
    ensures acc.Keys <= r.Keys
    decreases |words|
  {
    if words == [] then acc
    else match FindChar(words[0], '=')
      case None => Labels(words[1..], acc)
      case Some(eq) =>
        Labels(words[1..], acc[words[0][..eq] := TrimMatches(words[0][eq + 1..], '"')])
  }

  /** The key a `key=value` word sets, before its first '='. */
  function LabelKey(w: string): string
  {
    SplitOnce(w, '=').0
  }

  /** Word `i` is the last of `words` to set its key. */
  predicate LastSetter(words: seq<string>, i: nat)
    requires i < |words|
  {
    forall j :: i < j < |words| && '=' in words[j] ==> LabelKey(words[j]) != LabelKey(words[i])
  }

  /** LABEL keeps every key set before and adds the key of every
      `key=value` word. */
  lemma {:induction false} LabelsKeys(words: seq<string>, acc: map<string, string>)
    ensures (Labels(words, acc)).Keys == acc.Keys + (set w | w in words && '=' in w :: LabelKey(w))
    decreases |words|
  {
    if words != [] {
      var w := words[0];
      var acc' := match FindChar(w, '=') case None => acc case Some(eq) => acc[w[..eq] := TrimMatches(w[eq + 1..], '"')];
      assert Labels(words, acc) == Labels(words[1..], acc');
      LabelsKeys(words[1..], acc');
      var here: set<string> := if '=' in w then {LabelKey(w)} else {};
      assert acc'.Keys == acc.Keys + here by {
        if '=' in w { assert LabelKey(w) == w[..FindChar(w, '=').value]; }
      }
      assert (set x | x in words && '=' in x :: LabelKey(x)) == here + (set x | x in words[1..] && '=' in x :: LabelKey(x)) by {
        assert forall x :: x in words <==> x == w || x in words[1..];
      }
    }
  }

  /** A key no word sets keeps its earlier value. */
  lemma {:induction false} LabelsKeep(words: seq<string>, acc: map<string, string>)
    ensures forall k :: k in acc && (forall w :: w in words && '=' in w ==> LabelKey(w) != k) ==>
      k in Labels(words, acc) && Labels(words, acc)[k] == acc[k]
    decreases |words|
  {
    if words != [] {
      var w := words[0];
      var acc' := match FindChar(w, '=') case None => acc case Some(eq) => acc[w[..eq] := TrimMatches(w[eq + 1..], '"')];
      assert Labels(words, acc) == Labels(words[1..], acc');
      LabelsKeep(words[1..], acc');
      forall k | k in acc && (forall x :: x in words && '=' in x ==> LabelKey(x) != k)
        ensures k in Labels(words, acc) && Labels(words, acc)[k] == acc[k]
      {
        assert k in acc' && acc'[k] == acc[k] by {
          if '=' in w {
            assert LabelKey(w) != k;
            assert LabelKey(w) == w[..FindChar(w, '=').value];
          }
        }
        forall x | x in words[1..] && '=' in x ensures LabelKey(x) != k {
          assert x in words;
        }
      }
    }
  }

  /** Each key takes the unquoted value of the last word that sets it. */
  lemma {:induction false} LabelsLastWins(words: seq<string>, acc: map<string, string>)
    ensures forall i :: 0 <= i < |words| && '=' in words[i] && LastSetter(words, i) ==>
      LabelKey(words[i]) in Labels(words, acc) &&
      Labels(words, acc)[LabelKey(words[i])] == TrimMatches(SplitOnce(words[i], '=').1.value, '"')
    decreases |words|
  {
    if words != [] {
      var w := words[0];
      var acc' := match FindChar(w, '=') case None => acc case Some(eq) => acc[w[..eq] := TrimMatches(w[eq + 1..], '"')];
      assert Labels(words, acc) == Labels(words[1..], acc');
      LabelsLastWins(words[1..], acc');
      forall i | 0 <= i < |words| && '=' in words[i] && LastSetter(words, i)
        ensures LabelKey(words[i]) in Labels(words, acc)
        ensures Labels(words, acc)[LabelKey(words[i])] == TrimMatches(SplitOnce(words[i], '=').1.value, '"')
      {
        if i == 0 {
          forall x | x in words[1..] && '=' in x ensures LabelKey(x) != LabelKey(w) {
            var j :| 0 <= j < |words[1..]| && words[1..][j] == x;
            assert words[j + 1] == x;
          }
          LabelsKeep(words[1..], acc');
        } else {
          assert words[1..][i - 1] == words[i];
          assert LastSetter(words[1..], i - 1) by {
            forall j | i - 1 < j < |words[1..]| && '=' in words[1..][j]
              ensures LabelKey(words[1..][j]) != LabelKey(words[1..][i - 1])
            {
              assert words[1..][j] == words[j + 1];
            }
          }
        }
      }
    }
  }

  function ParseLabel(args: string): (r: BuildInstruction)
    ensures r.Label?
    ensures r.labels.Keys == (set w | w in Words(args) && '=' in w :: LabelKey(w))
    ensures forall i :: 0 <= i < |Words(args)| && '=' in Words(args)[i] && LastSetter(Words(args), i) ==>
      r.labels[LabelKey(Words(args)[i])] == TrimMatches(SplitOnce(Words(args)[i], '=').1.value, '"')
  {
    LabelsKeys(Words(args), map[]);
    LabelsLastWins(Words(args), map[]);
    Label(Labels(Words(args), map[]))
  }

  /** One HEALTHCHECK option word (`--interval=`, `--timeout=`,
      `--start-period=`, `--retries=`) applied to the settings so far; None
      for any other word. */
  function HealthOption(p: string, h: BuildInstruction): (r: Option<BuildInstruction>)
    requires h.Healthcheck?
    ensures r.Some? ==> r.value.Healthcheck? && r.value.cmd == h.cmd
    ensures r.None? <==> (!IsPrefix("--interval=", p) && !IsPrefix("--timeout=", p)
                          && !IsPrefix("--start-period=", p) && !IsPrefix("--retries=", p))
    ensures IsPrefix("--interval=", p) ==> r == Some(h.(interval := Some(p[|"--interval="|..])))
    ensures IsPrefix("--timeout=", p) ==> r == Some(h.(timeout := Some(p[|"--timeout="|..])))
    ensures IsPrefix("--start-period=", p) ==> r == Some(h.(startPeriod := Some(p[|"--start-period="|..])))
    ensures IsPrefix("--retries=", p) ==> r == Some(h.(retries := ParseUint(p[|"--retries="|..], U32)))
  {
    // the four option names already differ in their third character
    assert IsPrefix("--interval=", p) ==> p[2] == "--interval="[2];
    assert IsPrefix("--timeout=", p) ==> p[2] == "--timeout="[2];
    assert IsPrefix("--start-period=", p) ==> p[2] == "--start-period="[2];
    assert IsPrefix("--retries=", p) ==> p[2] == "--retries="[2];
    if IsPrefix("--interval=", p) then Some(h.(interval := Some(p[11..])))
    else if IsPrefix("--timeout=", p) then Some(h.(timeout := Some(p[10..])))
    else if IsPrefix("--start-period=", p) then Some(h.(startPeriod := Some(p[15..])))
    else if IsPrefix("--retries=", p) then Some(h.(retries := ParseUint(p[10..], U32)))
    else None
  }

  /** The position of the first `CMD` word at or after `i`, the number of
      words when there is none. */
  function CmdAt(parts: seq<string>, i: nat): (c: nat)
    requires i <= |parts|
    ensures i <= c <= |parts|
    ensures c < |parts| ==> parts[c] == "CMD"
    ensures forall j :: i <= j < c ==> parts[j] != "CMD"
    decreases |parts| - i
  {
    if i == |parts| || parts[i] == "CMD" then i else CmdAt(parts, i + 1)
  }

  /** Word `j` starts with `pre` and is the last such word before `c`. */
  predicate LastWith(parts: seq<string>, j: nat, c: nat, pre: string)
    requires j < c <= |parts|
  {
    IsPrefix(pre, parts[j]) && forall k :: j < k < c ==> !IsPrefix(pre, parts[k])
  }

  /** The option words of HEALTHCHECK, scanned left to right until `CMD`,
      whose following words form the command. */
  function HealthScan(parts: seq<string>, i: nat, h: BuildInstruction): (r: BuildInstruction)
    requires h.Healthcheck? && i <= |parts|
    ensures r.Healthcheck?
    ensures (forall j :: i <= j < |parts| ==> parts[j] != "CMD") ==> r.cmd == h.cmd
    ensures forall c :: i <= c < |parts| && parts[c] == "CMD" && (forall j :: i <= j < c ==> parts[j] != "CMD") ==>
      r.cmd == Some(JoinStr(parts[c + 1..], " "))
    ensures (forall j :: i <= j < CmdAt(parts, i) ==> !IsPrefix("--interval=", parts[j])) ==> r.interval == h.interval
    ensures (forall j :: i <= j < CmdAt(parts, i) ==> !IsPrefix("--timeout=", parts[j])) ==> r.timeout == h.timeout
    ensures (forall j :: i <= j < CmdAt(parts, i) ==> !IsPrefix("--start-period=", parts[j])) ==> r.startPeriod == h.startPeriod
    ensures (forall j :: i <= j < CmdAt(parts, i) ==> !IsPrefix("--retries=", parts[j])) ==> r.retries == h.retries
    decreases |parts| - i
  {
    if i == |parts| then h
    else
      var p := parts[i];
      match HealthOption(p, h)
      case Some(h') => HealthScan(parts, i + 1, h')
      case None => if p == "CMD" then h.(cmd := Some(JoinStr(parts[i + 1..], " "))) else HealthScan(parts, i + 1, h)
  }

  /** The four HEALTHCHECK options by number: interval, timeout, start
      period and retries. */
  function HealthPrefix(o: nat): string
  {
    if o == 0 then "--interval=" else if o == 1 then "--timeout="
    else if o == 2 then "--start-period=" else "--retries="
  }

  /** `a` and `b` agree on option `o`. */
  predicate SameSetting(a: BuildInstruction, b: BuildInstruction, o: nat)
    requires a.Healthcheck? && b.Healthcheck?
  {
    if o == 0 then a.interval == b.interval else if o == 1 then a.timeout == b.timeout
    else if o == 2 then a.startPeriod == b.startPeriod else a.retries == b.retries
  }

  /** Option `o` of `h` holds the value written in word `w`. */
  predicate SetFrom(h: BuildInstruction, o: nat, w: string)
    requires h.Healthcheck? && IsPrefix(HealthPrefix(o), w)
  {
    if o == 0 then h.interval == Some(w[11..]) else if o == 1 then h.timeout == Some(w[10..])
    else if o == 2 then h.startPeriod == Some(w[15..]) else h.retries == ParseUint(w[10..], U32)
  }

  /** One word and option `o`: a word that starts with the option's prefix
      sets it, any other word leaves it alone. */
  lemma HealthOptionSetting(p: string, h: BuildInstruction, o: nat)
    requires h.Healthcheck?
    ensures var h' := if HealthOption(p, h).Some? then HealthOption(p, h).value else h;
      && h'.Healthcheck?
      && (IsPrefix(HealthPrefix(o), p) ==> SetFrom(h', o, p))
      && (!IsPrefix(HealthPrefix(o), p) ==> SameSetting(h', h, o))
  {
    assert IsPrefix("--interval=", p) ==> p[2] == 'i';
    assert IsPrefix("--timeout=", p) ==> p[2] == 't';
    assert IsPrefix("--start-period=", p) ==> p[2] == 's';
    assert IsPrefix("--retries=", p) ==> p[2] == 'r';
  }

  /** The scan sets option `o` from the last word before `CMD` that names it,
      and leaves it alone when no word before `CMD` names it. */
  lemma {:induction false} HealthScanSetting(parts: seq<string>, i: nat, h: BuildInstruction, o: nat)
    requires h.Healthcheck? && i <= |parts|
    ensures (forall j :: i <= j < CmdAt(parts, i) ==> !IsPrefix(HealthPrefix(o), parts[j])) ==>
      SameSetting(HealthScan(parts, i, h), h, o)
    ensures forall j :: i <= j < CmdAt(parts, i) && LastWith(parts, j, CmdAt(parts, i), HealthPrefix(o)) ==>
      SetFrom(HealthScan(parts, i, h), o, parts[j])
    decreases |parts| - i
  {
    var c := CmdAt(parts, i);
    var r := HealthScan(parts, i, h);
    if i == c {
      assert SameSetting(r, h, o) by {
        if i < |parts| {
          assert !IsPrefix(HealthPrefix(o), "CMD") by { assert "CMD"[0] != '-'; }
          HealthOptionSetting(parts[i], h, o);
        }
      }
    } else {
      var p := parts[i];
      var h' := if HealthOption(p, h).Some? then HealthOption(p, h).value else h;
      HealthOptionSetting(p, h, o);
      assert r == HealthScan(parts, i + 1, h');
      assert c == CmdAt(parts, i + 1);
      HealthScanSetting(parts, i + 1, h', o);
      var r' := HealthScan(parts, i + 1, h');
      forall j | i <= j < c && LastWith(parts, j, c, HealthPrefix(o))
        ensures SetFrom(r, o, parts[j])
      {
        if j == i {
          assert forall k :: i + 1 <= k < c ==> !IsPrefix(HealthPrefix(o), parts[k]);
          assert SameSetting(r', h', o);
        }
      }
    }
  }

  /** The four settings of `r` after a scan of `parts` from `i` that started
      with `h`: each is the value of the last word before the first `CMD`
      that names it, and `h`'s when no such word names it. */
  predicate ScannedOptions(parts: seq<string>, i: nat, h: BuildInstruction, r: BuildInstruction)
    requires h.Healthcheck? && r.Healthcheck? && i <= |parts|
  {
    var c := CmdAt(parts, i);
    && ((forall j :: i <= j < c ==> !IsPrefix("--interval=", parts[j])) ==> r.interval == h.interval)
    && ((forall j :: i <= j < c ==> !IsPrefix("--timeout=", parts[j])) ==> r.timeout == h.timeout)
    && ((forall j :: i <= j < c ==> !IsPrefix("--start-period=", parts[j])) ==> r.startPeriod == h.startPeriod)
    && ((forall j :: i <= j < c ==> !IsPrefix("--retries=", parts[j])) ==> r.retries == h.retries)
    && (forall j :: i <= j < c && LastWith(parts, j, c, "--interval=") ==> r.interval == Some(parts[j][11..]))
    && (forall j :: i <= j < c && LastWith(parts, j, c, "--timeout=") ==> r.timeout == Some(parts[j][10..]))
    && (forall j :: i <= j < c && LastWith(parts, j, c, "--start-period=") ==> r.startPeriod == Some(parts[j][15..]))
    && (forall j :: i <= j < c && LastWith(parts, j, c, "--retries=") ==> r.retries == ParseUint(parts[j][10..], U32))
  }

  /** The four settings after the scan from `i`. */
  lemma HealthScanOptions(parts: seq<string>, i: nat, h: BuildInstruction)
    requires h.Healthcheck? && i <= |parts|
    ensures ScannedOptions(parts, i, h, HealthScan(parts, i, h))
  {
    HealthScanSetting(parts, i, h, 0);
    HealthScanSetting(parts, i, h, 1);
    HealthScanSetting(parts, i, h, 2);
    HealthScanSetting(parts, i, h, 3);
  }

  const NoHealthcheck := Healthcheck(None, None, None, None, None)

  function HealthcheckArgs(args: string): (r: BuildInstruction)
    ensures r.Healthcheck?
    ensures ToUpper(Trim(args)) == "NONE" ==> r == NoHealthcheck
    ensures "CMD" !in Words(args) ==> r.cmd.None?
    ensures ToUpper(Trim(args)) != "NONE" ==>
      forall c :: 0 <= c < |Words(args)| && Words(args)[c] == "CMD" && (forall j :: 0 <= j < c ==> Words(args)[j] != "CMD") ==>
        r.cmd == Some(JoinStr(Words(args)[c + 1..], " "))
    ensures ToUpper(Trim(args)) != "NONE" ==> ScannedOptions(Words(args), 0, NoHealthcheck, r)
  {
    if ToUpper(Trim(args)) == "NONE" then NoHealthcheck
    else
      HealthScanOptions(Words(args), 0, NoHealthcheck);
      HealthScan(Words(args), 0, NoHealthcheck)
  }

  /** One word of the HEALTHCHECK loop: an option updates the settings, `CMD`
      takes the rest of the words as the command and stops the loop, any
      other word is skipped. */
  method HealthWord(parts: seq<string>, i: nat, h: BuildInstruction) returns (h': BuildInstruction, stop: bool)
    requires h.Healthcheck? && i < |parts|
    ensures h'.Healthcheck?
    ensures stop <==> HealthOption(parts[i], h).None? && parts[i] == "CMD"
    ensures stop ==> h' == HealthScan(parts, i, h)
    ensures !stop ==> HealthScan(parts, i + 1, h') == HealthScan(parts, i, h)
  {
    var p := parts[i];
    h', stop := h, false;
    if IsPrefix("--interval=", p) {
      h' := h.(interval := Some(p[11..]));
    } else if IsPrefix("--timeout=", p) {
      h' := h.(timeout := Some(p[10..]));
    } else if IsPrefix("--start-period=", p) {
      h' := h.(startPeriod := Some(p[15..]));
    } else if IsPrefix("--retries=", p) {
      h' := h.(retries := ParseUint(p[10..], U32));
    } else if p == "CMD" {
      h', stop := h.(cmd := Some(JoinStr(parts[i + 1..], " "))), true;
    }
  }

  /** HEALTHCHECK as the source writes it: a loop over the words. */
  method ParseHealthcheck(args: string) returns (r: BuildInstruction)
    ensures r == HealthcheckArgs(args)
  {
    if ToUpper(Trim(args)) == "NONE" {
      return NoHealthcheck;
    }
    var parts := Words(args);
    r := NoHealthcheck;
    var i := 0;
    while i < |parts|
      invariant 0 <= i <= |parts| && r.Healthcheck?
      invariant HealthScan(parts, i, r) == HealthScan(parts, 0, NoHealthcheck)
      decreases |parts| - i
    {
      var stop;
      r, stop := HealthWord(parts, i, r);
      if stop {
        return;
      }
      i := i + 1;
    }
  }

  function ParseShell(args: string, lineNum: nat, json: Json): (r: Result<BuildInstruction>)
    ensures r.Ok? <==> json(args).Some?
    ensures r.Ok? ==> r.value == Shell(json(args).value)
    ensures r.Err? ==> r.error == ParseError(lineNum, "SHELL requires JSON array format")
  {
    match json(args)
    case Some(v) => Ok(Shell(v))
    case None => Err(ParseError(lineNum, "SHELL requires JSON array format"))
  }

  /** The instruction keywords the builder accepts. */
  const Keywords: set<string> := {"FROM", "RUN", "COPY", "ADD", "CMD", "ENTRYPOINT", "ENV", "ARG",
    "WORKDIR", "USER", "EXPOSE", "VOLUME", "LABEL", "HEALTHCHECK", "STOPSIGNAL", "SHELL", "ONBUILD"}

  /** The keyword of a logical line: its text before the first whitespace, upper-cased. */
  function Keyword(line: string): string
  {
    ToUpper(SplitOnceSpace(line).0)
  }

  /** The arguments of a logical line: the trimmed text after the keyword. */
  function ArgText(line: string): string
  {
    match SplitOnceSpace(line).1 case Some(a) => Trim(a) case None => ""
  }

  /** One logical line: the keyword (case-insensitive) before the first
      whitespace, the trimmed rest as its arguments, handed to the parser
      of that keyword. */
  function ParseInstruction(line: string, lineNum: nat, json: Json): (r: Result<BuildInstruction>)
    ensures Keyword(line) == "FROM" ==> r == ParseFrom(ArgText(line), lineNum)
    ensures Keyword(line) == "RUN" ==> r == Ok(ParseRun(ArgText(line)))
    ensures Keyword(line) == "COPY" ==> r == Ok(CopyArgs(ArgText(line)))
    ensures Keyword(line) == "ADD" ==> r == Ok(ParseAdd(ArgText(line)))
    ensures Keyword(line) == "CMD" ==> r == Ok(Cmd(CommandForm(ArgText(line), json).0, CommandForm(ArgText(line), json).1))
    ensures Keyword(line) == "ENTRYPOINT" ==>
      r == Ok(Entrypoint(CommandForm(ArgText(line), json).0, CommandForm(ArgText(line), json).1))
    ensures Keyword(line) == "ENV" ==> r == ParseEnv(ArgText(line), lineNum)
    ensures Keyword(line) == "ARG" ==> r == Ok(ParseArg(ArgText(line)))
    ensures Keyword(line) == "WORKDIR" ==> r == Ok(Workdir(ArgText(line)))
    ensures Keyword(line) == "USER" ==> r == Ok(ParseUser(ArgText(line)))
    ensures Keyword(line) == "EXPOSE" ==> r == ParseExpose(ArgText(line), lineNum)
    ensures Keyword(line) == "VOLUME" ==> r == Ok(ParseVolume(ArgText(line), json))
    ensures Keyword(line) == "LABEL" ==> r == Ok(ParseLabel(ArgText(line)))
    ensures Keyword(line) == "HEALTHCHECK" ==> r == Ok(HealthcheckArgs(ArgText(line)))
    ensures Keyword(line) == "STOPSIGNAL" ==> r == Ok(Stopsignal(ArgText(line)))
    ensures Keyword(line) == "SHELL" ==> r == ParseShell(ArgText(line), lineNum, json)
    ensures Keyword(line) == "ONBUILD" && r.Ok? ==> r.value.Onbuild?
    ensures Keyword(line) == "ONBUILD" ==>
      r == (match ParseInstruction(ArgText(line), lineNum, json) case Ok(i) => Ok(Onbuild(i)) case Err(e) => Err(e))
    ensures ToUpper(SplitOnceSpace(line).0) !in Keywords ==>
      r == Err(ParseError(lineNum, "Unknown instruction: " + ToUpper(SplitOnceSpace(line).0)))
    ensures r.Ok? && r.value.From? ==> ToUpper(SplitOnceSpace(line).0) == "FROM"
    ensures r.Ok? && r.value.Onbuild? ==> ToUpper(SplitOnceSpace(line).0) == "ONBUILD"
    ensures r.Err? ==> r.error.DockerfileParse? && r.error.line == lineNum
    decreases |line|
  {
    var (kw, rest) := SplitOnceSpace(line);
    var instruction := ToUpper(kw);
    var args := match rest case Some(a) => Trim(a) case None => "";
    match instruction
    case "FROM" => ParseFrom(args, lineNum)
    case "RUN" => Ok(ParseRun(args))
    case "COPY" => Ok(CopyArgs(args))
    case "ADD" => Ok(ParseAdd(args))
    case "CMD" => var (c, sh) := CommandForm(args, json); Ok(Cmd(c, sh))
    case "ENTRYPOINT" => var (c, sh) := CommandForm(args, json); Ok(Entrypoint(c, sh))
    case "ENV" => ParseEnv(args, lineNum)
    case "ARG" => Ok(ParseArg(args))
    case "WORKDIR" => Ok(Workdir(args))
    case "USER" => Ok(ParseUser(args))
    case "EXPOSE" => ParseExpose(args, lineNum)
    case "VOLUME" => Ok(ParseVolume(args, json))
    case "LABEL" => Ok(ParseLabel(args))
    case "HEALTHCHECK" => Ok(HealthcheckArgs(args))
    case "STOPSIGNAL" => Ok(Stopsignal(args))
    case "SHELL" => ParseShell(args, lineNum, json)
    case "ONBUILD" =>
      (match ParseInstruction(args, lineNum, json)
       case Ok(inner) => Ok(Onbuild(inner))
       case Err(e) => Err(e))
    case _ => Err(ParseError(lineNum, "Unknown instruction: " + instruction))
  }

  // ---------------------------------------------------------------------
  // Logical lines and stages

  /** A logical line: its text and the number of the physical line that ends it. */
  datatype LogicalLine = LogicalLine(lineNum: nat, text: string)

  predicate Skipped(line: string)
  {
    line == "" || line[0] == '#'
  }

  predicate Continues(line: string)
  {
    |line| > 0 && line[|line| - 1] == '\\'
  }

  /** The logical lines from physical line `i` on, `pending` holding the
      continuation collected so far. A continuation still pending at the end
      of the input is dropped. */
  function Logical(lines: seq<string>, i: nat, pending: string): (r: seq<LogicalLine>)
    requires i <= |lines|
    decreases |lines| - i
  {
    if i == |lines| then []
    else
      var line := Trim(lines[i]);
      if Skipped(line) then Logical(lines, i + 1, pending)
      else if Continues(line) then Logical(lines, i + 1, pending + line[..|line| - 1] + " ")
      else [LogicalLine(i + 1, pending + line)] + Logical(lines, i + 1, "")
  }

  /** A logical line after instruction parsing: its line number and either
      the instruction or the parse error. */
  datatype Parsed = Parsed(lineNum: nat, result: Result<BuildInstruction>)

  /** The instruction parser the stage pass applies to each logical line. */
  type LineParser = (string, nat) -> Result<BuildInstruction>

  function Parser(json: Json): LineParser
  {
    (text: string, lineNum: nat) => ParseInstruction(text, lineNum, json)
  }

  /** Every logical line, parsed. */
  function ParseLines(ls: seq<LogicalLine>, parse: LineParser): (r: seq<Parsed>)
    ensures |r| == |ls|
    decreases |ls|
  {
    if ls == [] then []
    else [Parsed(ls[0].lineNum, parse(ls[0].text, ls[0].lineNum))] + ParseLines(ls[1..], parse)
  }

  lemma ParseLinesCons(x: LogicalLine, rest: seq<LogicalLine>, parse: LineParser)
    ensures ParseLines([x] + rest, parse) == [Parsed(x.lineNum, parse(x.text, x.lineNum))] + ParseLines(rest, parse)
  {
    assert ([x] + rest)[0] == x && ([x] + rest)[1..] == rest;
  }

  function Close(cur: Option<BuildStage>): seq<BuildStage>
  {
    if cur.Some? then [cur.value] else []
  }

  /** The stage-building pass over parsed logical lines: a FROM closes the
      current stage and opens a new one; any other instruction joins the
      current stage, and is an error when there is none. */
  function Assemble(ps: seq<Parsed>, cur: Option<BuildStage>, stages: seq<BuildStage>): Result<seq<BuildStage>>
    decreases |ps|
  {
    if ps == [] then
      var all := stages + Close(cur);
      if all == [] then Err(ParseError(0, "No FROM instruction found")) else Ok(all)
    else match ps[0].result
      case Err(e) => Err(e)
      case Ok(ins) =>
        if ins.From? then
          Assemble(ps[1..], Some(BuildStage(ins.alias, ins.image, ins.tag, [])), stages + Close(cur))
        else if cur.None? then Err(ParseError(ps[0].lineNum, "Instruction before FROM"))
        else Assemble(ps[1..], Some(cur.value.(instructions := cur.value.instructions + [ins])), stages)
  }

  /** The whole parse, stated in stages. */
  function ParseContent(content: string, json: Json): Result<ParsedBuildFile>
  {
    StagesOf(Lines(content), Parser(json))
  }

  /** The stages of the given physical lines. */
  function StagesOf(lines: seq<string>, parse: LineParser): Result<ParsedBuildFile>
  {
    match Assemble(ParseLines(Logical(lines, 0, ""), parse), None, [])
    case Ok(stages) => Ok(ParsedBuildFile(stages))
    case Err(e) => Err(e)
  }

  lemma LogicalSkip(lines: seq<string>, i: nat, pending: string)
    requires i < |lines| && Skipped(Trim(lines[i]))
    ensures Logical(lines, i, pending) == Logical(lines, i + 1, pending)
  {
  }

  lemma LogicalCont(lines: seq<string>, i: nat, pending: string)
    requires i < |lines| && !Skipped(Trim(lines[i])) && Continues(Trim(lines[i]))
    ensures var line := Trim(lines[i]);
      Logical(lines, i, pending) == Logical(lines, i + 1, pending + line[..|line| - 1] + " ")
  {
  }

  lemma LogicalEmit(lines: seq<string>, i: nat, pending: string)
    requires i < |lines| && !Skipped(Trim(lines[i])) && !Continues(Trim(lines[i]))
    ensures Logical(lines, i, pending) == [LogicalLine(i + 1, pending + Trim(lines[i]))] + Logical(lines, i + 1, "")
  {
  }

  lemma AssembleStep(x: Parsed, rest: seq<Parsed>, cur: Option<BuildStage>, stages: seq<BuildStage>)
    ensures var p := x.result;
      Assemble([x] + rest, cur, stages) ==
        if p.Err? then Err(p.error)
        else if p.value.From? then
          Assemble(rest, Some(BuildStage(p.value.alias, p.value.image, p.value.tag, [])), stages + Close(cur))
        else if cur.None? then Err(ParseError(x.lineNum, "Instruction before FROM"))
        else Assemble(rest, Some(cur.value.(instructions := cur.value.instructions + [p.value])), stages)
  {
    assert ([x] + rest)[0] == x && ([x] + rest)[1..] == rest;
  }

  /** `parse_build_content`: one pass over the physical lines with a
      continuation buffer, a current stage and the finished stages. */
  method ParseBuildContent(content: string, json: Json) returns (r: Result<ParsedBuildFile>)
    ensures r == ParseContent(content, json)
    ensures r.Ok? ==> |r.value.stages| > 0
  {
    var lines := Lines(content);
    r := ParsePhysicalLines(lines, Parser(json));
  }

  /** The pass itself: one step per physical line, over any instruction parser. */
  method ParsePhysicalLines(lines: seq<string>, parse: LineParser) returns (r: Result<ParsedBuildFile>)
    ensures r == StagesOf(lines, parse)
    ensures r.Ok? ==> |r.value.stages| > 0
  {
    var stages: seq<BuildStage> := [];
    var current: Option<BuildStage> := None;
    var continued := "";
    var i := 0;
    while i < |lines|
      invariant 0 <= i <= |lines|
      invariant Assemble(ParseLines(Logical(lines, i, continued), parse), current, stages)
             == Assemble(ParseLines(Logical(lines, 0, ""), parse), None, [])
      decreases |lines| - i
    {
      var line := Trim(lines[i]);
      if Skipped(line) {
        LogicalSkip(lines, i, continued);
        i := i + 1;
        continue;
      }
      if Continues(line) {
        LogicalCont(lines, i, continued);
        continued := continued + line[..|line| - 1] + " ";
        i := i + 1;
        continue;
      }
      var fullLine := continued + line;
      var parsed := parse(fullLine, i + 1);
      LogicalEmit(lines, i, continued);
      ParseLinesCons(LogicalLine(i + 1, fullLine), Logical(lines, i + 1, ""), parse);
      AssembleStep(Parsed(i + 1, parsed), ParseLines(Logical(lines, i + 1, ""), parse), current, stages);
      continued := "";
      if parsed.Err? {
        return Err(parsed.error);
      }
      var instruction := parsed.value;
      if instruction.From? {
        stages := stages + Close(current);
        current := Some(BuildStage(instruction.alias, instruction.image, instruction.tag, []));
      } else if current.Some? {
        current := Some(current.value.(instructions := current.value.instructions + [instruction]));
      } else {
        return Err(ParseError(i + 1, "Instruction before FROM"));
      }
      i := i + 1;
    }
    stages := stages + Close(current);
    if stages == [] {
      return Err(ParseError(0, "No FROM instruction found"));
    }
    r := Ok(ParsedBuildFile(stages));
  }

  // ---------------------------------------------------------------------
  // Properties of the parse

  /** The parsed instructions of the logical lines, if all of them parse. */
  function ParseAll(ps: seq<Parsed>): Result<seq<BuildInstruction>>
    decreases |ps|
  {
    if ps == [] then Ok([])
    else match ps[0].result
      case Err(e) => Err(e)
      case Ok(ins) =>
        match ParseAll(ps[1..])
        case Err(e) => Err(e)
        case Ok(rest) => Ok([ins] + rest)
  }

  function CountFrom(instrs: seq<BuildInstruction>): nat
  {
    if instrs == [] then 0 else (if instrs[0].From? then 1 else 0) + CountFrom(instrs[1..])
  }

  /** A stage written back as its instructions: its FROM, then its body. */
  function Unfold(stages: seq<BuildStage>): seq<BuildInstruction>
  {
    if stages == [] then []
    else [From(stages[0].baseImage, stages[0].baseTag, stages[0].name)] + stages[0].instructions + Unfold(stages[1..])
  }

  lemma {:induction false} UnfoldAppend(a: seq<BuildStage>, b: seq<BuildStage>)
    ensures Unfold(a + b) == Unfold(a) + Unfold(b)
    decreases |a|
  {
    if a == [] {
      assert a + b == b;
    } else {
      assert (a + b)[0] == a[0];
      assert (a + b)[1..] == a[1..] + b;
      UnfoldAppend(a[1..], b);
    }
  }

  lemma {:induction false} CountFromAppend(a: seq<BuildInstruction>, b: seq<BuildInstruction>)
    ensures CountFrom(a + b) == CountFrom(a) + CountFrom(b)
    decreases |a|
  {
    if a == [] {
      assert a + b == b;
    } else {
      assert (a + b)[0] == a[0];
      assert (a + b)[1..] == a[1..] + b;
      CountFromAppend(a[1..], b);
    }
  }

  /** The stage body contains no FROM. */
  ghost predicate NoFrom(instrs: seq<BuildInstruction>)
  {
    forall k :: 0 <= k < |instrs| ==> !instrs[k].From?
  }

  lemma {:induction false} CountFromNone(instrs: seq<BuildInstruction>)
    requires NoFrom(instrs)
    ensures CountFrom(instrs) == 0
    decreases |instrs|
  {
    if instrs != [] { CountFromNone(instrs[1..]); }
  }

  ghost predicate WellFormed(stages: seq<BuildStage>)
  {
    forall k :: 0 <= k < |stages| ==> NoFrom(stages[k].instructions)
  }

  lemma {:induction false} UnfoldCount(stages: seq<BuildStage>)
    requires WellFormed(stages)
    ensures CountFrom(Unfold(stages)) == |stages|
    decreases |stages|
  {
    if stages != [] {
      var s := stages[0];
      CountFromNone(s.instructions);
      CountFromAppend([From(s.baseImage, s.baseTag, s.name)] + s.instructions, Unfold(stages[1..]));
      CountFromAppend([From(s.baseImage, s.baseTag, s.name)], s.instructions);
      UnfoldCount(stages[1..]);
    }
  }

  lemma WellFormedOpen(closed: seq<BuildStage>, s: BuildStage)
    requires WellFormed(closed) && s.instructions == []
    ensures WellFormed(closed + Close(Some(s)))
  {
    assert closed + Close(Some(s)) == closed + [s];
    forall k | 0 <= k < |closed + [s]|
      ensures NoFrom((closed + [s])[k].instructions)
    {
      if k < |closed| { assert (closed + [s])[k] == closed[k]; }
    }
  }

  lemma WellFormedAdd(stages: seq<BuildStage>, s: BuildStage, ins: BuildInstruction)
    requires WellFormed(stages + Close(Some(s))) && !ins.From?
    ensures WellFormed(stages + Close(Some(s.(instructions := s.instructions + [ins]))))
  {
    var t := s.(instructions := s.instructions + [ins]);
    assert stages + Close(Some(s)) == stages + [s];
    assert stages + Close(Some(t)) == stages + [t];
    assert NoFrom(s.instructions) by { assert (stages + [s])[|stages|] == s; }
    forall k | 0 <= k < |stages + [t]|
      ensures NoFrom((stages + [t])[k].instructions)
    {
      if k < |stages| { assert (stages + [t])[k] == (stages + [s])[k]; }
    }
  }

  /** The stage pass succeeds exactly when every logical line parses and,
      unless a stage is already open, the first instruction is a FROM. */
  lemma {:induction false} AssembleOk(ps: seq<Parsed>, cur: Option<BuildStage>, stages: seq<BuildStage>)
    requires cur.None? ==> stages == []
    ensures Assemble(ps, cur, stages).Ok? <==>
      ParseAll(ps).Ok? && (cur.None? ==> |ParseAll(ps).value| > 0 && ParseAll(ps).value[0].From?)
    decreases |ps|
  {
    if ps != [] {
      match ps[0].result
      case Err(e) =>
      case Ok(ins) =>
        if ins.From? {
          AssembleOk(ps[1..], Some(BuildStage(ins.alias, ins.image, ins.tag, [])), stages + Close(cur));
        } else if cur.Some? {
          AssembleOk(ps[1..], Some(cur.value.(instructions := cur.value.instructions + [ins])), stages);
        }
    }
  }

  /** The stages the pass returns, written back as instructions, are exactly
      the instructions parsed, so each FROM opens exactly one stage. */
  lemma {:induction false} AssembleUnfold(ps: seq<Parsed>, cur: Option<BuildStage>, stages: seq<BuildStage>)
    requires WellFormed(stages + Close(cur))
    requires Assemble(ps, cur, stages).Ok? && ParseAll(ps).Ok?
    ensures WellFormed(Assemble(ps, cur, stages).value)
    ensures Unfold(Assemble(ps, cur, stages).value) == Unfold(stages + Close(cur)) + ParseAll(ps).value
    decreases |ps|
  {
    if ps == [] {
      assert (stages + Close(cur)) + [] == stages + Close(cur);
    } else {
      var ins := ps[0].result.value;
      var tail := ParseAll(ps[1..]).value;
      assert ParseAll(ps).value == [ins] + tail;
      if ins.From? {
        var next := BuildStage(ins.alias, ins.image, ins.tag, []);
        var closed := stages + Close(cur);
        WellFormedOpen(closed, next);
        AssembleUnfold(ps[1..], Some(next), closed);
        UnfoldOpen(closed, next, ins, tail);
      } else {
        var next := cur.value.(instructions := cur.value.instructions + [ins]);
        WellFormedAdd(stages, cur.value, ins);
        AssembleUnfold(ps[1..], Some(next), stages);
        UnfoldAdd(stages, cur.value, ins, tail);
      }
    }
  }

  /** Opening a stage at a FROM writes that FROM back. */
  lemma UnfoldOpen(closed: seq<BuildStage>, next: BuildStage, ins: BuildInstruction, tail: seq<BuildInstruction>)
    requires ins.From? && next == BuildStage(ins.alias, ins.image, ins.tag, [])
    ensures Unfold(closed + Close(Some(next))) + tail == Unfold(closed) + ([ins] + tail)
  {
    UnfoldAppend(closed, [next]);
    assert Unfold([next]) == [ins];
    ConcatAssoc(Unfold(closed), [ins], tail);
  }

  /** An instruction added to the open stage is written back after the stage's others. */
  lemma UnfoldAdd(stages: seq<BuildStage>, s: BuildStage, ins: BuildInstruction, tail: seq<BuildInstruction>)
    ensures Unfold(stages + Close(Some(s.(instructions := s.instructions + [ins])))) + tail
      == Unfold(stages + Close(Some(s))) + ([ins] + tail)
  {
    var next := s.(instructions := s.instructions + [ins]);
    UnfoldAppend(stages, [next]);
    UnfoldAppend(stages, [s]);
    assert Unfold([next]) == Unfold([s]) + [ins];
    ConcatAssoc(Unfold(stages), Unfold([s]) + [ins], tail);
    ConcatAssoc(Unfold([s]), [ins], tail);
    ConcatAssoc(Unfold(stages), Unfold([s]), [ins] + tail);
  }

  /** The parser's contract: it succeeds exactly when every logical line
      parses and the first one is a FROM; there is then one stage per FROM
      line, and the stages hold every instruction, in order. */
  lemma ParseContentSpec(content: string, json: Json)
    ensures var all := ParseAll(ParseLines(Logical(Lines(content), 0, ""), Parser(json)));
      ParseContent(content, json).Ok? <==> all.Ok? && |all.value| > 0 && all.value[0].From?
    ensures var all := ParseAll(ParseLines(Logical(Lines(content), 0, ""), Parser(json)));
      ParseContent(content, json).Ok? ==>
        var stages := ParseContent(content, json).value.stages;
        Unfold(stages) == all.value && |stages| == CountFrom(all.value)
  {
    var ps := ParseLines(Logical(Lines(content), 0, ""), Parser(json));
    AssembleOk(ps, None, []);
    if ParseContent(content, json).Ok? {
      AssembleUnfold(ps, None, []);
      assert Unfold([] + Close(None)) == [];
      UnfoldCount(ParseContent(content, json).value.stages);
    }
  }

  /** An input whose first logical line is not a FROM is refused. */
  lemma FirstNotFromRefused(content: string, json: Json)
    requires var ls := Logical(Lines(content), 0, "");
      |ls| > 0 ==> ToUpper(SplitOnceSpace(ls[0].text).0) != "FROM"
    ensures ParseContent(content, json).Err?
  {
    var ls := Logical(Lines(content), 0, "");
    var ps := ParseLines(ls, Parser(json));
    ParseContentSpec(content, json);
    if |ls| > 0 {
      assert ps[0].result == ParseInstruction(ls[0].text, ls[0].lineNum, json);
      assert ParseAll(ps).Ok? ==> ParseAll(ps).value[0] == ps[0].result.value;
    }
  }
}
