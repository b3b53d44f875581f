/**
  The command-line normaliser of the scanner: how a stored command string is split
  into an executable path and its parameters (ParseCommandLine, src/main.cpp:254-280),
  and how AddEntry builds the string it stores (src/main.cpp:125-143).
 */
module CommandLine {
  import opened Optional
  import opened Text

  /** Size, in characters, of the buffer handed to ExpandEnvironmentStringsW. */
  const MAX_PATH: nat := 260

  /**
    What ExpandEnvironmentStringsW leaves behind: the text in the buffer and the
    count it returns (0 on failure, more than the buffer size when it does not fit).
   */
  datatype Expansion = Expansion(text: string, length: nat)

  /** The operating system's environment expander, which this model does not see into. */
  type Expander = string -> Expansion

  /** An executable path and the parameters that follow it. */
  datatype Command = Command(path: string, parameters: string)

  /** The guard of the quoted branch: longer than one character and opening with a quote. */
  predicate OpensWithQuote(raw: string) {
    |raw| > 1 && raw[0] == '\"'
  }

  /** The quoted branch applies and a closing quote is found, so the string is split. */
  predicate SplitsAtQuote(raw: string) {
    OpensWithQuote(raw) && Find(raw, '\"', 1).Some?
  }

  /** True when the `%` branch is taken and the expander's result is accepted. */
  predicate ExpansionAccepted(raw: string, expand: Expander) {
    !OpensWithQuote(raw) && '%' in raw && 0 < expand(raw).length <= MAX_PATH
  }

  /**
    The path and parameters ParseCommandLine leaves in an entry whose parameters
    start out empty, as they do for every entry the scanner creates.
   */
  function ParseCommand(raw: string, expand: Expander): (c: Command)
    ensures !SplitsAtQuote(raw) ==> c.parameters == []
    ensures SplitsAtQuote(raw) ==> |c.path| + |c.parameters| <= |raw| - 2
  {
    if OpensWithQuote(raw) then
      match Find(raw, '\"', 1)
      case Some(endQuote) =>
        var rest := raw[endQuote + 1..];
        var parameters := match FindFirstNotOf(rest, ' ')
          case Some(k) => rest[k..]
          case None => rest;
        Command(raw[1..endQuote], parameters)
      case None => Command(raw, [])
    else if '%' in raw then
      var expanded := expand(raw);
      if 0 < expanded.length <= MAX_PATH then Command(expanded.text, []) else Command(raw, [])
    else
      Command(raw, [])
  }

  /** The command line AddEntry stores for a path and its parameters. */
  function BuildCommand(path: string, parameters: string): (cmd: string)
    ensures ' ' in path ==> |cmd| >= |path| + 2 && cmd[0] == '\"' && cmd[1..|path| + 1] == path && cmd[|path| + 1] == '\"'
    ensures ' ' !in path ==> path <= cmd
    ensures |cmd| == |path| + (if ' ' in path then 2 else 0) + (if parameters == [] then 0 else |parameters| + 1)
    ensures parameters != [] ==> cmd[|cmd| - |parameters| - 1..] == " " + parameters
  {
    if parameters != [] then
      if ' ' in path then "\"" + path + "\" " + parameters else path + " " + parameters
    else if ' ' in path then "\"" + path + "\""
    else path
  }

  /**
    The quoted branch: with the first closing quote at `q`, the path is the text between
    the quotes, and the parameters are what follows the closing quote with its leading
    blanks removed, unless it is blank throughout, in which case it is kept as it is.
   */
  lemma QuotedPrefixParse(raw: string, q: nat, expand: Expander)
    requires |raw| > 1 && raw[0] == '\"'
    requires 0 < q < |raw| && raw[q] == '\"'
    requires forall j :: 1 <= j < q ==> raw[j] != '\"'
    ensures ParseCommand(raw, expand).path == raw[1..q]
    ensures AllSpaces(raw[q + 1..]) ==> ParseCommand(raw, expand).parameters == raw[q + 1..]
    ensures !AllSpaces(raw[q + 1..]) ==>
      var rest, p := raw[q + 1..], ParseCommand(raw, expand).parameters;
      && p != [] && p[0] != ' ' && |p| <= |rest|
      && p == rest[|rest| - |p|..] && AllSpaces(rest[..|rest| - |p|])
  {
    FindAt(raw, '\"', 1, q);
    var rest := raw[q + 1..];
    match FindFirstNotOf(rest, ' ')
    case Some(k) =>
      assert rest[..|rest| - |rest[k..]|] == rest[..k];
    case None =>
  }

  /**
    Outside the split case no parameters are produced and the path is the raw string,
    unless the `%` branch is taken and the expander returns a length in 1..MAX_PATH.
    In particular a string that opens with a quote but never closes it is left whole,
    and the expander is not consulted for it.
   */
  lemma UnsplitParse(raw: string, expand: Expander)
    requires !SplitsAtQuote(raw)
    ensures ParseCommand(raw, expand).parameters == []
    ensures ExpansionAccepted(raw, expand) ==> ParseCommand(raw, expand).path == expand(raw).text
    ensures !ExpansionAccepted(raw, expand) ==> ParseCommand(raw, expand).path == raw
    ensures OpensWithQuote(raw) ==> ParseCommand(raw, expand).path == raw
  {
  }

  /**
    The round trip: a path that contains a blank and no quote, with parameters that are
    empty or open with a non-blank, is parsed back exactly from the command line built for it.
   */
  lemma {:induction false} ParseBuildRoundTrip(path: string, parameters: string, expand: Expander)
    requires ' ' in path && '\"' !in path
    requires parameters == [] || parameters[0] != ' '
    ensures ParseCommand(BuildCommand(path, parameters), expand) == Command(path, parameters)
  {
    var cmd := BuildCommand(path, parameters);
    var q := |path| + 1;
    forall j | 1 <= j < q ensures cmd[j] != '\"' {
      assert cmd[j] == path[j - 1];
    }
    FindAt(cmd, '\"', 1, q);
    var rest := cmd[q + 1..];
    if parameters == [] {
      assert rest == [];
    } else {
      assert rest == " " + parameters;
      FindFirstNotOfAt(rest, ' ', 1);
    }
  }

  /**
    When the path carries neither a `%` nor a quote, parsing the built command line gives
    back exactly what was built from if and only if the parameters are empty, or the path
    contains a blank (so it was quoted) and the parameters do not open with a blank. An
    unquoted path is never split from its parameters again.
   */
  lemma {:induction false} ParseBuildExactly(path: string, parameters: string, expand: Expander)
    requires '\"' !in path && '%' !in path
    ensures ParseCommand(BuildCommand(path, parameters), expand) == Command(path, parameters)
        <==> parameters == [] || (' ' in path && parameters[0] != ' ')
  {
    var cmd := BuildCommand(path, parameters);
    if ' ' in path {
      if parameters == [] || parameters[0] != ' ' {
        ParseBuildRoundTrip(path, parameters, expand);
      } else {
        var q := |path| + 1;
        forall j | 1 <= j < q ensures cmd[j] != '\"' {
          assert cmd[j] == path[j - 1];
        }
        QuotedPrefixParse(cmd, q, expand);
        var rest := cmd[q + 1..];
        assert rest == " " + parameters;
        assert rest[0] == ' ' && rest[1] == ' ';
        var p := ParseCommand(cmd, expand).parameters;
        if !AllSpaces(rest) {
          assert |p| < |parameters|;
        }
      }
    } else if parameters == [] {
      UnquotedBuildStaysWhole(path, parameters, expand);
    } else {
      assert cmd == path + " " + parameters;
      assert !OpensWithQuote(cmd) by {
        if path != [] { assert cmd[0] == path[0]; } else { assert cmd[0] == ' '; }
      }
    }
  }

  /**
    A path without a blank, quote or `%` is stored unquoted, and the whole stored line,
    parameters included, comes back as the path with no parameters.
   */
  lemma UnquotedBuildStaysWhole(path: string, parameters: string, expand: Expander)
    requires ' ' !in path && '\"' !in path && '%' !in path && '%' !in parameters
    ensures ParseCommand(BuildCommand(path, parameters), expand) == Command(BuildCommand(path, parameters), [])
  {
    var cmd := BuildCommand(path, parameters);
    if path != [] {
      assert cmd[0] == path[0];
    } else if parameters != [] {
      assert cmd[0] == ' ';
    }
    assert '%' !in cmd by {
      if parameters != [] {
        assert cmd == path + " " + parameters;
      }
    }
  }

  /** An example: a quoted path followed by flags is split at the closing quote. */
  lemma QuotedExample(expand: Expander)
    ensures var path, flags := "C:\\Program Files\\App.exe", "--flag value";
      ParseCommand("\"" + path + "\" " + flags, expand) == Command(path, flags)
  {
    var path, flags := "C:\\Program Files\\App.exe", "--flag value";
    assert path[10] == ' ';
    ParseBuildRoundTrip(path, flags, expand);
  }

  /** An example: an unquoted path with a blank and a flag is not split. */
  lemma UnquotedExample(expand: Expander)
    ensures ParseCommand("C:\\tools\\app.exe --flag", expand) == Command("C:\\tools\\app.exe --flag", "")
  {
  }
}
