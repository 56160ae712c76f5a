/**
 * The command lines written to the HiveMind child process and the reading
 * of a movement from its output (`HiveMindProcess` in
 * Process/HiveMindProcess.swift). Starting the process, the pipes and the
 * timers are not modelled; the output read when the timer fires is a
 * parameter.
 */
module HiveMindProcess {
  import opened Wrappers
  import opened JsonScanner
  import SocketProtocol

  /** Seconds the engine is given to explore (`explorationTime`). */
  const ExplorationTime: nat := 10
  /** How Swift interpolates the `TimeInterval` 10: as the `Double` text. */
  const ExplorationTimeText: string := "10.0"

  /** The errors reading a movement can fail with. */
  datatype ProcessError =
    | JSONExtraction   // no `{` in the output
    | DecodingFailed   // the extracted text is not a movement

  /** `s` is one line: it ends in a newline and holds no other. */
  predicate IsLine(s: string)
  {
    |s| > 0 && s[|s| - 1] == '\n' && '\n' !in s[..|s| - 1]
  }

  /** `body + "\n"` is a single line exactly when `body` has no newline. */
  lemma LineOf(body: string)
    ensures IsLine(body + "\n") <==> '\n' !in body
  {
  }

  /** The `new` command: who plays first and how long to explore. */
  function NewCommand(isFirst: bool, explorationTime: string): (r: string)
    ensures IsLine(r) <==> '\n' !in explorationTime
  {
    var body := "new " + BoolText(isFirst) + " " + explorationTime;
    LineOf(body);
    assert '\n' !in body <==> '\n' !in explorationTime by {
      assert forall i :: 0 <= i < |explorationTime| ==> body[|body| - |explorationTime| + i] == explorationTime[i];
      assert forall i :: 0 <= i < |body| - |explorationTime| ==> body[i] != '\n';
    }
    body + "\n"
  }

  /** The line `init(isFirst:)` writes, with the fixed exploration time. */
  function InitCommand(isFirst: bool): (r: string)
    ensures IsLine(r)
  {
    NewCommand(isFirst, ExplorationTimeText)
  }

  /** The line `play(req:)` writes. */
  function PlayCommand(): (r: string)
    ensures IsLine(r)
  {
    "play\n"
  }

  /** The line `apply(move:)` writes for a movement encoded as `moveJson`. */
  function MoveCommand(moveJson: string): (r: string)
    ensures IsLine(r) <==> '\n' !in moveJson
  {
    var body := "move " + moveJson;
    LineOf(body);
    assert '\n' !in body <==> '\n' !in moveJson by {
      assert forall i :: 0 <= i < |moveJson| ==> body[5 + i] == moveJson[i];
    }
    body + "\n"
  }

  /**
   * The process and the socket speak the same protocol: each process
   * command is the socket message's text followed by a newline.
   */
  lemma SameProtocolAsSocket<M>(isFirst: bool, m: M, json: M -> string)
    ensures InitCommand(isFirst) == SocketProtocol.Description(SocketProtocol.New(isFirst, ExplorationTimeText), json) + "\n"
    ensures PlayCommand() == SocketProtocol.Description(SocketProtocol.Play, json) + "\n"
    ensures MoveCommand(json(m)) == SocketProtocol.Description(SocketProtocol.Move(m), json) + "\n"
  {
  }

  /**
   * What the timer armed by `play(req:)` makes of the output the process has
   * produced: the first JSON object in it, decoded as a movement.
   */
  method ReadMove<M>(output: string, decode: string -> Option<M>) returns (r: Result<M, ProcessError>)
    ensures r == Err(JSONExtraction) <==> '{' !in output
    ensures '{' in output ==>
              var sp := Extraction(output).value;
              r == match decode(output[sp.start..sp.end])
                   case Some(move) => Ok(move)
                   case None => Err(DecodingFailed)
  {
    var cleanData := ExtractJSON(output);
    if cleanData.None? {
      return Err(JSONExtraction);
    }
    var sp := cleanData.value;
    var move := decode(output[sp.start..sp.end]);
    if move.Some? {
      r := Ok(move.value);
    } else {
      r := Err(DecodingFailed);
    }
  }

  /**
   * A movement whose JSON is a balanced object is read back from output in
   * which it follows brace-free diagnostics and precedes anything at all.
   */
  lemma ReadsMoveBehindNoise<M>(noise: string, m: M, rest: string, json: M -> string, decode: string -> Option<M>)
    requires '{' !in noise && BalancedObject(json(m)) && decode(json(m)) == Some(m)
    ensures '{' in noise + json(m) + rest
    ensures var sp := Extraction(noise + json(m) + rest).value;
            decode((noise + json(m) + rest)[sp.start..sp.end]) == Some(m)
  {
    var s := noise + json(m) + rest;
    ExtractsBalancedObject(noise, json(m), rest);
    assert s[|noise|] == json(m)[0];
    assert s[|noise|..|noise| + |json(m)|] == json(m);
  }
}
