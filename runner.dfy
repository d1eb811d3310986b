/** The runner package: the command-line tokenizer ParseCommand and the RunnerLog
    writer that turns each chunk a child process writes into one log record. */
module Runner {
  import opened GoStrings

  datatype Option<T> = None | Some(value: T)
  datatype Result<T, E> = Ok(value: T) | Err(error: E)

  const SPACE: byte := 32
  const TAB: byte := 9
  const DQUOTE: byte := 34
  const SQUOTE: byte := 39

  predicate IsSeparator(c: byte) { c == SPACE || c == TAB }
  predicate IsQuote(c: byte) { c == DQUOTE || c == SQUOTE }

  // ---------------------------------------------------------------------------
  // ParseCommand

  /** The three values of the `state` variable: "start", "arg" and "quotes". */
  datatype State = Start | Arg | Quotes

  /** The local variables of ParseCommand between two iterations of its loop. */
  datatype Scan = Scan(state: State, current: seq<byte>, quote: seq<byte>, args: seq<seq<byte>>)

  const Init: Scan := Scan(Start, [], [DQUOTE], [])

  /** One iteration of the loop on byte `c`, with its tests in the order the code makes them:
      the "quotes" state first, then a quote byte, then the "arg" state, then "start". */
  function Step(s: Scan, c: byte): Scan {
    if s.state == Quotes then
      if RuneString(c) != s.quote then s.(current := s.current + RuneString(c))
      else Scan(Start, [], s.quote, s.args + [s.current])
    else if IsQuote(c) then
      s.(state := Quotes, quote := RuneString(c))
    else if s.state == Arg then
      if IsSeparator(c) then Scan(Start, [], s.quote, s.args + [s.current])
      else s.(current := s.current + RuneString(c))
    else if !IsSeparator(c) then
      s.(state := Arg, current := s.current + RuneString(c))
    else
      s
  }

  /** The loop run over the remaining bytes `cmd`, left to right. */
  function Run(s: Scan, cmd: seq<byte>): Scan
    decreases |cmd|
  {
    if cmd == [] then s else Run(Step(s, cmd[0]), cmd[1..])
  }

  /** The token list once the non-empty pending token has been appended. */
  function Tokens(s: Scan): seq<seq<byte>> {
    if s.current != [] then s.args + [s.current] else s.args
  }

  datatype Command = Command(executable: seq<byte>, args: seq<seq<byte>>)

  /** UnclosedQuote carries the whole command line, which the error message quotes. */
  datatype ParseError = UnclosedQuote(command: seq<byte>) | EmptyCommandLine

  /** What ParseCommand returns for `cmd`. */
  function Parse(cmd: seq<byte>): (r: Result<Command, ParseError>)
    ensures r == Err(UnclosedQuote(cmd)) <==> Run(Init, cmd).state == Quotes
    ensures r == Err(EmptyCommandLine) <==> Run(Init, cmd).state != Quotes && Tokens(Run(Init, cmd)) == []
    ensures r.Ok? ==> [r.value.executable] + r.value.args == Tokens(Run(Init, cmd))
  {
    var s := Run(Init, cmd);
    if s.state == Quotes then Err(UnclosedQuote(cmd))
    else
      var args := Tokens(s);
      if |args| <= 0 then Err(EmptyCommandLine)
      else if |args| == 1 then
        assert args == [args[0]];
        Ok(Command(args[0], []))
      else
        assert args == [args[0]] + args[1..];
        Ok(Command(args[0], args[1..]))
  }

  /** The tokenizer: splits `cmd` into the executable and its arguments.  On an error
      the executable is empty and the argument list is empty, as in the source. */
  method ParseCommand(cmd: seq<byte>) returns (executable: seq<byte>, cmdArgs: seq<seq<byte>>, err: Option<ParseError>)
    ensures Parse(cmd).Ok? ==> executable == Parse(cmd).value.executable && cmdArgs == Parse(cmd).value.args && err == None
    ensures Parse(cmd).Err? ==> executable == [] && cmdArgs == [] && err == Some(Parse(cmd).error)
  {
    var args: seq<seq<byte>> := [];
    var state := Start;
    var current: seq<byte> := [];
    var quote: seq<byte> := [DQUOTE];
    for i := 0 to |cmd|
      invariant Run(Scan(state, current, quote, args), cmd[i..]) == Run(Init, cmd)
    {
      var c := cmd[i];
      assert cmd[i..][1..] == cmd[i + 1..];

      if state == Quotes {
        if RuneString(c) != quote {
          current := current + RuneString(c);
        } else {
          args := args + [current];
          current := [];
          state := Start;
        }
        continue;
      }

      if c == DQUOTE || c == SQUOTE {
        state := Quotes;
        quote := RuneString(c);
        continue;
      }

      if state == Arg {
        if c == SPACE || c == TAB {
          args := args + [current];
          current := [];
          state := Start;
        } else {
          current := current + RuneString(c);
        }
        continue;
      }

      if c != SPACE && c != TAB {
        state := Arg;
        current := current + RuneString(c);
      }
    }
    assert cmd[|cmd|..] == [];

    if state == Quotes {
      return [], [], Some(UnclosedQuote(cmd));
    }

    if current != [] {
      args := args + [current];
    }

    if |args| <= 0 {
      return [], [], Some(EmptyCommandLine);
    }

    if |args| == 1 {
      return args[0], [], None;
    }

    return args[0], args[1..], None;
  }

  // ---------------------------------------------------------------------------
  // RunnerLog

  /** A reading of the clock.  Only the year matters to the model: the one way
      encoding/json refuses a time.Time read from time.Now() is a year outside [0, 9999]. */
  datatype Timestamp = Timestamp(year: int, withinYear: nat)

  /** Whether json.Marshal succeeds on a LogLine taken at clock reading `t`: its string
      fields always encode, and a time.Now() reading encodes exactly when its year has
      four digits. */
  predicate Encodable(t: Timestamp) {
    0 <= t.year <= 9999
  }

  /** The record each write produces, one JSON object per line of the log file. */
  datatype LogLine = LogLine(name: seq<byte>, time: Timestamp, stream: seq<byte>, message: seq<byte>)

  /** What the operating system reports for one write of a serialized line:
      the byte count, and whether an error came with it. */
  datatype FileOutcome = FileOutcome(count: nat, failed: bool)

  datatype WriteError = CouldNotPrepare | CouldNotWrite

  /** The log file both writers share, as the sequence of records written to it so far. */
  class LogFile {
    var records: seq<LogLine>

    constructor ()
      ensures records == []
    {
      records := [];
    }

    /** One write of a record's serialized line; a failed write leaves no record. */
    method WriteLine(line: LogLine, outcome: FileOutcome) returns (count: nat, failed: bool)
      modifies this
      ensures count == outcome.count && failed == outcome.failed
      ensures records == if failed then old(records) else old(records) + [line]
    {
      count, failed := outcome.count, outcome.failed;
      if !failed {
        records := records + [line];
      }
    }
  }

  /** An io.Writer that logs every chunk it is given as one record tagged with
      the command line and the stream name. */
  class RunnerLog {
    const file: LogFile
    const name: seq<byte>
    const stream: seq<byte>

    constructor (file: LogFile, name: seq<byte>, stream: seq<byte>)
      ensures this.file == file && this.name == name && this.stream == stream
    {
      this.file := file;
      this.name := name;
      this.stream := stream;
    }

    /** Logs the chunk `p`, read at clock reading `now`, with `outcome` the file's
        answer to the write.  Returns the count and the error Write returns. */
    method Write(p: seq<byte>, now: Timestamp, outcome: FileOutcome) returns (n: int, err: Option<WriteError>)
      modifies file
      ensures !Encodable(now) ==> n == 0 && err == Some(CouldNotPrepare) && file.records == old(file.records)
      ensures Encodable(now) && outcome.failed ==>
                n == outcome.count && err == Some(CouldNotWrite) && file.records == old(file.records)
      ensures Encodable(now) && !outcome.failed ==>
                n == |p| && err == None
                && file.records == old(file.records) + [LogLine(name, now, stream, TrimSpace(p))]
    {
      var lineData := LogLine(name, now, stream, TrimSpace(p));

      if !Encodable(now) {
        return 0, Some(CouldNotPrepare);
      }

      var count, failed := file.WriteLine(lineData, outcome);
      if failed {
        return count, Some(CouldNotWrite);
      }
      return |p|, None;
    }
  }
}
