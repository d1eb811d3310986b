# edward runner: command-line tokenizer and structured log writer

This project models the `runner` package of edward. A hidden `run` command in that package
starts one external process in a given directory. It records the process's standard output and
standard error in a log file as newline-delimited JSON records. The model covers the two parts
of the package that hold real logic:

- **`ParseCommand`** is a hand-written three-state scanner (`"start"`, `"arg"`, `"quotes"`). It
  splits a command string into an executable and an argument list. Space and tab separate
  tokens. Single and double quotes delimit segments. An unclosed quote fails, and so does a
  command with no tokens.
- **`RunnerLog.Write`** is the `io.Writer` handed to the child process. Each call turns the chunk
  it receives into one record with the command line, a timestamp, the stream name and the
  trimmed message, and appends that record to the shared log file.

Files:

- `go_strings.dfy` (module `GoStrings`): Go byte strings and the two library behaviours the
  package relies on. One is `string(c)` on a byte, which UTF-8 encodes the rune whose code point is `c`. The other
  is `strings.TrimSpace`.
- `runner.dfy` (module `Runner`): the scanner as a functional specification (`Step`, `Run`,
  `Parse`), the imperative `ParseCommand` method proved equal to it, and the `LogFile` and
  `RunnerLog` classes.
- `parse_properties.dfy` (module `ParseCommandProperties`): the properties of the tokenizer,
  proved about `Parse`.

Strings are modelled as sequences of bytes (`GoStrings.byte`), as Go strings are. The model
keeps the source's byte-to-string conversion exactly. `current += string(c)` appends the UTF-8
encoding of the rune `c`, so a byte of 0x80 or more becomes two bytes in the token. A UTF-8
encoded non-ASCII argument therefore comes out re-encoded. The general lemmas state tokens through
this conversion (`Runes`), and ASCII corollaries state them on the input bytes themselves.

Two behaviours of the code are worth spelling out:

- A quote met inside an unquoted run opens a quoted segment in the same buffer, because the
  quote test (runner/runner.go:109) comes before the `"arg"` branch (runner/runner.go:115). So
  `ab"cd"ef` gives the two tokens `abcd` and `ef`. `ParseCommandProperties.QuoteInsideRun`
  proves exactly this.
- When the file write fails, `Write` returns the count the file reports
  (runner/runner.go:83), not `len(p)`. `Runner.RunnerLog.Write` states that.

## Model

| member | source | states |
|---|---|---|
| `Runner.Parse` | runner/runner.go:95-148 | `Parse` runs the loop over the whole command: `Step` is one iteration of the loop body (:98-129) with its tests in the source's order, `Run` is the loop (:95-130), and `Tokens` is the final flush of the pending token (:136-138). The outcome is the unclosed-quote error carrying `cmd` exactly when the scan ends inside quotes. This test comes first. Otherwise the outcome is "Empty command line" exactly when no token was produced. Otherwise the executable followed by the arguments is the token list, so a single token gives no arguments. |
| `Runner.ParseCommand` | runner/runner.go:90-149 | The loop over the bytes with its `state`, `current`, `quote` and `args` returns what `Parse` specifies. On success that is the executable, the arguments and no error. On failure it is an empty executable, no arguments and the error. |
| `ParseCommandProperties.NoQuotesSplitsOnSeparators` | runner/runner.go:115-138 | For a command without quote bytes, the tokens are the maximal runs of bytes other than space and tab, left to right, with each byte converted by `string(c)`. An all-separator command gives "Empty command line". |
| `ParseCommandProperties.NoQuotesAsciiSplits` | runner/runner.go:115-138 | For an ASCII command without quotes, the executable and the arguments are exactly its whitespace-separated fields. |
| `ParseCommandProperties.QuotedBody` | runner/runner.go:98-106 | Inside quotes, every byte other than the opening quote is appended as `string(c)`, which leaves ASCII bytes unchanged and turns a byte of 0x80 or more into two bytes. Space, tab and the other quote kind get no special treatment. |
| `ParseCommandProperties.QuotedSegment` | runner/runner.go:98-113 | A quote met in "start" or in "arg" switches to "quotes" without flushing the pending token. The matching quote then always completes the token, even an empty one. Neither delimiting quote byte enters any token. |
| `ParseCommandProperties.UnclosedQuoteFails` | runner/runner.go:109-113 | A quote opened outside quotes and never matched makes the parse fail with the unclosed-quote error naming the whole command line. |
| `ParseCommandProperties.UnclosedQuoteIff` | runner/runner.go:98-134 | The unclosed-quote error is returned if and only if some quote byte is met outside quotes and the same quote byte never occurs after it. |
| `ParseCommandProperties.LastOpenQuote` | runner/runner.go:98-113 | A scan that starts outside quotes and ends inside them has a last opening quote. That byte was met outside quotes, it is the loop's `quote`, and it does not occur again afterwards. |
| `ParseCommandProperties.LoneQuoteIsUnclosed` | runner/runner.go:132-142 | A lone `"` or `'` produces no token, yet reports the unclosed quote and not the empty command line. |
| `ParseCommandProperties.EmptyCommandIffBlank` | runner/runner.go:140-142 | "Empty command line" is returned if and only if the command is empty or consists of spaces and tabs only. |
| `ParseCommandProperties.TokensAreSubsequence` | runner/runner.go:95-130 | The concatenation of the executable and the arguments of a successful parse is a subsequence of the converted command line. For ASCII input it is a subsequence of the command line itself. |
| `ParseCommandProperties.QuoteInsideRun` | runner/runner.go:109-124 | `ab"cd"ef` parses to executable `abcd` and arguments `["ef"]`. |
| `ParseCommandProperties.EmptyQuotedArgument` | runner/runner.go:102-104 | `a "" b` parses to executable `a` and arguments `["", "b"]`. |
| `ParseCommandProperties.Fields` | runner/runner.go:115-129 | The reference splitting: every field is non-empty and contains no space or tab. |
| `GoStrings.RuneString` | runner/runner.go:100 | `string(c)` for an ASCII byte is that byte. For a byte of 0x80 or more it is a two-byte UTF-8 sequence that decodes back to `c`. |
| `GoStrings.RunesOfAscii` | runner/runner.go:121 | On ASCII input, appending `string(c)` byte by byte reproduces the input. |
| `GoStrings.TrimSpace` | runner/runner.go:71 | The message is the slice of the chunk left after removing all leading and trailing white space. It neither starts nor ends with white space. |
| `GoStrings.TrimSpaceIdempotent` | runner/runner.go:71 | Trimming a message again changes nothing. |
| `Runner.LogFile.constructor` | runner/runner.go:35 | It stands for a successful `os.Create`, which leaves an empty file: a freshly created log file holds no records. |
| `Runner.LogFile.WriteLine` | runner/runner.go:80 | One write of a serialized line reports the file's count and error. It appends the record only when the write succeeds. |
| `Runner.RunnerLog.constructor` | runner/runner.go:40-49 | The writer is bound to the shared file, the command line as its name and the stream tag. |
| `Runner.RunnerLog.Write` | runner/runner.go:66-86 | If encoding fails, it returns 0 and the "could not prepare" error, and the file is unchanged. If the file write fails, it returns the file's count and the "could not write" error, and no record is added. On success it appends exactly one record with the writer's name and stream, the clock reading and `TrimSpace(p)`, and returns `len(p)` with no error. |

## Left out

- `run` (runner/runner.go:21-57) is command-line plumbing and is not modelled. That covers the
  urfave/cli argument check, `os.ExpandEnv`, `exec.Command`, setting the working directory and
  running the process. A successful `os.Create` (runner/runner.go:35) is the `LogFile`
  constructor; its failure path (runner/runner.go:36-38) is left out with the rest of `run`.
- The debug `fmt.Println` calls (runner/runner.go:52, 82) and the `errors.Wrap` and `WithStack`
  wrapping are not modelled. Errors are datatype values. `UnclosedQuote` carries the command
  line, which the source formats into "Unclosed quote in command line: %s".
- Runner.RunnerLog.Write: JSON encoding is not modelled byte for byte. The file holds the
  records themselves rather than their serialized lines. Reading a line back gives its record
  only when `TrimSpace(p)` is valid UTF-8. json.Marshal (runner/runner.go:74) replaces each
  invalid byte with U+FFFD, so binary output comes back changed. So does a multi-byte character
  split across two writes. The model does not capture that loss.
- Runner.RunnerLog.Write: encoding failure is modelled as the one failure of json.Marshal
  reachable from a `time.Now()` reading: a year outside [0, 9999]. Other time.Time values that
  the encoder refuses, such as a zone offset of 24 hours or more, are not modelled.
- Runner.RunnerLog.Write: the clock (`time.Now`) and the operating system's answer to the file
  write are parameters (`now` and `outcome`). A failed write adds no record. Any partial bytes of
  a failed write are not modelled.
- GoStrings.TrimSpace: only the six ASCII white-space bytes are trimmed. Go's `strings.TrimSpace`
  also trims Unicode white space such as U+0085 and U+00A0 when the input is not ASCII.
- Two `RunnerLog` instances share one file handle (runner/runner.go:40-49). The model shares the
  `LogFile` object between them, and its writes are atomic appends of one record each.
  Concurrent, unsynchronised writes from the two streams are not modelled.
- Sequences of two or more writes are not stated as a separate lemma. They follow from composing
  `Runner.RunnerLog.Write`'s postcondition: each call appends its own record after the previous
  ones.
