/** What ParseCommand's scan guarantees, proved about the functional model in Runner. */
module ParseCommandProperties {
  import opened GoStrings
  import opened Runner

  /** Scanning `a` then `b` is scanning `a + b`. */
  lemma {:induction false} RunAppend(s: Scan, a: seq<byte>, b: seq<byte>)
    ensures Run(s, a + b) == Run(Run(s, a), b)
    decreases |a|
  {
    if a == [] {
      assert a + b == b;
    } else {
      assert (a + b)[0] == a[0];
      assert (a + b)[1..] == a[1..] + b;
      RunAppend(Step(s, a[0]), a[1..], b);
    }
  }

  lemma RunCons(s: Scan, c: byte, t: seq<byte>)
    ensures Run(s, [c] + t) == Run(Step(s, c), t)
  {
    assert ([c] + t)[0] == c && ([c] + t)[1..] == t;
  }

  // ---------------------------------------------------------------------------
  // Quoted segments

  predicate Avoids(body: seq<byte>, q: byte) {
    forall k :: 0 <= k < |body| ==> body[k] != q
  }

  lemma AvoidsTail(body: seq<byte>, q: byte)
    requires body != [] && Avoids(body, q)
    ensures body[0] != q && Avoids(body[1..], q)
  {
    assert forall k :: 0 <= k < |body[1..]| ==> body[1..][k] == body[k + 1];
  }

  /** In "quotes", a byte other than the quote is appended to the pending token. */
  lemma QuotedByte(s: Scan, q: byte, c: byte)
    requires s.state == Quotes && s.quote == [q] && IsQuote(q) && c != q
    ensures Step(s, c) == s.(current := s.current + RuneString(c))
  {
    if c < 0x80 {
      assert RuneString(c) == [c];
    }
  }

  /** Inside quotes every byte other than the opening quote is appended as `string(c)`,
      which leaves ASCII bytes unchanged; separators and the other kind of quote get
      no special treatment. */
  lemma {:induction false} QuotedBody(s: Scan, q: byte, body: seq<byte>)
    requires s.state == Quotes && s.quote == [q] && IsQuote(q)
    requires Avoids(body, q)
    ensures Run(s, body) == s.(current := s.current + Runes(body))
    decreases |body|
  {
    if body == [] {
      assert s.current + Runes(body) == s.current;
    } else {
      var c, rest := body[0], body[1..];
      var s' := s.(current := s.current + RuneString(c));
      AvoidsTail(body, q);
      QuotedByte(s, q, c);
      QuotedBody(s', q, rest);
      RunesCons(s.current, body);
    }
  }

  /** Outside quotes a quote byte switches to "quotes" and remembers the quote,
      leaving the pending token as it is. */
  lemma OpenQuote(s: Scan, q: byte)
    requires s.state != Quotes && IsQuote(q)
    ensures Step(s, q) == s.(state := Quotes, quote := [q])
  {
  }

  /** In "quotes" the remembered quote ends the token, whatever it holds. */
  lemma CloseQuote(s: Scan, q: byte)
    requires s.state == Quotes && s.quote == [q] && IsQuote(q)
    ensures Step(s, q) == Scan(Start, [], [q], s.args + [s.current])
  {
  }

  /** A quote met outside quotes, whether in "start" or in the middle of an unquoted
      run, opens a quoted segment that keeps the pending token; the matching quote
      then ends the token unconditionally, even an empty one.  The two quote bytes
      themselves never enter the token. */
  lemma QuotedSegment(s: Scan, q: byte, body: seq<byte>, rest: seq<byte>)
    requires s.state != Quotes && IsQuote(q) && Avoids(body, q)
    ensures Run(s, [q] + body + [q] + rest)
            == Run(Scan(Start, [], [q], s.args + [s.current + Runes(body)]), rest)
  {
    var inQuotes := s.(state := Quotes, quote := [q]);
    var inside := inQuotes.(current := s.current + Runes(body));
    assert [q] + body + [q] + rest == [q] + (body + ([q] + rest));
    OpenQuote(s, q);
    RunCons(s, q, body + ([q] + rest));
    RunAppend(inQuotes, body, [q] + rest);
    QuotedBody(inQuotes, q, body);
    CloseQuote(inside, q);
    RunCons(inside, q, rest);
  }

  /** A quote opened outside quotes and never matched makes the parse fail with the
      unclosed-quote error naming the whole command line. */
  lemma UnclosedQuoteFails(prefix: seq<byte>, q: byte, body: seq<byte>)
    requires Run(Init, prefix).state != Quotes && IsQuote(q) && Avoids(body, q)
    ensures Parse(prefix + [q] + body) == Err(UnclosedQuote(prefix + [q] + body))
  {
    var s := Run(Init, prefix);
    var inQuotes := s.(state := Quotes, quote := [q]);
    assert prefix + [q] + body == prefix + ([q] + body);
    RunAppend(Init, prefix, [q] + body);
    OpenQuote(s, q);
    RunCons(s, q, body);
    QuotedBody(inQuotes, q, body);
  }

  lemma RunSnoc(s: Scan, init: seq<byte>, c: byte)
    ensures Run(s, init + [c]) == Step(Run(s, init), c)
  {
    RunAppend(s, init, [c]);
    RunCons(Run(s, init), c, []);
    assert [c] + [] == [c];
  }

  lemma AvoidsSnoc(body: seq<byte>, c: byte, q: byte)
    requires Avoids(body, q) && c != q
    ensures Avoids(body + [c], q)
  {
  }

  /** A step from outside quotes into them is made on a quote byte, which becomes `quote`. */
  lemma EnterQuotes(s: Scan, c: byte)
    requires s.state != Quotes && Step(s, c).state == Quotes
    ensures IsQuote(c) && Step(s, c).quote == [c]
  {
  }

  /** A step that stays inside quotes was on a byte other than the quote, which is kept. */
  lemma StayInQuotes(s: Scan, c: byte)
    requires s.state == Quotes && Step(s, c).state == Quotes
    ensures RuneString(c) != s.quote && Step(s, c).quote == s.quote
  {
  }

  lemma SnocSlices(init: seq<byte>, c: byte, j: nat)
    requires j < |init|
    ensures (init + [c])[..j] == init[..j] && (init + [c])[j] == init[j]
    ensures (init + [c])[j + 1..] == init[j + 1..] + [c]
  {
  }

  /** The converse of UnclosedQuoteFails: a scan that starts outside quotes and ends
      inside them has a last opening quote at some index `i`, reached outside quotes,
      after which that quote byte never occurs again. */
  lemma {:induction false} LastOpenQuote(s: Scan, cmd: seq<byte>)
    requires s.state != Quotes && Run(s, cmd).state == Quotes
    ensures exists i :: 0 <= i < |cmd| && IsQuote(cmd[i]) && Run(s, cmd[..i]).state != Quotes
                        && Avoids(cmd[i + 1..], cmd[i]) && Run(s, cmd).quote == [cmd[i]]
    decreases |cmd|
  {
    assert cmd != [];
    var init, c := cmd[..|cmd| - 1], cmd[|cmd| - 1];
    assert cmd == init + [c];
    RunSnoc(s, init, c);
    var t := Run(s, init);
    if t.state != Quotes {
      EnterQuotes(t, c);
      assert cmd[..|init|] == init && cmd[|init| + 1..] == [];
    } else {
      StayInQuotes(t, c);
      LastOpenQuote(s, init);
      var j :| 0 <= j < |init| && IsQuote(init[j]) && Run(s, init[..j]).state != Quotes
               && Avoids(init[j + 1..], init[j]) && t.quote == [init[j]];
      SnocSlices(init, c, j);
      AvoidsSnoc(init[j + 1..], c, init[j]);
    }
  }

  /** The unclosed-quote error is reported exactly when some quote, met outside
      quotes, is never matched by the same quote byte afterwards. */
  lemma UnclosedQuoteIff(cmd: seq<byte>)
    ensures Parse(cmd) == Err(UnclosedQuote(cmd))
            <==> exists i :: 0 <= i < |cmd| && IsQuote(cmd[i]) && Run(Init, cmd[..i]).state != Quotes
                             && Avoids(cmd[i + 1..], cmd[i])
  {
    if Run(Init, cmd).state == Quotes {
      LastOpenQuote(Init, cmd);
    }
    if exists i :: 0 <= i < |cmd| && IsQuote(cmd[i]) && Run(Init, cmd[..i]).state != Quotes
                   && Avoids(cmd[i + 1..], cmd[i]) {
      var i :| 0 <= i < |cmd| && IsQuote(cmd[i]) && Run(Init, cmd[..i]).state != Quotes
               && Avoids(cmd[i + 1..], cmd[i]);
      assert cmd == cmd[..i] + [cmd[i]] + cmd[i + 1..];
      UnclosedQuoteFails(cmd[..i], cmd[i], cmd[i + 1..]);
    }
  }

  /** The unclosed-quote test comes before the empty test: a lone quote leaves no
      token at all, and still reports the unclosed quote. */
  lemma LoneQuoteIsUnclosed(q: byte)
    requires IsQuote(q)
    ensures Tokens(Run(Init, [q])) == []
    ensures Parse([q]) == Err(UnclosedQuote([q]))
  {
    assert Run(Init, [q]) == Run(Step(Init, q), []);
  }

  // ---------------------------------------------------------------------------
  // The empty command line

  /** Facts every state the scan reaches satisfies: nothing is pending in "start",
      and something is pending in "arg". */
  predicate Reachable(s: Scan) {
    (s.state == Start ==> s.current == []) && (s.state == Arg ==> s.current != [])
  }

  /** A token has been started or completed. */
  predicate Progressed(s: Scan) {
    s.state != Start || s.args != []
  }

  lemma StepProgress(s: Scan, c: byte)
    requires Reachable(s)
    ensures Reachable(Step(s, c))
    ensures Progressed(s) ==> Progressed(Step(s, c))
    ensures !IsSeparator(c) ==> Progressed(Step(s, c))
  {
  }

  lemma {:induction false} RunProgress(s: Scan, cmd: seq<byte>)
    requires Reachable(s)
    ensures Reachable(Run(s, cmd))
    ensures Progressed(s) ==> Progressed(Run(s, cmd))
    ensures (exists k :: 0 <= k < |cmd| && !IsSeparator(cmd[k])) ==> Progressed(Run(s, cmd))
    decreases |cmd|
  {
    if cmd != [] {
      StepProgress(s, cmd[0]);
      RunProgress(Step(s, cmd[0]), cmd[1..]);
      if exists k :: 0 <= k < |cmd| && !IsSeparator(cmd[k]) {
        var k :| 0 <= k < |cmd| && !IsSeparator(cmd[k]);
        if k > 0 {
          assert cmd[1..][k - 1] == cmd[k];
        }
      }
    }
  }

  lemma {:induction false} BlankRun(q: seq<byte>, cmd: seq<byte>)
    requires forall k :: 0 <= k < |cmd| ==> IsSeparator(cmd[k])
    ensures Run(Scan(Start, [], q, []), cmd) == Scan(Start, [], q, [])
  {
    if cmd != [] {
      assert IsSeparator(cmd[0]);
      assert forall k :: 0 <= k < |cmd[1..]| ==> IsSeparator(cmd[1..][k]) by {
        forall k | 0 <= k < |cmd[1..]| ensures IsSeparator(cmd[1..][k]) { assert cmd[1..][k] == cmd[k + 1]; }
      }
      BlankRun(q, cmd[1..]);
    }
  }

  /** "Empty command line" is reported exactly for the empty string and for strings
      of spaces and tabs only. */
  lemma EmptyCommandIffBlank(cmd: seq<byte>)
    ensures Parse(cmd) == Err(EmptyCommandLine) <==> forall k :: 0 <= k < |cmd| ==> IsSeparator(cmd[k])
  {
    if forall k :: 0 <= k < |cmd| ==> IsSeparator(cmd[k]) {
      BlankRun([DQUOTE], cmd);
    } else {
      RunProgress(Init, cmd);
      var s := Run(Init, cmd);
      assert s.state != Quotes ==> Tokens(s) != [];
    }
  }

  // ---------------------------------------------------------------------------
  // Commands without quotes

  predicate NoQuotes(s: seq<byte>) {
    forall k :: 0 <= k < |s| ==> !IsQuote(s[k])
  }

  /** The length of the run of non-separator bytes `s` starts with. */
  function RunLength(s: seq<byte>): (n: nat)
    ensures n <= |s| && (n == |s| || IsSeparator(s[n]))
    ensures forall k :: 0 <= k < n ==> !IsSeparator(s[k])
  {
    if s == [] || IsSeparator(s[0]) then 0 else 1 + RunLength(s[1..])
  }

  /** The maximal runs of bytes other than space and tab, left to right. */
  function Fields(s: seq<byte>): (r: seq<seq<byte>>)
    ensures forall t :: t in r ==> t != [] && forall k :: 0 <= k < |t| ==> !IsSeparator(t[k])
    decreases |s|
  {
    if s == [] then []
    else if IsSeparator(s[0]) then Fields(s[1..])
    else
      var n := RunLength(s);
      [s[..n]] + Fields(s[n..])
  }

  function RunesEach(ts: seq<seq<byte>>): seq<seq<byte>> {
    if ts == [] then [] else [Runes(ts[0])] + RunesEach(ts[1..])
  }

  lemma NoQuotesTail(s: seq<byte>)
    requires s != [] && NoQuotes(s)
    ensures !IsQuote(s[0]) && NoQuotes(s[1..])
  {
    assert forall k :: 0 <= k < |s[1..]| ==> s[1..][k] == s[k + 1];
  }

  /** The tokens a quote-free scan from `s` over `cmd` ends with: the pending run
      (in "arg") is extended by the leading run of `cmd`, and the rest of `cmd`
      contributes its fields. */
  function UnquotedTokens(s: Scan, cmd: seq<byte>): seq<seq<byte>> {
    var n := RunLength(cmd);
    if s.state == Arg then s.args + [s.current + Runes(cmd[..n])] + RunesEach(Fields(cmd[n..]))
    else s.args + RunesEach(Fields(cmd))
  }

  lemma UnquotedSeparator(s: Scan, cmd: seq<byte>)
    requires cmd != [] && IsSeparator(cmd[0]) && s.state != Quotes && Reachable(s)
    ensures UnquotedTokens(Step(s, cmd[0]), cmd[1..]) == UnquotedTokens(s, cmd)
  {
    assert RunLength(cmd) == 0;
    assert Fields(cmd) == Fields(cmd[1..]);
    assert cmd[..0] == [] && cmd[0..] == cmd;
    assert s.current + Runes([]) == s.current;
  }

  /** The leading run of `cmd` is its first byte followed by the leading run of the rest. */
  lemma RunLengthCons(cmd: seq<byte>)
    requires cmd != [] && !IsSeparator(cmd[0])
    ensures var n, m := RunLength(cmd), RunLength(cmd[1..]);
            n == 1 + m && Runes(cmd[..n]) == RuneString(cmd[0]) + Runes(cmd[1..][..m])
            && cmd[n..] == cmd[1..][m..]
  {
    var n, m := RunLength(cmd), RunLength(cmd[1..]);
    assert cmd[..n][0] == cmd[0] && cmd[..n][1..] == cmd[1..][..m];
  }

  lemma UnquotedByte(s: Scan, cmd: seq<byte>)
    requires cmd != [] && !IsSeparator(cmd[0]) && !IsQuote(cmd[0]) && s.state != Quotes && Reachable(s)
    ensures UnquotedTokens(Step(s, cmd[0]), cmd[1..]) == UnquotedTokens(s, cmd)
  {
    var c, rest := cmd[0], cmd[1..];
    var n, m := RunLength(cmd), RunLength(rest);
    RunLengthCons(cmd);
    var run := Runes(cmd[..n]);
    var fields := RunesEach(Fields(cmd[n..]));
    if s.state == Start {
      assert Step(s, c) == s.(state := Arg, current := RuneString(c));
      assert RunesEach(Fields(cmd)) == [run] + fields;
      ArgsAssoc(s.args, run, fields);
    } else {
      assert Step(s, c) == s.(current := s.current + RuneString(c));
      TokenAssoc(s.current, RuneString(c), Runes(rest[..m]));
    }
  }

  lemma ArgsAssoc(args: seq<seq<byte>>, t: seq<byte>, more: seq<seq<byte>>)
    ensures args + [t] + more == args + ([t] + more)
  {
  }

  lemma TokenAssoc(a: seq<byte>, b: seq<byte>, c: seq<byte>)
    ensures a + b + c == a + (b + c)
  {
  }

  /** Without quotes the scan never enters "quotes" and ends with UnquotedTokens. */
  lemma {:induction false} ScanUnquoted(s: Scan, cmd: seq<byte>)
    requires NoQuotes(cmd) && s.state != Quotes && Reachable(s)
    ensures Run(s, cmd).state != Quotes
    ensures Tokens(Run(s, cmd)) == UnquotedTokens(s, cmd)
    decreases |cmd|
  {
    if cmd == [] {
      assert cmd[..0] == [] && s.current + Runes([]) == s.current;
    } else {
      NoQuotesTail(cmd);
      StepProgress(s, cmd[0]);
      if IsSeparator(cmd[0]) {
        UnquotedSeparator(s, cmd);
      } else {
        UnquotedByte(s, cmd);
      }
      ScanUnquoted(Step(s, cmd[0]), cmd[1..]);
    }
  }

  /** Without quotes, the tokens are the maximal runs of bytes other than space and
      tab, in order (each byte converted by `string(c)`); runs of separators yield
      no empty token; the executable is the first and the arguments are the rest. */
  lemma NoQuotesSplitsOnSeparators(cmd: seq<byte>)
    requires NoQuotes(cmd)
    ensures var f := RunesEach(Fields(cmd));
            Parse(cmd) == if f == [] then Err(EmptyCommandLine) else Ok(Command(f[0], f[1..]))
  {
    ScanUnquoted(Init, cmd);
    var f := RunesEach(Fields(cmd));
    assert Tokens(Run(Init, cmd)) == f;
    if f != [] {
      assert f == [f[0]] + f[1..];
    }
  }

  lemma {:induction false} FieldsOfAscii(s: seq<byte>)
    requires IsAscii(s)
    ensures RunesEach(Fields(s)) == Fields(s)
    decreases |s|
  {
    if s != [] {
      var n := RunLength(s);
      assert forall k :: 0 <= k < |s[1..]| ==> s[1..][k] == s[k + 1];
      assert forall k :: 0 <= k < |s[n..]| ==> s[n..][k] == s[k + n];
      assert forall k :: 0 <= k < |s[..n]| ==> s[..n][k] == s[k];
      if IsSeparator(s[0]) {
        FieldsOfAscii(s[1..]);
      } else {
        RunesOfAscii(s[..n]);
        FieldsOfAscii(s[n..]);
      }
    }
  }

  /** For an ASCII command line without quotes the tokens are exactly its fields. */
  lemma NoQuotesAsciiSplits(cmd: seq<byte>)
    requires NoQuotes(cmd) && IsAscii(cmd)
    ensures var f := Fields(cmd);
            Parse(cmd) == if f == [] then Err(EmptyCommandLine) else Ok(Command(f[0], f[1..]))
  {
    NoQuotesSplitsOnSeparators(cmd);
    FieldsOfAscii(cmd);
  }

  // ---------------------------------------------------------------------------
  // Tokens are a subsequence of the command line

  function Flatten(ts: seq<seq<byte>>): seq<byte> {
    if ts == [] then [] else Flatten(ts[..|ts| - 1]) + ts[|ts| - 1]
  }

  /** `a` is obtained from `b` by deleting bytes. */
  predicate IsSubsequence(a: seq<byte>, b: seq<byte>)
    decreases |b|
  {
    if a == [] then true
    else if b == [] then false
    else (a[|a| - 1] == b[|b| - 1] && IsSubsequence(a[..|a| - 1], b[..|b| - 1]))
         || IsSubsequence(a, b[..|b| - 1])
  }

  lemma {:induction false} SubsequenceExtend(a: seq<byte>, b: seq<byte>, w: seq<byte>)
    requires IsSubsequence(a, b)
    ensures IsSubsequence(a, b + w)
    ensures IsSubsequence(a + w, b + w)
    decreases |w|
  {
    if w == [] {
      assert a + w == a && b + w == b;
    } else {
      var w' := w[..|w| - 1];
      SubsequenceExtend(a, b, w');
      assert (b + w)[..|b + w| - 1] == b + w';
      assert (a + w)[..|a + w| - 1] == a + w';
    }
  }

  /** Everything appended so far: the completed tokens and the pending one. */
  function Content(s: Scan): seq<byte> {
    Flatten(s.args) + s.current
  }

  /** A step either appends `string(c)` to what was collected or collects nothing. */
  lemma StepContent(s: Scan, c: byte)
    ensures Content(Step(s, c)) == Content(s) || Content(Step(s, c)) == Content(s) + RuneString(c)
  {
    var t := s.args + [s.current];
    assert t[..|t| - 1] == s.args;
  }

  lemma SubsequenceRewrite(a: seq<byte>, b: seq<byte>, a': seq<byte>, b': seq<byte>)
    requires IsSubsequence(a, b) && a == a' && b == b'
    ensures IsSubsequence(a', b')
  {
  }

  lemma StepSubsequence(s: Scan, c: byte, prefix: seq<byte>)
    requires IsSubsequence(Content(s), prefix)
    ensures IsSubsequence(Content(Step(s, c)), prefix + RuneString(c))
  {
    StepContent(s, c);
    SubsequenceExtend(Content(s), prefix, RuneString(c));
  }

  lemma RunesCons(prefix: seq<byte>, cmd: seq<byte>)
    requires cmd != []
    ensures prefix + RuneString(cmd[0]) + Runes(cmd[1..]) == prefix + Runes(cmd)
  {
  }

  lemma {:induction false} RunContent(s: Scan, prefix: seq<byte>, cmd: seq<byte>)
    requires IsSubsequence(Content(s), prefix)
    ensures IsSubsequence(Content(Run(s, cmd)), prefix + Runes(cmd))
    decreases |cmd|
  {
    if cmd == [] {
      assert prefix + Runes(cmd) == prefix;
    } else {
      var c, rest := cmd[0], cmd[1..];
      var extended := prefix + RuneString(c);
      StepSubsequence(s, c, prefix);
      RunContent(Step(s, c), extended, rest);
      RunesCons(prefix, cmd);
      RunCons(s, c, rest);
      assert [c] + rest == cmd;
      SubsequenceRewrite(Content(Run(Step(s, c), rest)), extended + Runes(rest),
                         Content(Run(s, cmd)), prefix + Runes(cmd));
    }
  }

  /** Bytes are only ever appended in scan order: the concatenated tokens of a
      successful parse are a subsequence of the converted command line, and of the
      command line itself when it is ASCII. */
  lemma FlattenTokens(s: Scan)
    ensures Flatten(Tokens(s)) == Content(s)
  {
    var t := s.args + [s.current];
    assert t[..|t| - 1] == s.args;
  }

  lemma TokensAreSubsequence(cmd: seq<byte>)
    ensures Parse(cmd).Ok? ==>
              IsSubsequence(Flatten([Parse(cmd).value.executable] + Parse(cmd).value.args), Runes(cmd))
    ensures Parse(cmd).Ok? && IsAscii(cmd) ==>
              IsSubsequence(Flatten([Parse(cmd).value.executable] + Parse(cmd).value.args), cmd)
  {
    var s := Run(Init, cmd);
    RunContent(Init, [], cmd);
    FlattenTokens(s);
    if IsAscii(cmd) {
      RunesOfAscii(cmd);
    }
    SubsequenceRewrite(Content(s), [] + Runes(cmd), Flatten(Tokens(s)), Runes(cmd));
  }

  // ---------------------------------------------------------------------------
  // Worked examples

  /** `ab"cd"ef`: the quote opens inside the unquoted run, so `ab` and `cd` share
      one token and the closing quote ends it. */
  lemma QuoteInsideRun()
    ensures Parse([97, 98, DQUOTE, 99, 100, DQUOTE, 101, 102]) == Ok(Command([97, 98, 99, 100], [[101, 102]]))
  {
    var cmd: seq<byte> := [97, 98, DQUOTE, 99, 100, DQUOTE, 101, 102];
    var s1 := Scan(Arg, [97], [DQUOTE], []);
    var s2 := Scan(Arg, [97, 98], [DQUOTE], []);
    var s3 := Scan(Start, [], [DQUOTE], [[97, 98, 99, 100]]);
    var s4 := Scan(Arg, [101], [DQUOTE], [[97, 98, 99, 100]]);
    var s5 := Scan(Arg, [101, 102], [DQUOTE], [[97, 98, 99, 100]]);
    assert cmd == [97] + ([98] + ([DQUOTE] + [99, 100] + [DQUOTE] + ([101] + [102])));
    RunCons(Init, 97, [98] + ([DQUOTE] + [99, 100] + [DQUOTE] + ([101] + [102])));
    assert Step(Init, 97) == s1;
    RunCons(s1, 98, [DQUOTE] + [99, 100] + [DQUOTE] + ([101] + [102]));
    assert Step(s1, 98) == s2;
    var cd: seq<byte> := [99, 100];
    RunesOfAscii(cd);
    assert Runes(cd) == cd;
    assert s2.current + Runes(cd) == [97, 98, 99, 100];
    assert Scan(Start, [], [DQUOTE], s2.args + [s2.current + Runes([99, 100])]) == s3;
    QuotedSegment(s2, DQUOTE, [99, 100], [101] + [102]);
    RunCons(s3, 101, [102]);
    assert Step(s3, 101) == s4;
    RunCons(s4, 102, []);
    assert Step(s4, 102) == s5;
    assert Run(Init, cmd) == s5;
    assert Tokens(s5) == [[97, 98, 99, 100], [101, 102]];
  }

  /** `a "" b`: an empty quoted pair is an empty argument. */
  lemma EmptyQuotedArgument()
    ensures Parse([97, SPACE, DQUOTE, DQUOTE, SPACE, 98]) == Ok(Command([97], [[], [98]]))
  {
    var cmd: seq<byte> := [97, SPACE, DQUOTE, DQUOTE, SPACE, 98];
    var s1 := Scan(Arg, [97], [DQUOTE], []);
    var s2 := Scan(Start, [], [DQUOTE], [[97]]);
    var s3 := Scan(Start, [], [DQUOTE], [[97], []]);
    var s4 := Scan(Arg, [98], [DQUOTE], [[97], []]);
    assert cmd == [97] + ([SPACE] + ([DQUOTE] + [] + [DQUOTE] + ([SPACE] + [98])));
    RunCons(Init, 97, [SPACE] + ([DQUOTE] + [] + [DQUOTE] + ([SPACE] + [98])));
    assert Step(Init, 97) == s1;
    RunCons(s1, SPACE, [DQUOTE] + [] + [DQUOTE] + ([SPACE] + [98]));
    assert Step(s1, SPACE) == s2;
    QuotedSegment(s2, DQUOTE, [], [SPACE] + [98]);
    assert s2.current + Runes([]) == [];
    RunCons(s3, SPACE, [98]);
    assert Step(s3, SPACE) == s3;
    RunCons(s3, 98, []);
    assert Step(s3, 98) == s4;
    assert Run(Init, cmd) == s4;
    assert Tokens(s4) == [[97], [], [98]];
  }
}
