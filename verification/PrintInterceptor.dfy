/** The worker's replacement for `sys.stdout`: prints arrive in arbitrary pieces and leave as
    one log event per non-blank line. */
module PrintInterceptor {
  import opened LogLevels
  import opened Sequences
  import opened Text

  const KEY := "PRIVATE KEY"
  const REDACTED := "[REDACTED: private key material]"

  /** What one finished line becomes; `split` is `split_level_prefix`. */
  function Report(split: string -> Note, line: string): seq<Note> {
    if Strip(line) == [] then [] else [split(if Contains(line, KEY) then REDACTED else line)]
  }

  /** Blank lines dropped, key lines redacted. */
  function Reports(split: string -> Note, lines: seq<string>): seq<Note> {
    if lines == [] then [] else Reports(split, Init(lines)) + Report(split, Last(lines))
  }

  datatype State = State(buffer: string, events: seq<Note>)

  const Fresh := State("", [])

  /** The buffer cut into lines: the finished ones reported, the last one held back. */
  function Settled(split: string -> Note, s: State): State {
    var lines := Split(s.buffer);
    State(Last(lines), s.events + Reports(split, Init(lines)))
  }

  function Written(split: string -> Note, s: State, text: string): State {
    Settled(split, State(s.buffer + text, s.events))
  }

  class Interceptor {
    const split: string -> Note
    var buffer: string
    var events: seq<Note>

    function Value(): State
      reads this
    {
      State(buffer, events)
    }

    constructor (split: string -> Note)
      ensures this.split == split && Value() == Fresh
    {
      this.split, buffer, events := split, "", [];
    }

    method Write(text: string) returns (written: nat)
      modifies this
      ensures Value() == Written(split, old(Value()), text) && written == |text|
    {
      buffer := buffer + text;
      ghost var start := Value();
      while '\n' in buffer
        invariant Settled(split, Value()) == Settled(split, start)
        decreases |buffer|
      {
        var line := Before(buffer, '\n');
        var rest := buffer[|line| + 1..];
        SettleLine(split, Value(), line, rest);
        buffer := rest;
        EmitLine(line);
      }
      SettledAlready(split, Value());
      written := |text|;
    }

    method EmitLine(line: string)
      modifies this`events
      ensures events == old(events) + Report(split, line)
    {
      if Strip(line) != "" {
        var shown := line;
        if Contains(line, KEY) {
          shown := REDACTED;
        }
        events := events + [split(shown)];
      }
    }
  }

  lemma FirstLine(split: string -> Note, line: string, rest: seq<string>, events: seq<Note>)
    requires rest != []
    ensures Last([line] + rest) == Last(rest)
    ensures events + Reports(split, Init([line] + rest)) == (events + Report(split, line)) + Reports(split, Init(rest))
  {
    InitConcat([line], rest);
    ReportsConcat(split, [line], Init(rest));
    OneReport(split, line);
    Assoc(events, Report(split, line), Reports(split, Init(rest)));
  }

  lemma SettleLine(split: string -> Note, s: State, line: string, rest: string)
    requires '\n' in s.buffer && line == Before(s.buffer, '\n') && rest == s.buffer[|line| + 1..]
    ensures Settled(split, State(rest, s.events + Report(split, line))) == Settled(split, s)
  {
    CutAt(s.buffer, '\n', line);
    SplitLine(line, rest);
    FirstLine(split, line, Split(rest), s.events);
  }

  lemma SettledAlready(split: string -> Note, s: State)
    requires '\n' !in s.buffer
    ensures Settled(split, s) == s
  {
    SplitUnbroken(s.buffer);
    assert s.events + Reports(split, []) == s.events;
  }

  lemma {:induction false} ReportsConcat(split: string -> Note, a: seq<string>, b: seq<string>)
    ensures Reports(split, a + b) == Reports(split, a) + Reports(split, b)
  {
    if b == [] {
      assert a + b == a;
      assert Reports(split, b) == [];
    } else {
      InitConcat(a, b);
      ReportsConcat(split, a, Init(b));
      Assoc(Reports(split, a), Reports(split, Init(b)), Report(split, Last(b)));
    }
  }

  // ---- chunking --------------------------------------------------------------------------

  function WrittenAll(split: string -> Note, s: State, chunks: seq<string>): State {
    if chunks == [] then s else Written(split, WrittenAll(split, s, Init(chunks)), Last(chunks))
  }

  function Concat(chunks: seq<string>): string {
    if chunks == [] then [] else Concat(Init(chunks)) + Last(chunks)
  }

  lemma WrittenTwice(split: string -> Note, s: State, a: string, b: string)
    ensures Written(split, Written(split, s, a), b) == Written(split, s, a + b)
  {
    var first := Split(s.buffer + a);
    var second := Split(Last(first) + b);
    assert s.buffer + (a + b) == s.buffer + a + b;
    SplitAppend(s.buffer + a, b);
    InitConcat(Init(first), second);
    ReportsConcat(split, Init(first), Init(second));
    Assoc(s.events, Reports(split, Init(first)), Reports(split, Init(second)));
  }

  /** However a text is cut into writes, the events are those of its finished lines and the
      buffer is its unfinished one. */
  lemma WholeLines(split: string -> Note, chunks: seq<string>)
    ensures WrittenAll(split, Fresh, chunks)
         == State(Last(Split(Concat(chunks))), Reports(split, Init(Split(Concat(chunks)))))
    ensures '\n' !in WrittenAll(split, Fresh, chunks).buffer
  {
    WholeText(split, chunks);
    SettledFresh(split, Concat(chunks));
  }

  lemma SettledFresh(split: string -> Note, text: string)
    ensures Settled(split, State(text, [])) == State(Last(Split(text)), Reports(split, Init(Split(text))))
    ensures '\n' !in Last(Split(text))
  {
    assert [] + Reports(split, Init(Split(text))) == Reports(split, Init(Split(text)));
  }

  lemma WrittenFresh(split: string -> Note, text: string)
    ensures Written(split, Fresh, text) == Settled(split, State(text, []))
  {
    assert "" + text == text;
  }

  lemma {:induction false} WholeText(split: string -> Note, chunks: seq<string>)
    ensures WrittenAll(split, Fresh, chunks) == Settled(split, State(Concat(chunks), []))
  {
    if chunks == [] {
      SettledAlready(split, Fresh);
    } else {
      WholeText(split, Init(chunks));
      WrittenFresh(split, Concat(Init(chunks)));
      WrittenTwice(split, Fresh, Concat(Init(chunks)), Last(chunks));
      WrittenFresh(split, Concat(chunks));
    }
  }

  /** Two ways of cutting the same text into writes leave the same events and buffer. */
  lemma ChunkingInvariance(split: string -> Note, one: seq<string>, other: seq<string>)
    requires Concat(one) == Concat(other)
    ensures WrittenAll(split, Fresh, one) == WrittenAll(split, Fresh, other)
  {
    WholeLines(split, one);
    WholeLines(split, other);
  }

  // ---- redaction -------------------------------------------------------------------------

  lemma {:induction false} SuffixContains(s: string, k: nat, sub: string)
    requires k <= |s| && Contains(s[k..], sub)
    ensures Contains(s, sub)
    decreases k
  {
    if k == 0 {
      assert s[0..] == s;
    } else {
      assert s[1..][k - 1..] == s[k..];
      SuffixContains(s[1..], k - 1, sub);
    }
  }

  lemma {:induction false} MissingLetter(s: string, sub: string)
    requires sub != [] && sub[0] !in s
    ensures !Contains(s, sub)
  {
    if s != [] {
      MissingLetter(s[1..], sub);
    }
  }

  /** No event that leaves the interceptor mentions a private key. */
  lemma {:induction false} NoKeyIsReported(lines: seq<string>)
    ensures forall e :: e in Reports(SplitLevelPrefix, lines) ==> !Contains(e.message, "PRIVATE KEY")
  {
    if lines != [] {
      NoKeyIsReported(Init(lines));
      ReportIsClean(Last(lines));
    }
  }

  lemma RedactedIsClean()
    ensures !Contains(REDACTED, KEY)
  {
    assert 'P' !in REDACTED && KEY[0] == 'P';
    MissingLetter(REDACTED, KEY);
  }

  lemma ReportIsClean(line: string)
    ensures forall e :: e in Report(SplitLevelPrefix, line) ==> !Contains(e.message, KEY)
  {
    if Contains(line, KEY) {
      RedactedIsClean();
      SuffixIsClean(REDACTED);
    } else {
      SuffixIsClean(line);
    }
  }

  lemma SuffixIsClean(line: string)
    requires !Contains(line, KEY)
    ensures !Contains(SplitLevelPrefix(line).message, KEY)
  {
    var k := MessageIsSuffix(line);
    if Contains(line[k..], KEY) {
      SuffixContains(line, k, KEY);
    }
  }

  /** A line with the marker words becomes one fixed notice, whatever else it says and wherever in
      it they stand; a line of blanks becomes nothing. */
  lemma LineBecomes(line: string)
    ensures Contains(line, "PRIVATE KEY") ==>
              Report(SplitLevelPrefix, line) == [Note(Info, "[REDACTED: private key material]")]
    ensures Blank(line) <==> Report(SplitLevelPrefix, line) == []
  {
    NoticeStaysWhole();
    StripBlank(line);
    if Contains(line, KEY) {
      NotBlank(line, KEY);
    }
  }

  /** The notice is no level prefix. */
  lemma NoticeStaysWhole()
    ensures SplitLevelPrefix(REDACTED) == Note(Info, REDACTED)
  {
    var word := REDACTED[1..|REDACTED| - 1];
    assert |REDACTED| == 32 && REDACTED[0] == '[' && REDACTED[31] == ']';
    assert forall i :: 1 <= i < 31 ==> REDACTED[i] != ']';
    BracketStaysWhole(REDACTED, word);
  }

  lemma BracketStaysWhole(text: string, word: string)
    requires |word| > 8 && ']' !in word && text == "[" + word + "]"
    ensures SplitLevelPrefix(text) == Note(Info, text)
  {
    LowerAt(word, 0);
    LevelNames(word);
    PrefixIsRead("", word, "", "");
    assert "" + ("[" + word + "]" + ("" + "")) == text;
  }

  lemma StripBlank(line: string)
    ensures Strip(line) == [] <==> Blank(line)
  {
    var i, j := StripIs(line);
    assert line == line[..i] + line[i..j] + line[j..];
    assert forall c :: c in line ==> c in line[..i] || c in line[i..j] || c in line[j..];
    assert i < j ==> line[i] in line;
  }

  lemma NotBlank(line: string, words: string)
    requires Contains(line, words) && words != [] && !IsSpace(words[0])
    ensures !Blank(line)
  {
    ContainsIff(line, words);
    var k: nat :| Occurs(line, words, k);
    assert line[k..][0] == words[0] && line[k] in line;
  }

  /** Lines are judged one at a time: what stands between the two marker lines of a printed
      key and does not carry the words itself is reported as it stands. */
  lemma {:induction false} KeyBodyIsReported(split: string -> Note, begin: string, body: seq<string>, end: string)
    requires Contains(begin, KEY) && Contains(end, KEY) && Strip(begin) != "" && Strip(end) != ""
    requires forall line :: line in body ==> Strip(line) != "" && !Contains(line, KEY)
    ensures Reports(split, [begin] + body + [end]) == [split(REDACTED)] + Each(split, body) + [split(REDACTED)]
  {
    EachIsReported(split, body);
    ReportsConcat(split, [begin] + body, [end]);
    ReportsConcat(split, [begin], body);
    OneReport(split, begin);
    OneReport(split, end);
  }

  lemma OneReport(split: string -> Note, line: string)
    ensures Reports(split, [line]) == Report(split, line)
  {
    assert Init([line]) == [];
  }

  function Each(split: string -> Note, lines: seq<string>): seq<Note> {
    seq(|lines|, i requires 0 <= i < |lines| => split(lines[i]))
  }

  lemma {:induction false} EachIsReported(split: string -> Note, body: seq<string>)
    requires forall line :: line in body ==> Strip(line) != "" && !Contains(line, KEY)
    ensures Reports(split, body) == Each(split, body)
  {
    if body != [] {
      EachIsReported(split, Init(body));
      EachLast(split, body);
    }
  }

  lemma EachLast(split: string -> Note, lines: seq<string>)
    requires lines != []
    ensures Each(split, lines) == Each(split, Init(lines)) + [split(Last(lines))]
  {
  }

  /** Nothing of these lines shows, whatever the level prefix is taken to be. */
  ghost predicate Hidden(body: seq<string>) {
    forall split: string -> Note, n :: n in Reports(split, body) ==> n == split(REDACTED)
  }

  /** What a line would have to be not to show: blank, carrying the words itself, or already
      the replacement. */
  predicate ShowsNothing(line: string) {
    Strip(line) == [] || Contains(line, KEY) || line == REDACTED
  }

  /** The body of a printed key stays hidden iff every line of it shows nothing by itself: the
      marker lines around it make no difference. */
  lemma HiddenIff(body: seq<string>)
    ensures Hidden(body) <==> forall line :: line in body ==> ShowsNothing(line)
  {
    if forall line :: line in body ==> ShowsNothing(line) {
      forall split: string -> Note, n | n in Reports(split, body) ensures n == split(REDACTED) {
        SilentBody(split, body);
      }
    } else {
      var line :| line in body && !ShowsNothing(line);
      var verbatim: string -> Note := l => Note(Info, l);
      LineIsReported(verbatim, body, line);
      assert verbatim(line) != verbatim(REDACTED);
    }
  }

  lemma {:induction false} SilentBody(split: string -> Note, body: seq<string>)
    requires forall line :: line in body ==> ShowsNothing(line)
    ensures forall n :: n in Reports(split, body) ==> n == split(REDACTED)
  {
    if body != [] {
      SilentBody(split, Init(body));
      assert ShowsNothing(Last(body));
    }
  }

  lemma {:induction false} LineIsReported(split: string -> Note, body: seq<string>, line: string)
    requires line in body && Strip(line) != [] && !Contains(line, KEY)
    ensures split(line) in Reports(split, body)
  {
    if Last(body) != line {
      InitLast(body);
      LineIsReported(split, Init(body), line);
    }
  }
}
