/** Cutting the certificates out of an OCSP response's text, and the trust bundle written
    from them. */
module PemExtractor {
  import opened Options
  import opened Sequences
  import opened Text

  const BEGIN := "-----BEGIN CERTIFICATE-----"
  const END := "-----END CERTIFICATE-----"

  datatype Mark = Begin | End | Neither

  /** What the line is to the scan; the statements about the scan hold for any such reading of
      lines. */
  function MarkOf(line: string): Mark {
    if BEGIN <= Strip(line) then Begin
    else if END <= Strip(line) then End
    else Neither
  }

  /** The markers are read after any blanks, whatever follows them on the line. */
  ghost predicate Carries(line: string, marker: string) {
    exists k: nat :: StandsAt(line, marker, k)
  }

  predicate StandsAt(line: string, marker: string, k: nat) {
    k <= |line| && Blank(line[..k]) && marker <= line[k..]
  }

  lemma MarkerAfterBlanks(line: string, marker: string)
    requires marker != [] && !IsSpace(marker[0]) && !IsSpace(Last(marker))
    ensures marker <= Strip(line) <==> Carries(line, marker)
  {
    var n := |line| - |TrimLeft(line)|;
    LeftBlank(line);
    PrefixOfTrimmed(TrimLeft(line), marker);
    if marker <= TrimLeft(line) {
      assert StandsAt(line, marker, n);
    }
    forall k: nat | StandsAt(line, marker, k) ensures k == n {
      assert line[k] == line[k..][0] == marker[0];
      FirstLetter(line, k, n);
    }
  }

  lemma FirstLetter(line: string, k: nat, n: nat)
    requires k < |line| && Blank(line[..k]) && !IsSpace(line[k])
    requires n <= |line| && Blank(line[..n]) && (n < |line| ==> !IsSpace(line[n]))
    ensures k == n
  {
    assert forall i :: 0 <= i < n ==> line[..n][i] == line[i];
    assert forall i :: 0 <= i < k ==> line[..k][i] == line[i];
  }

  /** Trimming on the right takes no part of a marker away. */
  lemma {:induction false} PrefixOfTrimmed(s: string, marker: string)
    requires marker != [] && !IsSpace(Last(marker))
    ensures marker <= TrimRight(s) <==> marker <= s
  {
    if s != [] && IsSpace(Last(s)) {
      PrefixOfTrimmed(Init(s), marker);
      if marker <= s {
        assert marker[|marker| - 1] == s[|marker| - 1];
        assert marker <= Init(s);
      }
    }
  }

  /** What a line is to the scan, in terms of its text. */
  lemma MarksAre(line: string)
    ensures MarkOf(line) == Begin <==> Carries(line, "-----BEGIN CERTIFICATE-----")
    ensures MarkOf(line) == End <==> Carries(line, "-----END CERTIFICATE-----")
    ensures MarkOf(line) == Neither
       <==> !Carries(line, "-----BEGIN CERTIFICATE-----") && !Carries(line, "-----END CERTIFICATE-----")
  {
    MarkerAfterBlanks(line, BEGIN);
    MarkerAfterBlanks(line, END);
    assert BEGIN[5] == 'B' && END[5] == 'E';
    assert BEGIN <= Strip(line) ==> Strip(line)[5] == 'B';
    assert END <= Strip(line) ==> Strip(line)[5] == 'E';
  }

  predicate Unmarked(mark: string -> Mark, lines: seq<string>) {
    forall l :: l in lines ==> mark(l) == Neither
  }

  /** A BEGIN line, lines without a marker, an END line. */
  predicate IsBlock(mark: string -> Mark, lines: seq<string>) {
    |lines| >= 2 && mark(lines[0]) == Begin && mark(Last(lines)) == End && Unmarked(mark, lines[1..|lines| - 1])
  }

  predicate AllBlocks(mark: string -> Mark, blocks: seq<seq<string>>) {
    forall b :: b in blocks ==> IsBlock(mark, b) && NoNewline(b)
  }

  predicate NoNewline(lines: seq<string>) {
    forall l :: l in lines ==> '\n' !in l
  }

  // ---- the scan --------------------------------------------------------------------------

  /** `current_cert` while `in_cert`, and `certificates`. */
  datatype Scan = Scan(current: Option<seq<string>>, found: seq<string>)

  const Start := Scan(None, [])

  function Feed(mark: string -> Mark, s: Scan, line: string): Scan {
    if mark(line) == Begin then s.(current := Some([line]))
    else if s.current.None? then s
    else if mark(line) == End then Scan(None, s.found + [Join(s.current.value + [line])])
    else s.(current := Some(s.current.value + [line]))
  }

  function FeedAll(mark: string -> Mark, s: Scan, lines: seq<string>): Scan {
    if lines == [] then s else Feed(mark, FeedAll(mark, s, Init(lines)), Last(lines))
  }

  function Extract(text: string): seq<string> {
    FeedAll(MarkOf, Start, Split(text)).found
  }

  method ExtractCertificates(response: string) returns (certificates: seq<string>)
    ensures certificates == Extract(response)
  {
    var lines := Split(response);
    var current: seq<string> := [];
    var inCert := false;
    certificates := [];
    var i := 0;
    while i < |lines|
      invariant 0 <= i <= |lines|
      invariant FeedAll(MarkOf, Start, lines[..i]) == Scan(if inCert then Some(current) else None, certificates)
    {
      assert Init(lines[..i + 1]) == lines[..i];
      if BEGIN <= Strip(lines[i]) {
        inCert := true;
        current := [lines[i]];
      } else if END <= Strip(lines[i]) {
        if inCert {
          current := current + [lines[i]];
          certificates := certificates + [Join(current)];
          current := [];
          inCert := false;
        }
      } else if inCert {
        current := current + [lines[i]];
      }
      i := i + 1;
    }
    assert lines[..i] == lines;
  }

  /** The file `_build_ocsp_trust_chain` leaves behind, if it gets as far as writing one. */
  method BuildBundle(issuer: string, response: string) returns (written: Option<string>)
    ensures written == if Extract(response) == [] then None else Some(Bundle(issuer, Extract(response)))
  {
    var certs := ExtractCertificates(response);
    if certs == [] {
      return None;
    }
    var file := issuer;
    file := file + "\n";
    var i := 0;
    while i < |certs|
      invariant 0 <= i <= |certs|
      invariant file + Listed(certs[i..]) == Bundle(issuer, certs)
    {
      assert certs[i..][1..] == certs[i + 1..];
      assert file + (certs[i] + "\n" + Listed(certs[i + 1..])) == file + certs[i] + "\n" + Listed(certs[i + 1..]);
      file := file + certs[i];
      file := file + "\n";
      i := i + 1;
    }
    assert file + [] == file;
    written := Some(file);
  }

  function Listed(certs: seq<string>): string {
    if certs == [] then [] else certs[0] + "\n" + Listed(certs[1..])
  }

  function Bundle(issuer: string, certs: seq<string>): string {
    issuer + "\n" + Listed(certs)
  }

  // ---- what is extracted -----------------------------------------------------------------

  datatype Span = Span(first: nat, last: nat)

  predicate IsSpan(mark: string -> Mark, lines: seq<string>, s: Span) {
    s.first < s.last < |lines| && IsBlock(mark, lines[s.first..s.last + 1])
  }

  /** A certificate begun on line i is still open at the end. */
  predicate OpensAt(mark: string -> Mark, lines: seq<string>, i: nat) {
    i < |lines| && mark(lines[i]) == Begin && Unmarked(mark, lines[i + 1..])
  }

  predicate InOrder(spans: seq<Span>) {
    forall i, j :: 0 <= i < j < |spans| ==> spans[i].last < spans[j].first
  }

  function Cut(mark: string -> Mark, lines: seq<string>, spans: seq<Span>): seq<string>
    requires forall s :: s in spans ==> IsSpan(mark, lines, s)
  {
    seq(|spans|, i requires 0 <= i < |spans| =>
      assert IsSpan(mark, lines, spans[i]);
      Join(lines[spans[i].first..spans[i].last + 1]))
  }

  /** The extracted certificates are the blocks of the text, all of them, once each, in
      order: a line range is extracted iff it is a BEGIN line, lines without a marker, and an
      END line. */
  lemma ExtractsExactlyTheBlocks(text: string) returns (spans: seq<Span>)
    ensures InOrder(spans) && forall s :: s in spans <==> IsSpan(MarkOf, Split(text), s)
    ensures Extract(text) == Cut(MarkOf, Split(text), spans)
  {
    var open;
    spans, open := Locate(MarkOf, Split(text));
  }

  ghost predicate Located(mark: string -> Mark, lines: seq<string>, spans: seq<Span>, open: Option<nat>) {
    && InOrder(spans) && (forall s :: s in spans <==> IsSpan(mark, lines, s))
    && (forall i: nat :: OpensAt(mark, lines, i) <==> open == Some(i))
    && (open.Some? ==> open.value < |lines| && forall s :: s in spans ==> s.last < open.value)
  }

  ghost predicate Within(mark: string -> Mark, lines: seq<string>, spans: seq<Span>, open: Option<nat>) {
    (open.Some? ==> open.value < |lines|) && forall s :: s in spans ==> IsSpan(mark, lines, s)
  }

  ghost function Reading(mark: string -> Mark, lines: seq<string>, spans: seq<Span>, open: Option<nat>): Scan
    requires Within(mark, lines, spans, open)
  {
    Scan(Current(lines, open), Cut(mark, lines, spans))
  }

  function Current(lines: seq<string>, open: Option<nat>): Option<seq<string>>
    requires open.Some? ==> open.value < |lines|
  {
    if open.Some? then Some(lines[open.value..]) else None
  }

  lemma {:induction false} Locate(mark: string -> Mark, lines: seq<string>) returns (spans: seq<Span>, open: Option<nat>)
    ensures Located(mark, lines, spans, open) && FeedAll(mark, Start, lines) == Reading(mark, lines, spans, open)
  {
    if lines == [] {
      return [], None;
    }
    spans, open := Locate(mark, Init(lines));
    LocatedNext(mark, lines, spans, open);
    ReadingNext(mark, lines, spans, open);
    spans, open := NextSpans(mark, lines, spans, open), NextOpen(mark, lines, open);
  }

  function NextSpans(mark: string -> Mark, lines: seq<string>, spans: seq<Span>, open: Option<nat>): seq<Span>
    requires lines != []
  {
    if mark(Last(lines)) == End && open.Some? then spans + [Span(open.value, |lines| - 1)] else spans
  }

  function NextOpen(mark: string -> Mark, lines: seq<string>, open: Option<nat>): Option<nat>
    requires lines != []
  {
    if mark(Last(lines)) == Begin then Some(|lines| - 1) else if mark(Last(lines)) == End then None else open
  }

  lemma LocatedNext(mark: string -> Mark, lines: seq<string>, spans: seq<Span>, open: Option<nat>)
    requires lines != [] && Located(mark, Init(lines), spans, open)
    ensures Located(mark, lines, NextSpans(mark, lines, spans, open), NextOpen(mark, lines, open))
  {
    assert forall i: nat :: OpensAt(mark, lines, i) <==> NextOpen(mark, lines, open) == Some(i) by { OpensNext(mark, lines); }
    MembersNext(mark, lines, spans, open);
    OrderNext(mark, lines, spans, open);
  }

  lemma MembersNext(mark: string -> Mark, lines: seq<string>, spans: seq<Span>, open: Option<nat>)
    requires lines != [] && Located(mark, Init(lines), spans, open)
    ensures forall s :: s in NextSpans(mark, lines, spans, open) <==> IsSpan(mark, lines, s)
  {
    forall s ensures s in NextSpans(mark, lines, spans, open) <==> IsSpan(mark, lines, s) {
      assert s in spans <==> IsSpan(mark, Init(lines), s);
      assert OpensAt(mark, Init(lines), s.first) <==> open == Some(s.first);
      SpanNext(mark, lines, s);
      MemberNext(mark, lines, spans, open, s);
    }
  }

  lemma MemberNext(mark: string -> Mark, lines: seq<string>, spans: seq<Span>, open: Option<nat>, s: Span)
    requires lines != []
    ensures s in NextSpans(mark, lines, spans, open) <==>
            s in spans || (s.last == |lines| - 1 && mark(Last(lines)) == End && open == Some(s.first))
  {
    assert open == Some(s.first) && s.last == |lines| - 1 ==> s == Span(open.value, |lines| - 1);
  }

  lemma OrderNext(mark: string -> Mark, lines: seq<string>, spans: seq<Span>, open: Option<nat>)
    requires lines != [] && InOrder(spans) && forall s :: s in spans ==> s.first < s.last < |lines| - 1
    requires open.Some? ==> open.value < |lines| - 1 && forall s :: s in spans ==> s.last < open.value
    ensures InOrder(NextSpans(mark, lines, spans, open))
    ensures var open' := NextOpen(mark, lines, open);
            open'.Some? ==> forall s :: s in NextSpans(mark, lines, spans, open) ==> s.last < open'.value
  {
  }

  lemma ReadingNext(mark: string -> Mark, lines: seq<string>, spans: seq<Span>, open: Option<nat>)
    requires lines != [] && Within(mark, Init(lines), spans, open)
    requires Within(mark, lines, NextSpans(mark, lines, spans, open), NextOpen(mark, lines, open))
    ensures Reading(mark, lines, NextSpans(mark, lines, spans, open), NextOpen(mark, lines, open))
         == Feed(mark, Reading(mark, Init(lines), spans, open), Last(lines))
  {
    CurrentNext(mark, lines, open);
    CutNext(mark, lines, spans);
    if mark(Last(lines)) == End && open.Some? {
      var s := Span(open.value, |lines| - 1);
      assert s in NextSpans(mark, lines, spans, open);
      CutSnoc(mark, lines, spans, s);
    }
  }

  lemma CurrentNext(mark: string -> Mark, lines: seq<string>, open: Option<nat>)
    requires lines != [] && (open.Some? ==> open.value < |lines| - 1)
    ensures open.Some? ==> Current(lines, open) == Some(Current(Init(lines), open).value + [Last(lines)])
    ensures Current(lines, Some(|lines| - 1)) == Some([Last(lines)])
  {
    assert lines[|lines| - 1..] == [Last(lines)];
    if open.Some? {
      TailNext(lines, open.value);
    }
  }

  lemma TailNext(lines: seq<string>, i: nat)
    requires i < |lines|
    ensures lines[i..] == Init(lines)[i..] + [Last(lines)]
  {
  }

  lemma CutSnoc(mark: string -> Mark, lines: seq<string>, spans: seq<Span>, s: Span)
    requires forall x :: x in spans ==> IsSpan(mark, lines, x)
    requires IsSpan(mark, lines, s) && s.last == |lines| - 1
    ensures forall x :: x in spans + [s] ==> IsSpan(mark, lines, x)
    ensures Cut(mark, lines, spans + [s]) == Cut(mark, lines, spans) + [Join(lines[s.first..])]
  {
    assert lines[s.first..s.last + 1] == lines[s.first..];
  }

  lemma CutNext(mark: string -> Mark, lines: seq<string>, spans: seq<Span>)
    requires lines != [] && forall s :: s in spans ==> IsSpan(mark, Init(lines), s)
    ensures forall s :: s in spans ==> IsSpan(mark, lines, s)
    ensures Cut(mark, lines, spans) == Cut(mark, Init(lines), spans)
  {
    forall s | s in spans ensures IsSpan(mark, lines, s) && lines[s.first..s.last + 1] == Init(lines)[s.first..s.last + 1] {
      assert lines[s.first..s.last + 1] == Init(lines)[s.first..s.last + 1];
    }
  }

  lemma OpensNext(mark: string -> Mark, lines: seq<string>)
    requires lines != []
    ensures forall i: nat :: OpensAt(mark, lines, i) <==>
              if mark(Last(lines)) == Begin then i == |lines| - 1 else mark(Last(lines)) != End && OpensAt(mark, Init(lines), i)
  {
    forall i: nat ensures OpensAt(mark, lines, i) <==>
              if mark(Last(lines)) == Begin then i == |lines| - 1 else mark(Last(lines)) != End && OpensAt(mark, Init(lines), i)
    {
      if i < |lines| - 1 {
        assert lines[i + 1..] == Init(lines)[i + 1..] + [Last(lines)];
      }
    }
  }

  lemma SpanNext(mark: string -> Mark, lines: seq<string>, s: Span)
    requires lines != []
    ensures IsSpan(mark, lines, s) <==>
            || IsSpan(mark, Init(lines), s)
            || (s.last == |lines| - 1 && mark(Last(lines)) == End && OpensAt(mark, Init(lines), s.first))
  {
    if s.first < s.last < |lines| - 1 {
      assert lines[s.first..s.last + 1] == Init(lines)[s.first..s.last + 1];
    } else if s.first < s.last == |lines| - 1 {
      BlockBody(lines, s.first);
    }
  }

  /** The body of a block that ends on the last line. */
  lemma BlockBody(lines: seq<string>, i: nat)
    requires i < |lines| - 1
    ensures var block := lines[i..|lines|];
            block[0] == Init(lines)[i] && Last(block) == Last(lines) && block[1..|block| - 1] == Init(lines)[i + 1..]
  {
    var block := lines[i..|lines|];
    var body, tail := block[1..|block| - 1], Init(lines)[i + 1..];
    forall k | 0 <= k < |body| ensures body[k] == tail[k] {
      assert body[k] == block[k + 1] == lines[i + (k + 1)];
      assert tail[k] == Init(lines)[i + 1 + k] == lines[i + 1 + k];
    }
  }

  // ---- round trips -----------------------------------------------------------------------

  lemma {:induction false} FeedConcat(mark: string -> Mark, s: Scan, a: seq<string>, b: seq<string>)
    ensures FeedAll(mark, s, a + b) == FeedAll(mark, FeedAll(mark, s, a), b)
  {
    if b == [] {
      assert a + b == a;
    } else {
      assert Init(a + b) == a + Init(b);
      FeedConcat(mark, s, a, Init(b));
    }
  }

  lemma {:induction false} FeedUnmarked(mark: string -> Mark, s: Scan, lines: seq<string>)
    requires Unmarked(mark, lines)
    ensures FeedAll(mark, s, lines) == if s.current.None? then s else s.(current := Some(s.current.value + lines))
  {
    if lines != [] {
      FeedUnmarked(mark, s, Init(lines));
      assert Init(lines) + [Last(lines)] == lines;
      assert s.current.Some? ==> s.current.value + Init(lines) + [Last(lines)] == s.current.value + lines;
    } else {
      assert s.current.Some? ==> s.current.value + [] == s.current.value;
    }
  }

  /** Whatever came before, a block is extracted whole. */
  lemma FeedBlock(mark: string -> Mark, s: Scan, block: seq<string>)
    requires IsBlock(mark, block)
    ensures FeedAll(mark, s, block) == Scan(None, s.found + [Join(block)])
  {
    var body := block[1..|block| - 1];
    assert block == [block[0]] + body + [Last(block)];
    FeedConcat(mark, s, [block[0]] + body, [Last(block)]);
    FeedConcat(mark, s, [block[0]], body);
    assert Init([block[0]]) == [] && Init([Last(block)]) == [];
    FeedUnmarked(mark, Feed(mark, s, block[0]), body);
  }

  /** Separators and blocks in turn. */
  function Interleave(separators: seq<seq<string>>, blocks: seq<seq<string>>): seq<string>
    requires |separators| == |blocks| + 1
  {
    if blocks == [] then separators[0]
    else Interleave(Init(separators), Init(blocks)) + Last(blocks) + Last(separators)
  }

  function JoinAll(blocks: seq<seq<string>>): seq<string> {
    seq(|blocks|, i requires 0 <= i < |blocks| => Join(blocks[i]))
  }

  lemma JoinAllSnoc(blocks: seq<seq<string>>)
    requires blocks != []
    ensures JoinAll(Init(blocks)) + [Join(Last(blocks))] == JoinAll(blocks)
  {
  }

  lemma JoinAllCons(blocks: seq<seq<string>>)
    requires blocks != []
    ensures [Join(blocks[0])] + JoinAll(blocks[1..]) == JoinAll(blocks)
  {
  }

  lemma {:induction false} FeedInterleaved(mark: string -> Mark, separators: seq<seq<string>>, blocks: seq<seq<string>>)
    requires |separators| == |blocks| + 1
    requires AllBlocks(mark, blocks) && forall m :: m in separators ==> Unmarked(mark, m)
    ensures FeedAll(mark, Start, Interleave(separators, blocks)) == Scan(None, JoinAll(blocks))
  {
    if blocks == [] {
      assert separators[0] in separators;
      FeedUnmarked(mark, Start, separators[0]);
    } else {
      FeedInterleaved(mark, Init(separators), Init(blocks));
      FeedAnother(mark, JoinAll(Init(blocks)), Interleave(Init(separators), Init(blocks)), Last(blocks), Last(separators));
      JoinAllSnoc(blocks);
    }
  }

  lemma FeedAnother(mark: string -> Mark, found: seq<string>, head: seq<string>, block: seq<string>, separator: seq<string>)
    requires FeedAll(mark, Start, head) == Scan(None, found) && IsBlock(mark, block) && Unmarked(mark, separator)
    ensures FeedAll(mark, Start, head + block + separator) == Scan(None, found + [Join(block)])
  {
    FeedConcat(mark, Start, head + block, separator);
    FeedConcat(mark, Start, head, block);
    FeedBlock(mark, Scan(None, found), block);
    FeedUnmarked(mark, Scan(None, found + [Join(block)]), separator);
  }

  lemma {:induction false} InterleavedNoNewline(mark: string -> Mark, separators: seq<seq<string>>, blocks: seq<seq<string>>)
    requires |separators| == |blocks| + 1
    requires AllBlocks(mark, blocks) && forall m :: m in separators ==> NoNewline(m)
    ensures NoNewline(Interleave(separators, blocks))
  {
    if blocks != [] {
      InterleavedNoNewline(mark, Init(separators), Init(blocks));
    }
  }

  /** A text made of certificate blocks separated by lines without markers yields exactly those
      blocks, in order. */
  lemma RoundTrip(separators: seq<seq<string>>, blocks: seq<seq<string>>)
    requires |separators| == |blocks| + 1
    requires AllBlocks(MarkOf, blocks) && forall m :: m in separators ==> Unmarked(MarkOf, m) && NoNewline(m)
    ensures Extract(Join(Interleave(separators, blocks))) == JoinAll(blocks)
  {
    var lines := Interleave(separators, blocks);
    FeedInterleaved(MarkOf, separators, blocks);
    InterleavedNoNewline(MarkOf, separators, blocks);
    if lines == [] {
      assert Split(Join(lines)) == [""] && FeedAll(MarkOf, Start, []) == Start;
      assert Init([""]) == [] && Unmarked(MarkOf, [""]);
      FeedUnmarked(MarkOf, Start, [""]);
    } else {
      SplitJoin(lines);
    }
  }

  /** A certificate as it is written: the BEGIN line, any lines without a marker, the END line. */
  function Pem(body: seq<string>): seq<string> {
    ["-----BEGIN CERTIFICATE-----"] + body + ["-----END CERTIFICATE-----"]
  }

  /** No line of these carries a marker, as text. */
  ghost predicate PlainLines(lines: seq<string>) {
    && NoNewline(lines)
    && forall l :: l in lines ==> !Carries(l, "-----BEGIN CERTIFICATE-----") && !Carries(l, "-----END CERTIFICATE-----")
  }

  lemma PemIsBlock(body: seq<string>)
    requires PlainLines(body)
    ensures IsBlock(MarkOf, Pem(body)) && NoNewline(Pem(body))
  {
    MarkerLines();
    forall l | l in body ensures MarkOf(l) == Neither { MarksAre(l); }
    FramedIsBlock(MarkOf, BEGIN, body, END);
  }

  lemma MarkerLines()
    ensures MarkOf(BEGIN) == Begin && MarkOf(END) == End
    ensures '\n' !in BEGIN && '\n' !in END
  {
    WholeLine(BEGIN);
    WholeLine(END);
    MarksAre(BEGIN);
    MarksAre(END);
    Unbroken();
  }

  lemma WholeLine(marker: string)
    ensures Carries(marker, marker)
  {
    assert marker[..0] == "" && marker[0..] == marker && StandsAt(marker, marker, 0);
  }

  lemma Unbroken()
    ensures '\n' !in BEGIN && '\n' !in END
  {
    assert forall i :: 0 <= i < |BEGIN| ==> BEGIN[i] != '\n';
    assert forall i :: 0 <= i < |END| ==> END[i] != '\n';
  }

  lemma FramedIsBlock(mark: string -> Mark, first: string, body: seq<string>, last: string)
    requires mark(first) == Begin && mark(last) == End && Unmarked(mark, body)
    requires '\n' !in first && '\n' !in last && NoNewline(body)
    ensures IsBlock(mark, [first] + body + [last]) && NoNewline([first] + body + [last])
  {
    var lines := [first] + body + [last];
    assert lines[1..|lines| - 1] == body;
  }

  /** Certificates written down, with any text of unmarked lines before, between and after them,
      are extracted: exactly these, each whole, in order. */
  lemma WrittenCertificates(separators: seq<seq<string>>, bodies: seq<seq<string>>)
    requires |separators| == |bodies| + 1
    requires (forall m :: m in separators ==> PlainLines(m)) && (forall b :: b in bodies ==> PlainLines(b))
    ensures var pems := seq(|bodies|, i requires 0 <= i < |bodies| => Pem(bodies[i]));
            Extract(Join(Interleave(separators, pems))) == JoinAll(pems)
  {
    var pems := seq(|bodies|, i requires 0 <= i < |bodies| => Pem(bodies[i]));
    forall p | p in pems ensures IsBlock(MarkOf, p) && NoNewline(p) {
      var i :| 0 <= i < |pems| && pems[i] == p;
      PemIsBlock(bodies[i]);
    }
    forall m | m in separators ensures Unmarked(MarkOf, m) && NoNewline(m) {
      forall l | l in m ensures MarkOf(l) == Neither { MarksAre(l); }
    }
    RoundTrip(separators, pems);
  }

  /** Every extracted certificate is a block. */
  lemma ExtractedAreBlocks(text: string) returns (blocks: seq<seq<string>>)
    ensures AllBlocks(MarkOf, blocks) && Extract(text) == JoinAll(blocks)
  {
    var spans := ExtractsExactlyTheBlocks(text);
    blocks := CutBlocks(MarkOf, Split(text), spans);
  }

  lemma CutBlock(mark: string -> Mark, lines: seq<string>, s: Span)
    requires NoNewline(lines) && IsSpan(mark, lines, s)
    ensures IsBlock(mark, lines[s.first..s.last + 1]) && NoNewline(lines[s.first..s.last + 1])
  {
  }

  lemma CutBlocks(mark: string -> Mark, lines: seq<string>, spans: seq<Span>) returns (blocks: seq<seq<string>>)
    requires NoNewline(lines) && forall s :: s in spans ==> IsSpan(mark, lines, s)
    ensures AllBlocks(mark, blocks) && Cut(mark, lines, spans) == JoinAll(blocks)
  {
    blocks := seq(|spans|, i requires 0 <= i < |spans| =>
      assert IsSpan(mark, lines, spans[i]);
      lines[spans[i].first..spans[i].last + 1]);
    forall i | 0 <= i < |spans| ensures IsBlock(mark, blocks[i]) && NoNewline(blocks[i]) {
      CutBlock(mark, lines, spans[i]);
    }
  }

  lemma {:induction false} FeedListed(mark: string -> Mark, s: Scan, blocks: seq<seq<string>>)
    requires AllBlocks(mark, blocks) && mark("") == Neither
    ensures FeedAll(mark, s, Split(Listed(JoinAll(blocks)))).found == s.found + JoinAll(blocks)
    decreases blocks
  {
    if blocks == [] {
      FeedEmptyLine(mark, s);
      assert JoinAll(blocks) == [] && s.found + [] == s.found;
    } else {
      var rest := Split(Listed(JoinAll(blocks[1..])));
      ListedLines(mark, blocks);
      FeedConcat(mark, s, blocks[0], rest);
      FeedBlock(mark, s, blocks[0]);
      FeedListed(mark, Scan(None, s.found + [Join(blocks[0])]), blocks[1..]);
      FoundCons(s.found, blocks);
    }
  }

  lemma FeedEmptyLine(mark: string -> Mark, s: Scan)
    requires mark("") == Neither
    ensures FeedAll(mark, s, [""]).found == s.found
  {
    assert Unmarked(mark, [""]);
    FeedUnmarked(mark, s, [""]);
  }

  lemma FoundCons(found: seq<string>, blocks: seq<seq<string>>)
    requires blocks != []
    ensures (found + [Join(blocks[0])]) + JoinAll(blocks[1..]) == found + JoinAll(blocks)
  {
    JoinAllCons(blocks);
  }

  lemma ListedLines(mark: string -> Mark, blocks: seq<seq<string>>)
    requires AllBlocks(mark, blocks) && blocks != []
    ensures IsBlock(mark, blocks[0]) && AllBlocks(mark, blocks[1..])
    ensures Split(Listed(JoinAll(blocks))) == blocks[0] + Split(Listed(JoinAll(blocks[1..])))
  {
    JoinAllCons(blocks);
    assert blocks[0] in blocks;
    assert JoinAll(blocks)[1..] == JoinAll(blocks[1..]);
    SplitSeparated(Join(blocks[0]), Listed(JoinAll(blocks[1..])));
    SplitJoin(blocks[0]);
  }

  /** Extracting again from the written bundle yields the issuer file's blocks and then the
      response's, whatever the two texts are: an unfinished block at the end of the issuer's
      file swallows nothing. */
  lemma BundleRoundTrip(issuer: string, response: string)
    ensures Extract(Bundle(issuer, Extract(response))) == Extract(issuer) + Extract(response)
  {
    var blocks := ExtractedAreBlocks(response);
    SplitSeparated(issuer, Listed(JoinAll(blocks)));
    FeedConcat(MarkOf, Start, Split(issuer), Split(Listed(JoinAll(blocks))));
    FeedListed(MarkOf, FeedAll(MarkOf, Start, Split(issuer)), blocks);
  }
}
