/** The string operations of the source that the models need: lower-casing, stripping, and
    cutting text into lines. */
module Text {
  import opened Sequences

  /** ASCII lower-casing. */
  function Lower(s: string): string {
    if s == [] then []
    else [if 'A' <= s[0] <= 'Z' then s[0] - 'A' + 'a' else s[0]] + Lower(s[1..])
  }

  /** Lower-casing goes character by character: capitals move to the small letters, 32 code
      points on, and everything else stays. */
  lemma {:induction false} LowerAt(s: string, i: nat)
    requires i < |s|
    ensures |Lower(s)| == |s|
    ensures Lower(s)[i] as int == s[i] as int + if 65 <= s[i] as int <= 90 then 32 else 0
  {
    if i > 0 {
      LowerAt(s[1..], i - 1);
    } else if |s| > 1 {
      LowerAt(s[1..], 0);
    }
  }

  predicate EndsWith(s: string, suffix: string) {
    |suffix| <= |s| && s[|s| - |suffix|..] == suffix
  }

  /** The characters before the first c; all of s if there is none. */
  function Before(s: string, c: char): (r: string)
    ensures r <= s && c !in r
    ensures c in s ==> |r| < |s| && s[|r|] == c
    ensures c !in s ==> r == s
  {
    if s == [] || s[0] == c then [] else
      var r := Before(s[1..], c);
      assert s[1..][..|r|] == r;
      [s[0]] + r
  }

  /** What comes before the first c when the text begins with a word that has none. */
  lemma {:induction false} BeforeIs(word: string, c: char, rest: string)
    requires c !in word && (rest == [] || rest[0] == c)
    ensures Before(word + rest, c) == word
  {
    if word == [] {
      assert word + rest == rest;
    } else {
      assert (word + rest)[1..] == word[1..] + rest;
      BeforeIs(word[1..], c, rest);
      assert [word[0]] + word[1..] == word;
    }
  }

  lemma CutAt(s: string, c: char, word: string)
    requires word <= s && |word| < |s| && s[|word|] == c
    ensures s == word + ([c] + s[|word| + 1..])
  {
    assert s[|word|..] == [c] + s[|word| + 1..];
    assert s == word + s[|word|..];
  }

  /** `sub in s` */
  predicate Contains(s: string, sub: string) {
    sub <= s || (s != [] && Contains(s[1..], sub))
  }

  /** What `str.strip` removes and `\s` matches. */
  predicate IsSpace(c: char) {
    || '\t' <= c <= '\r' || '\U{1c}' <= c <= ' ' || c in {'\U{85}', '\U{a0}', '\U{1680}'}
    || '\U{2000}' <= c <= '\U{200a}' || c in {'\U{2028}', '\U{2029}', '\U{202f}', '\U{205f}', '\U{3000}'}
  }

  function TrimLeft(s: string): string {
    if s != [] && IsSpace(s[0]) then TrimLeft(s[1..]) else s
  }

  function TrimRight(s: string): string {
    if s != [] && IsSpace(s[|s| - 1]) then TrimRight(s[..|s| - 1]) else s
  }

  function Strip(s: string): string {
    TrimRight(TrimLeft(s))
  }

  predicate Blank(s: string) {
    forall c :: c in s ==> IsSpace(c)
  }

  lemma {:induction false} LeftBlank(s: string)
    ensures var n := |s| - |TrimLeft(s)|;
            0 <= n <= |s| && TrimLeft(s) == s[n..] && Blank(s[..n]) && (TrimLeft(s) == [] || !IsSpace(TrimLeft(s)[0]))
  {
    if s != [] && IsSpace(s[0]) {
      LeftBlank(s[1..]);
      var n := |s| - |TrimLeft(s)|;
      assert s[..n] == [s[0]] + s[1..][..n - 1];
    }
  }

  lemma {:induction false} RightBlank(s: string)
    ensures |TrimRight(s)| <= |s| && TrimRight(s) == s[..|TrimRight(s)|] && Blank(s[|TrimRight(s)|..])
    ensures TrimRight(s) == [] || !IsSpace(Last(TrimRight(s)))
  {
    if s != [] && IsSpace(Last(s)) {
      RightBlank(Init(s));
      assert s[|TrimRight(s)|..] == Init(s)[|TrimRight(s)|..] + [Last(s)];
    }
  }

  /** Stripping takes away blanks, all of them, at both ends and nowhere else. */
  lemma StripIs(s: string) returns (i: nat, j: nat)
    ensures i <= j <= |s| && Strip(s) == s[i..j] && Blank(s[..i]) && Blank(s[j..])
    ensures i < j ==> !IsSpace(s[i]) && !IsSpace(s[j - 1])
  {
    var t := TrimLeft(s);
    LeftBlank(s);
    RightBlank(t);
    i := |s| - |t|;
    j := i + |TrimRight(t)|;
    assert s[i..j] == t[..|TrimRight(t)|] && s[j..] == t[|TrimRight(t)|..];
  }

  /** `sub in s` says that it occurs at some position. */
  lemma {:induction false} ContainsIff(s: string, sub: string)
    ensures Contains(s, sub) <==> exists k: nat :: Occurs(s, sub, k)
  {
    assert s[0..] == s;
    if sub <= s {
      assert Occurs(s, sub, 0);
    } else if s != [] {
      ContainsIff(s[1..], sub);
      forall k: nat | Occurs(s[1..], sub, k) ensures Occurs(s, sub, k + 1) {
        assert s[1..][k..] == s[k + 1..];
      }
      forall k: nat | Occurs(s, sub, k) ensures k > 0 && Occurs(s[1..], sub, k - 1) {
        if k > 0 { assert s[1..][k - 1..] == s[k..]; }
      }
      assert (exists k: nat :: Occurs(s, sub, k)) ==> exists k: nat :: Occurs(s[1..], sub, k);
    }
  }

  predicate Occurs(s: string, sub: string, k: nat) {
    k <= |s| && sub <= s[k..]
  }

  // ---- lines ---------------------------------------------------------------------------

  /** `text.split("\n")` */
  function Split(text: string): (lines: seq<string>)
    ensures lines != []
    ensures forall l :: l in lines ==> '\n' !in l
    decreases |text|
  {
    if text == [] then [""]
    else if text[0] == '\n' then [""] + Split(text[1..])
    else Prepend(text[0], Split(text[1..]))
  }

  function Prepend(c: char, lines: seq<string>): (r: seq<string>)
    requires lines != []
    ensures r != []
  {
    [[c] + lines[0]] + lines[1..]
  }

  /** `"\n".join(lines)` */
  function Join(lines: seq<string>): string {
    if lines == [] then [] else if |lines| == 1 then lines[0] else lines[0] + "\n" + Join(lines[1..])
  }

  /** Writing more text only extends the last, unfinished line. */
  lemma {:induction false} SplitAppend(a: string, b: string)
    ensures Split(a + b) == Init(Split(a)) + Split(Last(Split(a)) + b)
    decreases |a|
  {
    if a == [] {
      assert a + b == b && "" + b == b;
    } else {
      assert (a + b)[1..] == a[1..] + b;
      SplitAppend(a[1..], b);
      if a[0] == '\n' {
        SplitAfterNewline(Split(a[1..]));
      } else {
        SplitAfterLetter(a[0], Split(a[1..]), b);
      }
    }
  }

  lemma SplitAfterNewline(rest: seq<string>)
    requires rest != []
    ensures Init([""] + rest) == [""] + Init(rest) && Last([""] + rest) == Last(rest)
  {
  }

  lemma SplitAfterLetter(c: char, rest: seq<string>, b: string)
    requires rest != [] && c != '\n'
    ensures Prepend(c, Init(rest) + Split(Last(rest) + b)) == Init(Prepend(c, rest)) + Split(Last(Prepend(c, rest)) + b)
  {
    if |rest| == 1 {
      var line := [c] + rest[0] + b;
      assert line[1..] == rest[0] + b;
      assert Init(rest) + Split(rest[0] + b) == Split(rest[0] + b);
      assert Init(Prepend(c, rest)) + Split(line) == Split(line);
    } else {
      assert Init(Prepend(c, rest)) == Prepend(c, Init(rest));
    }
  }

  lemma {:induction false} SplitUnbroken(line: string)
    requires '\n' !in line
    ensures Split(line) == [line]
  {
    if line != [] {
      SplitUnbroken(line[1..]);
      assert [line[0]] + line[1..] == line;
    }
  }

  /** A newline between two texts separates their lines. */
  lemma SplitSeparated(a: string, b: string)
    ensures Split(a + "\n" + b) == Split(a) + Split(b)
  {
    var lines := Split(a);
    Assoc(a, "\n", b);
    SplitAppend(a, "\n" + b);
    SplitLine(Last(lines), b);
    InitLast(lines);
    Assoc(Init(lines), [Last(lines)], Split(b));
  }

  lemma {:induction false} SplitLine(line: string, rest: string)
    requires '\n' !in line
    ensures Split(line + ("\n" + rest)) == [line] + Split(rest)
  {
    var whole := line + ("\n" + rest);
    if line == [] {
      assert whole == "\n" + rest && whole[1..] == rest;
    } else {
      assert whole[1..] == line[1..] + ("\n" + rest);
      SplitLine(line[1..], rest);
      assert [line[0]] + line[1..] == line;
    }
  }

  lemma {:induction false} SplitJoin(lines: seq<string>)
    requires lines != [] && forall l :: l in lines ==> '\n' !in l
    ensures Split(Join(lines)) == lines
  {
    if |lines| == 1 {
      SplitUnbroken(lines[0]);
    } else {
      SplitJoin(lines[1..]);
      assert Join(lines) == lines[0] + ("\n" + Join(lines[1..]));
      SplitLine(lines[0], Join(lines[1..]));
    }
  }
}
