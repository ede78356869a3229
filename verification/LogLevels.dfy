/** Level names that engine output carries as a text prefix. */
module LogLevels {
  import opened Options
  import opened Text

  datatype Level = Debug | Info | Warn | Error | Critical

  datatype Note = Note(level: Level, message: string)

  function LevelOf(word: string): Option<Level> {
    var w := Lower(word);
    if w == "debug" then Some(Debug)
    else if w == "info" then Some(Info)
    else if w == "warn" || w == "warning" then Some(Warn)
    else if w == "error" then Some(Error)
    else if w == "critical" then Some(Critical)
    else None
  }

  /** `split_level_prefix`: blanks, a bracketed level name in any case, blanks. */
  function SplitLevelPrefix(text: string): Note {
    var t := TrimLeft(text);
    if t == [] || t[0] != '[' || ']' !in t then Note(Info, text)
    else
      var word := Before(t[1..], ']');
      var level := LevelOf(word);
      if level.None? then Note(Info, text)
      else Note(level.value, TrimLeft(t[|word| + 2..]))
  }

  /** The level names, in any case: a word names one iff lower-casing it gives one of these. */
  lemma LevelNames(word: string)
    ensures LevelOf(word) == Some(Debug) <==> Lower(word) == "debug"
    ensures LevelOf(word) == Some(Info) <==> Lower(word) == "info"
    ensures LevelOf(word) == Some(Warn) <==> Lower(word) == "warn" || Lower(word) == "warning"
    ensures LevelOf(word) == Some(Error) <==> Lower(word) == "error"
    ensures LevelOf(word) == Some(Critical) <==> Lower(word) == "critical"
    ensures LevelOf(word) == None <==> Lower(word) !in {"debug", "info", "warn", "warning", "error", "critical"}
    ensures LevelOf(word) == LevelOf(Lower(word))
  {
    LowerTwice(word);
  }

  lemma {:induction false} LowerTwice(s: string)
    ensures Lower(Lower(s)) == Lower(s)
  {
    if s != [] {
      LowerTwice(s[1..]);
      assert Lower(s)[1..] == Lower(s[1..]);
    }
  }

  lemma {:induction false} TrimBlank(blank: string, s: string)
    requires Blank(blank) && (s == [] || !IsSpace(s[0]))
    ensures TrimLeft(blank + s) == s
  {
    if blank == [] {
      assert blank + s == s;
    } else {
      assert blank[0] in blank;
      assert (blank + s)[1..] == blank[1..] + s;
      TrimBlank(blank[1..], s);
    }
  }

  /** Only text is taken away, and only from the front. */
  lemma MessageIsSuffix(text: string) returns (k: nat)
    ensures k <= |text| && SplitLevelPrefix(text).message == text[k..]
  {
    var t := TrimLeft(text);
    if SplitLevelPrefix(text).message == text {
      k := 0;
    } else {
      k := SuffixOfTrimmed(text, |Before(t[1..], ']')| + 2);
    }
  }

  /** Trimming, cutting the front off and trimming again leaves a suffix. */
  lemma SuffixOfTrimmed(text: string, n: nat) returns (k: nat)
    requires n <= |TrimLeft(text)|
    ensures k <= |text| && TrimLeft(TrimLeft(text)[n..]) == text[k..]
  {
    var t := TrimLeft(text);
    LeftBlank(text);
    LeftBlank(t[n..]);
    k := |text| - |TrimLeft(t[n..])|;
  }

  /** A bracketed word at the front is stripped with the blanks around it, whatever its case
      and theirs, iff it names a level; otherwise the text stays whole. */
  lemma PrefixIsRead(before: string, word: string, after: string, message: string)
    requires Blank(before) && Blank(after) && ']' !in word && (message == [] || !IsSpace(message[0]))
    ensures var text := before + ("[" + word + "]" + (after + message));
            SplitLevelPrefix(text) == if LevelOf(word).Some? then Note(LevelOf(word).value, message) else Note(Info, text)
  {
    var t := "[" + word + "]" + (after + message);
    TrimBlank(before, t);
    BracketIsRead(word, after + message);
    TrimBlank(after, message);
    if LevelOf(word).Some? {
      assert t[|word| + 2..] == after + message;
    }
  }

  lemma BracketIsRead(word: string, rest: string)
    requires ']' !in word
    ensures var t := "[" + word + "]" + rest;
            t[0] == '[' && ']' in t && !IsSpace(t[0]) && Before(t[1..], ']') == word
  {
    var t := "[" + word + "]" + rest;
    assert t[|word| + 1] == ']';
    assert t[1..] == word + ("]" + rest);
    BeforeIs(word, ']', "]" + rest);
  }
}
