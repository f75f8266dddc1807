/**
 * The preprocessing stages of `src/text_preprocessing.py`, the revision the clustering driver
 * imports.
 *
 * The module-level name `pattern` is bound three times in that file: to a URL expression, then
 * to the stopword alternation, and last to `^[a-zA-Z0-9]+$`. `remove_url` and
 * `remove_stopwords` read `pattern` when they are called, which is after the module has been
 * loaded, so both of them substitute with the last binding. They are modelled that way here.
 */
module LaterStages {
  import opened Wrappers
  import opened Seqs
  import opened PyStr
  import opened Nlp
  import opened SharedStages
  import opened Pipeline

  // ---------------------------------------------------------------------------------------
  // The effective `pattern`: ^[a-zA-Z0-9]+$

  predicate AllAsciiAlnum(s: string) {
    forall i :: 0 <= i < |s| ==> IsAsciiAlnum(s[i])
  }

  /**
   * `^[a-zA-Z0-9]+$` matches the first `j` characters of `s`: without the MULTILINE flag `^`
   * holds only at position 0, and `$` holds at the end or just before a final newline.
   */
  predicate MatchesPrefix(s: string, j: int) {
    0 < j <= |s| && AllAsciiAlnum(s[..j]) && (j == |s| || (j == |s| - 1 && s[j] == '\n'))
  }

  /** `pattern.match(s)` succeeds. */
  predicate PatternMatches(s: string) {
    || (s != [] && AllAsciiAlnum(s))
    || (|s| >= 2 && s[|s| - 1] == '\n' && AllAsciiAlnum(s[..|s| - 1]))
  }

  lemma PatternMatchesIff(s: string)
    ensures PatternMatches(s) <==> exists j :: MatchesPrefix(s, j)
  {
    if s != [] && AllAsciiAlnum(s) {
      assert s[..|s|] == s;
      assert MatchesPrefix(s, |s|);
    } else if |s| >= 2 && s[|s| - 1] == '\n' && AllAsciiAlnum(s[..|s| - 1]) {
      assert MatchesPrefix(s, |s| - 1);
    }
  }

  /**
   * `pattern.sub('', s)`. The only possible match starts at position 0, so the text is either
   * deleted up to a final newline or returned unchanged.
   */
  function AnchoredSub(s: string): (r: string)
    ensures (forall j :: !MatchesPrefix(s, j)) ==> r == s
    ensures forall j :: MatchesPrefix(s, j) ==> r == s[j..]
    ensures r == s || r == "" || r == "\n"
  {
    if s != [] && AllAsciiAlnum(s) then
      assert s[..|s|] == s && MatchesPrefix(s, |s|);
      ""
    else if |s| >= 2 && s[|s| - 1] == '\n' && AllAsciiAlnum(s[..|s| - 1]) then
      assert MatchesPrefix(s, |s| - 1);
      "\n"
    else s
  }

  /** `remove_url`, as it behaves once `pattern` has been rebound. */
  function RemoveUrl(text: string): string
  {
    AnchoredSub(text)
  }

  /** `remove_stopwords`, as it behaves once `pattern` has been rebound; the stopword list is unused. */
  function RemoveStopwords(text: string): string
  {
    AnchoredSub(text)
  }

  /**
   * A text that is one ASCII word is deleted by both stages (a final newline survives), whether
   * or not it is a URL or a stopword.
   */
  lemma ShadowedStagesDeleteSingleWord(w: string)
    requires w != [] && AllAsciiAlnum(w)
    ensures RemoveUrl(w) == "" && RemoveStopwords(w) == ""
    ensures RemoveUrl(w + "\n") == "\n" && RemoveStopwords(w + "\n") == "\n"
  {
    assert (w + "\n")[..|w|] == w;
  }

  /** So a URL-free, stopword-free word such as `great` is deleted too. */
  lemma ShadowedStagesDeleteOrdinaryWord()
    ensures RemoveUrl("great") == "" && RemoveStopwords("great") == ""
  {
    ShadowedStagesDeleteSingleWord("great");
  }

  /** Anything else is returned unchanged: URLs and stopwords inside a longer text stay. */
  lemma ShadowedStagesKeepEverythingElse()
    ensures RemoveUrl("see https://x.io") == "see https://x.io"
    ensures RemoveStopwords("the cat") == "the cat"
  {
    assert !IsAsciiAlnum(' ');
    assert "see https://x.io"[3] == ' ';
    assert "the cat"[3] == ' ';
  }

  // ---------------------------------------------------------------------------------------
  // normalize_text: NFKD, then the translation table

  /** `CHAR_REPLACEMENTS`. */
  const CharReplacements: map<char, string> := map[
    '\U{2018}' := "'", '\U{2019}' := "'", '\U{201C}' := "\"", '\U{201D}' := "\"",
    '\U{2013}' := "-", '\U{2014}' := "-", '\U{2026}' := "...", '\U{A0}' := " ", '`' := "'"]

  function TranslateChar(c: char): (r: string)
    ensures forall i :: 0 <= i < |r| ==> r[i] !in CharReplacements
    ensures |r| == if c == '\U{2026}' then 3 else 1
  {
    if c in CharReplacements then CharReplacements[c] else [c]
  }

  /** Occurrences of `c` in `s`. */
  function Count(c: char, s: string): nat
  {
    if s == [] then 0 else (if s[0] == c then 1 else 0) + Count(c, s[1..])
  }

  /**
   * `text.translate(translation_table)`: each table key becomes its value, every other
   * character is kept. No value contains a key, so no key is left, and each ellipsis grows the
   * text by two characters.
   */
  function Translate(s: string): (r: string)
    ensures forall i :: 0 <= i < |r| ==> r[i] !in CharReplacements
    ensures |r| == |s| + 2 * Count('\U{2026}', s)
  {
    if s == [] then [] else TranslateChar(s[0]) + Translate(s[1..])
  }

  /** Translation works character by character: it distributes over concatenation. */
  lemma {:induction false} TranslateAppend(a: string, b: string)
    ensures Translate(a + b) == Translate(a) + Translate(b)
  {
    if a == [] {
      assert a + b == b;
    } else {
      assert (a + b)[1..] == a[1..] + b;
      TranslateAppend(a[1..], b);
    }
  }

  /** A text without table keys is left as it is. */
  lemma {:induction false} TranslateIdentity(s: string)
    requires forall i :: 0 <= i < |s| ==> s[i] !in CharReplacements
    ensures Translate(s) == s
  {
    if s != [] {
      TranslateIdentity(s[1..]);
    }
  }

  lemma TranslateIdempotent(s: string)
    ensures Translate(Translate(s)) == Translate(s)
  {
    TranslateIdentity(Translate(s));
  }

  /** `normalize_text`: NFKD normalisation (a library call), then the table. */
  function NormalizeText(tk: Toolkit, text: string): string
  {
    Translate(tk.nfkd(text))
  }

  // ---------------------------------------------------------------------------------------
  // chat_conversion: \b(key|key|...)\b, replaced through CHAT_WORDS

  /** An abbreviation table: the expansion of a key, `None` for a string that is not a key. */
  type Table = string -> Option<string>

  /** `CHAT_WORDS` of this revision: lower-case keys. */
  function ChatWords(key: string): Option<string>
  {
    match key
    case "afaik" => Some("as far as i know")
    case "afk" => Some("away from keyboard")
    case "asap" => Some("as soon as possible")
    case "atk" => Some("at the keyboard")
    case "atm" => Some("at the moment")
    case "a3" => Some("anytime, anywhere, anyplace")
    case "bak" => Some("back at keyboard")
    case "bbl" => Some("be back later")
    case "bbs" => Some("be back soon")
    case "bfn" => Some("bye for now")
    case "b4n" => Some("bye for now")
    case "brb" => Some("be right back")
    case "brt" => Some("be right there")
    case "btw" => Some("by the way")
    case "b4" => Some("before")
    case "cu" => Some("see you")
    case "cul8r" => Some("see you later")
    case "cya" => Some("see you")
    case "faq" => Some("frequently asked questions")
    case "fc" => Some("fingers crossed")
    case "fwiw" => Some("for what it's worth")
    case "fyi" => Some("for your information")
    case "gal" => Some("get a life")
    case "gg" => Some("good game")
    case "gn" => Some("good night")
    case "gmta" => Some("great minds think alike")
    case "gr8" => Some("great!")
    case "g9" => Some("genius")
    case "ic" => Some("i see")
    case "icq" => Some("i seek you (also a chat program)")
    case "ilu" => Some("i love you")
    case "imho" => Some("in my honest/humble opinion")
    case "imo" => Some("in my opinion")
    case "iow" => Some("in other words")
    case "irl" => Some("in real life")
    case "ldr" => Some("long distance relationship")
    case "lmao" => Some("laugh my ass off")
    case "lol" => Some("laughing out loud")
    case "ltns" => Some("long time no see")
    case "l8r" => Some("later")
    case "mte" => Some("my thoughts exactly")
    case "m8" => Some("mate")
    case "nrn" => Some("no reply necessary")
    case "oic" => Some("oh i see")
    case "pita" => Some("pain in the ass")
    case "prt" => Some("party")
    case "prw" => Some("parents are watching")
    case "qpsa" => Some("que pasa?")
    case "rofl" => Some("rolling on the floor laughing")
    case "roflol" => Some("rolling on the floor laughing out loud")
    case "rotflmao" => Some("rolling on the floor laughing my ass off")
    case "sk8" => Some("skate")
    case "stats" => Some("your sex and age")
    case "asl" => Some("age, sex, location")
    case "thx" => Some("thank you")
    case "ttfn" => Some("ta-ta for now")
    case "ttyl" => Some("talk to you later")
    case "u" => Some("you")
    case "u2" => Some("you too")
    case "u4e" => Some("yours for ever")
    case "wb" => Some("welcome back")
    case "wtf" => Some("what the fuck")
    case "wtg" => Some("way to go")
    case "wuf" => Some("where are you from?")
    case "w8" => Some("wait")
    case "7k" => Some("sick:-d laugher")
    case "tfw" => Some("that feeling when")
    case "mfw" => Some("my face when")
    case "mrw" => Some("my reaction when")
    case "ifyp" => Some("i feel your pain")
    case "tntl" => Some("trying not to laugh")
    case "jk" => Some("just kidding")
    case "idc" => Some("i do not care")
    case "ily" => Some("i love you")
    case "imu" => Some("i miss you")
    case "adih" => Some("another day in hell")
    case "zzz" => Some("sleeping, bored, tired")
    case "wywh" => Some("wish you were here")
    case "time" => Some("tears in my eyes")
    case "bae" => Some("before anyone else")
    case "fimh" => Some("forever in my heart")
    case "bsaaw" => Some("big smile and a wink")
    case "bwl" => Some("bursting with laughter")
    case "bff" => Some("best friends forever")
    case "csl" => Some("can't stop laughing")
    case "math" => Some("mathematics")
    case "rn" => Some("right now")
    case _ => None
  }

  /** Length of the maximal run at the start of `s` whose characters are all `\w` or all not `\w`. */
  function RunLen(tk: Toolkit, s: string): (n: nat)
    requires s != []
    ensures 1 <= n <= |s|
  {
    if |s| == 1 || IsWordChar(tk, s[1]) != IsWordChar(tk, s[0]) then 1 else 1 + RunLen(tk, s[1..])
  }

  /** The run is maximal: all of its characters are of the first one's class, the next is not. */
  lemma {:induction false} RunLenClass(tk: Toolkit, s: string)
    requires s != []
    ensures forall i :: 0 <= i < RunLen(tk, s) ==> IsWordChar(tk, s[i]) == IsWordChar(tk, s[0])
    ensures RunLen(tk, s) < |s| ==> IsWordChar(tk, s[RunLen(tk, s)]) != IsWordChar(tk, s[0])
  {
    if !(|s| == 1 || IsWordChar(tk, s[1]) != IsWordChar(tk, s[0])) {
      RunLenClass(tk, s[1..]);
    }
  }

  predicate SameClass(tk: Toolkit, r: string)
    requires r != []
  {
    forall i :: 0 <= i < |r| ==> IsWordChar(tk, r[i]) == IsWordChar(tk, r[0])
  }

  /**
   * `s` cut at every word boundary `\b`: maximal runs of word characters alternating with
   * maximal runs of other characters. Concatenated, the runs give back `s`.
   */
  function Runs(tk: Toolkit, s: string): (rs: seq<string>)
    decreases |s|
  {
    if s == [] then []
    else
      var n := RunLen(tk, s);
      [s[..n]] + Runs(tk, s[n..])
  }

  /** Concatenating the runs gives the text back. */
  lemma {:induction false} RunsFlatten(tk: Toolkit, s: string)
    ensures Flatten(Runs(tk, s)) == s
    decreases |s|
  {
    if s != [] {
      var n := RunLen(tk, s);
      RunsFlatten(tk, s[n..]);
      assert s == s[..n] + s[n..];
    }
  }

  /**
   * The runs are the maximal ones: each is non-empty and of one class (all `\w` or none), and
   * neighbouring runs are of different classes, so a boundary `\b` lies exactly between runs.
   */
  lemma {:induction false} RunsMaximal(tk: Toolkit, s: string)
    ensures forall i :: 0 <= i < |Runs(tk, s)| ==> Runs(tk, s)[i] != [] && SameClass(tk, Runs(tk, s)[i])
    ensures forall i :: 0 < i < |Runs(tk, s)| ==>
      IsWordChar(tk, Runs(tk, s)[i][0]) != IsWordChar(tk, Runs(tk, s)[i - 1][0])
    ensures Runs(tk, s) != [] ==> Runs(tk, s)[0][0] == s[0]
    decreases |s|
  {
    if s != [] {
      var n := RunLen(tk, s);
      RunLenClass(tk, s);
      RunsMaximal(tk, s[n..]);
      var rs := Runs(tk, s);
      assert rs == [s[..n]] + Runs(tk, s[n..]);
      assert Runs(tk, s[n..]) != [] ==> Runs(tk, s[n..])[0][0] == s[n];
    }
  }

  /**
   * A run of word characters that equals a key of `table` is replaced by its expansion; any
   * other run is kept. Runs of other characters are never looked up: `\b` cannot hold on both
   * sides of them.
   */
  function ExpandRun(tk: Toolkit, table: Table, r: string): string
  {
    if r != [] && IsWordChar(tk, r[0]) && table(r).Some? then table(r).value else r
  }

  function ExpandRuns(tk: Toolkit, table: Table, rs: seq<string>): string
  {
    if rs == [] then [] else ExpandRun(tk, table, rs[0]) + ExpandRuns(tk, table, rs[1..])
  }

  /** `re.compile(r'\b(' + '|'.join(keys) + r')\b').sub(lambda m: table[m.group(1)], text)`. */
  function ReplaceWholeWords(tk: Toolkit, table: Table, text: string): string
  {
    ExpandRuns(tk, table, Runs(tk, text))
  }

  /**
   * `chat_conversion`. Every key consists of word characters only, so `\bkey\b` matches exactly
   * a maximal word run equal to the key; the substitution makes one left-to-right pass and
   * never looks at the text it inserted.
   */
  function ChatConversion(tk: Toolkit, text: string): string
  {
    ReplaceWholeWords(tk, ChatWords, text)
  }

  lemma {:induction false} ExpandRunsAppend(tk: Toolkit, table: Table, xs: seq<string>, ys: seq<string>)
    ensures ExpandRuns(tk, table, xs + ys) == ExpandRuns(tk, table, xs) + ExpandRuns(tk, table, ys)
  {
    if xs == [] {
      assert xs + ys == ys;
      AppendEmpty(ExpandRuns(tk, table, ys));
    } else {
      var h := ExpandRun(tk, table, xs[0]);
      assert (xs + ys)[0] == xs[0];
      assert (xs + ys)[1..] == xs[1..] + ys;
      assert ExpandRuns(tk, table, xs + ys) == h + ExpandRuns(tk, table, xs[1..] + ys);
      ExpandRunsAppend(tk, table, xs[1..], ys);
      AppendAssoc(h, ExpandRuns(tk, table, xs[1..]), ExpandRuns(tk, table, ys));
    }
  }

  lemma {:induction false} ExpandRunsIdentity(tk: Toolkit, table: Table, rs: seq<string>)
    requires forall i :: 0 <= i < |rs| ==> table(rs[i]) == None
    ensures ExpandRuns(tk, table, rs) == Flatten(rs)
  {
    if rs != [] {
      ExpandRunsIdentity(tk, table, rs[1..]);
    }
  }

  /** A text in which no word run is a key comes back unchanged. */
  lemma ReplaceWithoutKey(tk: Toolkit, table: Table, text: string)
    requires forall i :: 0 <= i < |Runs(tk, text)| ==> table(Runs(tk, text)[i]) == None
    ensures ReplaceWholeWords(tk, table, text) == text
  {
    ExpandRunsIdentity(tk, table, Runs(tk, text));
    RunsFlatten(tk, text);
  }

  lemma {:induction false} RunLenWhole(tk: Toolkit, x: string, y: string)
    requires x != [] && RunLen(tk, x) == |x|
    requires y != [] ==> IsWordChar(tk, y[0]) != IsWordChar(tk, x[|x| - 1])
    ensures RunLen(tk, x + y) == |x|
  {
    var t := x + y;
    assert t[0] == x[0];
    if |x| == 1 {
      if y != [] {
        assert t[1] == y[0];
      }
    } else {
      assert t[1] == x[1];
      assert t[1..] == x[1..] + y;
      RunLenWhole(tk, x[1..], y);
    }
  }

  lemma {:induction false} RunLenPrefix(tk: Toolkit, x: string, y: string)
    requires x != [] && RunLen(tk, x) < |x|
    ensures RunLen(tk, x + y) == RunLen(tk, x)
  {
    var t := x + y;
    assert t[0] == x[0];
    assert t[1] == x[1];
    if !(IsWordChar(tk, x[1]) != IsWordChar(tk, x[0])) {
      assert t[1..] == x[1..] + y;
      RunLenPrefix(tk, x[1..], y);
    }
  }

  lemma RunsWholeFirst(tk: Toolkit, x: string, y: string)
    requires x != [] && RunLen(tk, x + y) == |x|
    ensures Runs(tk, x + y) == [x] + Runs(tk, y)
  {
    assert (x + y)[..|x|] == x;
    assert (x + y)[|x|..] == y;
  }

  lemma RunsSingle(tk: Toolkit, x: string)
    requires x != [] && RunLen(tk, x) == |x|
    ensures Runs(tk, x) == [x]
  {
    assert x[..|x|] == x;
    assert x[|x|..] == [];
  }

  lemma RunsSplitFirst(tk: Toolkit, x: string, y: string)
    requires x != [] && RunLen(tk, x + y) == RunLen(tk, x) < |x|
    ensures Runs(tk, x + y) == [x[..RunLen(tk, x)]] + Runs(tk, x[RunLen(tk, x)..] + y)
  {
    var n := RunLen(tk, x);
    assert (x + y)[..n] == x[..n];
    assert (x + y)[n..] == x[n..] + y;
  }

  /** Cutting at a boundary and cutting the two sides separately agree. */
  lemma {:induction false} RunsAtBoundary(tk: Toolkit, x: string, y: string)
    requires x != []
    requires y != [] ==> IsWordChar(tk, y[0]) != IsWordChar(tk, x[|x| - 1])
    ensures Runs(tk, x + y) == Runs(tk, x) + Runs(tk, y)
    decreases |x|
  {
    var n := RunLen(tk, x);
    if n == |x| {
      RunLenWhole(tk, x, y);
      RunsWholeFirst(tk, x, y);
      RunsSingle(tk, x);
    } else {
      RunLenPrefix(tk, x, y);
      RunsSplitFirst(tk, x, y);
      assert x[n..][|x[n..]| - 1] == x[|x| - 1];
      RunsAtBoundary(tk, x[n..], y);
    }
  }

  predicate AllWordChars(tk: Toolkit, w: string) {
    forall i :: 0 <= i < |w| ==> IsWordChar(tk, w[i])
  }

  lemma RunsOfWord(tk: Toolkit, w: string)
    requires w != [] && AllWordChars(tk, w)
    ensures Runs(tk, w) == [w]
  {
    RunLenClass(tk, w);
    assert RunLen(tk, w) == |w|;
    assert w[..|w|] == w;
    assert w[|w|..] == [];
  }

  lemma WordThenRest(tk: Toolkit, table: Table, w: string, b: string)
    requires w != [] && AllWordChars(tk, w)
    requires b != [] ==> !IsWordChar(tk, b[0])
    ensures ReplaceWholeWords(tk, table, w + b) == ExpandRun(tk, table, w) + ReplaceWholeWords(tk, table, b)
  {
    RunsOfWord(tk, w);
    RunsAtBoundary(tk, w, b);
    ExpandRunsAppend(tk, table, [w], Runs(tk, b));
    assert ExpandRuns(tk, table, [w]) == ExpandRun(tk, table, w) + ExpandRuns(tk, table, []);
  }

  lemma ReplaceAtBoundary(tk: Toolkit, table: Table, x: string, y: string)
    requires x != []
    requires y != [] ==> IsWordChar(tk, y[0]) != IsWordChar(tk, x[|x| - 1])
    ensures ReplaceWholeWords(tk, table, x + y) == ReplaceWholeWords(tk, table, x) + ReplaceWholeWords(tk, table, y)
  {
    RunsAtBoundary(tk, x, y);
    ExpandRunsAppend(tk, table, Runs(tk, x), Runs(tk, y));
  }

  lemma WordAfterBoundary(tk: Toolkit, table: Table, a: string, w: string, b: string)
    requires w != [] && AllWordChars(tk, w)
    requires a != [] && !IsWordChar(tk, a[|a| - 1])
    requires b != [] ==> !IsWordChar(tk, b[0])
    ensures ReplaceWholeWords(tk, table, a + (w + b)) ==
      ReplaceWholeWords(tk, table, a) + (ExpandRun(tk, table, w) + ReplaceWholeWords(tk, table, b))
  {
    WordThenRest(tk, table, w, b);
    assert (w + b)[0] == w[0];
    ReplaceAtBoundary(tk, table, a, w + b);
  }

  /**
   * Whole-word replacement: a complete word `w` (preceded and followed by a non-word character
   * or an end of the text) becomes its expansion if it equals a key exactly, and stays as it is
   * otherwise, so keys inside longer words and keys in another case are not touched; the text
   * on either side is converted independently.
   */
  lemma WholeWordReplacement(tk: Toolkit, table: Table, a: string, w: string, b: string)
    requires w != [] && AllWordChars(tk, w)
    requires a != [] ==> !IsWordChar(tk, a[|a| - 1])
    requires b != [] ==> !IsWordChar(tk, b[0])
    ensures ReplaceWholeWords(tk, table, a + w + b) ==
      ReplaceWholeWords(tk, table, a) + (if table(w).Some? then table(w).value else w) + ReplaceWholeWords(tk, table, b)
  {
    var ra, e, rb := ReplaceWholeWords(tk, table, a), ExpandRun(tk, table, w), ReplaceWholeWords(tk, table, b);
    AppendAssoc(a, w, b);
    AppendAssoc(ra, e, rb);
    if a == [] {
      WordThenRest(tk, table, w, b);
      AppendEmpty(w + b);
      AppendEmpty(e + rb);
      assert Runs(tk, a) == [];
    } else {
      WordAfterBoundary(tk, table, a, w, b);
    }
  }

  lemma SeparatorKept(tk: Toolkit, table: Table, s: string)
    requires s != [] && forall i :: 0 <= i < |s| ==> !IsWordChar(tk, s[i])
    ensures ReplaceWholeWords(tk, table, s) == s
  {
    RunLenClass(tk, s);
    RunsSingle(tk, s);
    assert ExpandRuns(tk, table, [s]) == ExpandRun(tk, table, s) + ExpandRuns(tk, table, []);
  }

  /** A word followed by non-word characters: the word is looked up, the rest is kept. */
  lemma WordThenSeparator(tk: Toolkit, table: Table, w: string, p: string)
    requires w != [] && AllWordChars(tk, w)
    requires forall i :: 0 <= i < |p| ==> !IsWordChar(tk, p[i])
    ensures ReplaceWholeWords(tk, table, w + p) == ExpandRun(tk, table, w) + p
  {
    WordThenRest(tk, table, w, p);
    if p == [] {
      assert Runs(tk, p) == [];
      AppendEmpty(ExpandRun(tk, table, w));
    } else {
      SeparatorKept(tk, table, p);
    }
  }

  /** A text that is one word run: the run is looked up as a whole. */
  lemma WordAlone(tk: Toolkit, table: Table, w: string)
    requires w != [] && AllWordChars(tk, w)
    ensures ReplaceWholeWords(tk, table, w) == ExpandRun(tk, table, w)
  {
    RunsOfWord(tk, w);
    assert ExpandRuns(tk, table, [w]) == ExpandRun(tk, table, w) + ExpandRuns(tk, table, []);
  }

  /**
   * Matching is exact and case-sensitive: `lol` expands, `LOL` is not a key, and the key `u`
   * inside the longer word `you` is left alone.
   */
  lemma ChatConversionWholeWordsOnly(tk: Toolkit)
    ensures ChatConversion(tk, "lol") == "laughing out loud"
    ensures ChatConversion(tk, "LOL") == "LOL"
    ensures ChatConversion(tk, "you") == "you"
  {
    ChatWordsLookups();
    AsciiWords(tk);
    WordAlone(tk, ChatWords, "lol");
    WordAlone(tk, ChatWords, "LOL");
    WordAlone(tk, ChatWords, "you");
  }

  lemma ChatWordsLookups()
    ensures ChatWords("lol") == Some("laughing out loud")
    ensures ChatWords("LOL") == None && ChatWords("you") == None
  {
  }

  lemma AsciiWords(tk: Toolkit)
    ensures AllWordChars(tk, "lol") && AllWordChars(tk, "LOL") && AllWordChars(tk, "you")
  {
  }

  /** `u` on its own expands, and so does `rn` followed by a non-word character. */
  lemma ChatConversionExamples(tk: Toolkit)
    ensures ChatConversion(tk, "u") == "you"
    ensures ChatConversion(tk, "rn!") == "right now!"
  {
    ExampleReplacements(tk, ChatWords);
  }

  lemma ExampleReplacements(tk: Toolkit, table: Table)
    requires table("u") == Some("you")
    requires table("rn") == Some("right now")
    ensures ReplaceWholeWords(tk, table, "u") == "you"
    ensures ReplaceWholeWords(tk, table, "rn!") == "right now!"
  {
    WordThenSeparator(tk, table, "u", "");
    WordThenSeparator(tk, table, "rn", "!");
    AppendEmpty("u");
    AppendEmpty("you");
    assert "rn" + "!" == "rn!";
    assert "right now" + "!" == "right now!";
  }

  // ---------------------------------------------------------------------------------------
  // tokenise, PROCESSES

  /** `tokenise`: the tokenizer's token texts that `pattern.match` accepts, in order. */
  function Tokenise(tk: Toolkit, text: string): (r: seq<string>)
    ensures forall i :: 0 <= i < |r| ==> PatternMatches(r[i])
  {
    Filter(PatternMatches, tk.tokenize(text))
  }

  /**
   * A token text survives `tokenise` exactly when the tokenizer produced it and
   * `^[a-zA-Z0-9]+$` matches it; the survivors keep their relative order (`Seqs.FilterAppend`).
   */
  lemma TokeniseKeepsMatchingTokens(tk: Toolkit, text: string)
    ensures forall t :: t in Tokenise(tk, text) <==> t in tk.tokenize(text) && exists j :: MatchesPrefix(t, j)
  {
    var ts, r := tk.tokenize(text), Tokenise(tk, text);
    forall t ensures t in r <==> t in ts && exists j :: MatchesPrefix(t, j) {
      PatternMatchesIff(t);
      if t in r {
        var i :| 0 <= i < |r| && r[i] == t;
        assert PatternMatches(r[i]);
      }
      if t in ts && PatternMatches(t) {
        var i :| 0 <= i < |ts| && ts[i] == t;
      }
    }
  }

  /** The entries of `PROCESSES`. */
  datatype Stage =
    | Lowercase | UrlRemoval | Demojizing | Normalization | PunctuationRemoval
    | ChatExpansion | StopwordRemoval | Tokenisation | Stemming

  /** `PROCESSES`, in order. */
  const Processes: seq<Stage> := [
    Lowercase, UrlRemoval, Demojizing, Normalization, PunctuationRemoval,
    ChatExpansion, StopwordRemoval, Tokenisation, Stemming]

  /**
   * One stage applied to one cell; `None` where Python raises a TypeError or AttributeError.
   * `chatWords` is the abbreviation table; the program's own is `ChatWords`.
   */
  function ApplyStage(tk: Toolkit, chatWords: Table, st: Stage, c: Cell): Option<Cell>
  {
    match c
    case Tokens(ts) =>
      if st == Stemming then Some(Text(StemWords(tk, ts))) else None
    case Text(s) =>
      match st
      case Lowercase => Some(Text(Lower(tk, s)))
      case UrlRemoval => Some(Text(RemoveUrl(s)))
      case Demojizing => Some(Text(tk.demojize(s)))
      case Normalization => Some(Text(NormalizeText(tk, s)))
      case PunctuationRemoval => Some(Text(RemovePunctuation(s)))
      case ChatExpansion => Some(Text(ReplaceWholeWords(tk, chatWords, s)))
      case StopwordRemoval => Some(Text(RemoveStopwords(s)))
      case Tokenisation => Some(Tokens(Tokenise(tk, s)))
      case Stemming => Some(Text(StemWords(tk, Chars(s))))
  }

  function Step(tk: Toolkit, chatWords: Table): (Stage, Cell) -> Option<Cell>
  {
    (st, c) => ApplyStage(tk, chatWords, st, c)
  }

  /** The composition `PROCESSES` stands for, written out. */
  function Clean(tk: Toolkit, chatWords: Table, text: string): string
  {
    var lowered := Lower(tk, text);
    var noUrl := RemoveUrl(lowered);
    var demojized := tk.demojize(noUrl);
    var normalized := NormalizeText(tk, demojized);
    var noPunct := RemovePunctuation(normalized);
    var expanded := ReplaceWholeWords(tk, chatWords, noPunct);
    var noStop := RemoveStopwords(expanded);
    var tokens := Tokenise(tk, noStop);
    StemWords(tk, tokens)
  }

  lemma StepIsApplyStage(tk: Toolkit, chatWords: Table, st: Stage, c: Cell)
    ensures Step(tk, chatWords)(st, c) == ApplyStage(tk, chatWords, st, c)
  {
  }

  /** The first five entries of `PROCESSES`: lower case up to punctuation removal. */
  lemma ProcessesFront(tk: Toolkit, chatWords: Table, text: string)
    ensures RunStages(Step(tk, chatWords), Processes[..5], Text(text)) ==
      Some(Text(RemovePunctuation(NormalizeText(tk, tk.demojize(RemoveUrl(Lower(tk, text)))))))
  {
    var step := Step(tk, chatWords);
    var lowered := Lower(tk, text);
    var noUrl := RemoveUrl(lowered);
    var demojized := tk.demojize(noUrl);
    var normalized := NormalizeText(tk, demojized);
    var cells := [Text(text), Text(lowered), Text(noUrl), Text(demojized), Text(normalized),
      Text(RemovePunctuation(normalized))];
    StepIsApplyStage(tk, chatWords, Lowercase, cells[0]);
    StepIsApplyStage(tk, chatWords, UrlRemoval, cells[1]);
    StepIsApplyStage(tk, chatWords, Demojizing, cells[2]);
    StepIsApplyStage(tk, chatWords, Normalization, cells[3]);
    StepIsApplyStage(tk, chatWords, PunctuationRemoval, cells[4]);
    RunStagesTrace(step, Processes[..5], cells);
  }

  /** The last four entries of `PROCESSES`: chat conversion up to stemming. */
  lemma ProcessesBack(tk: Toolkit, chatWords: Table, s: string)
    ensures RunStages(Step(tk, chatWords), Processes[5..], Text(s)) ==
      Some(Text(StemWords(tk, Tokenise(tk, RemoveStopwords(ReplaceWholeWords(tk, chatWords, s))))))
  {
    var step := Step(tk, chatWords);
    var expanded := ReplaceWholeWords(tk, chatWords, s);
    var noStop := RemoveStopwords(expanded);
    var tokens := Tokenise(tk, noStop);
    var cells := [Text(s), Text(expanded), Text(noStop), Tokens(tokens), Text(StemWords(tk, tokens))];
    StepIsApplyStage(tk, chatWords, ChatExpansion, cells[0]);
    StepIsApplyStage(tk, chatWords, StopwordRemoval, cells[1]);
    StepIsApplyStage(tk, chatWords, Tokenisation, cells[2]);
    StepIsApplyStage(tk, chatWords, Stemming, cells[3]);
    RunStagesTrace(step, Processes[5..], cells);
  }

  /**
   * Applying the `PROCESSES` entries one after another to a string never meets a type error,
   * and yields lower, `remove_url`, demojize, `normalize_text`, `remove_punctuation`,
   * `chat_conversion`, `remove_stopwords`, `tokenise`, `stem_words` composed in that order.
   */
  lemma ProcessesCompose(tk: Toolkit, chatWords: Table, text: string)
    ensures RunStages(Step(tk, chatWords), Processes, Text(text)) == Some(Text(Clean(tk, chatWords, text)))
  {
    ProcessesFront(tk, chatWords, text);
    ProcessesBack(tk, chatWords, RemovePunctuation(NormalizeText(tk, tk.demojize(RemoveUrl(Lower(tk, text))))));
    RunStagesAppend(Step(tk, chatWords), Processes[..5], Processes[5..], Text(text));
    assert Processes[..5] + Processes[5..] == Processes;
  }

  /** With libraries that map the empty text to the empty text, an empty comment cleans to "". */
  lemma CleanEmpty(tk: Toolkit, chatWords: Table)
    requires tk.demojize("") == "" && tk.nfkd("") == "" && tk.tokenize("") == []
    ensures Clean(tk, chatWords, "") == ""
  {
    assert Runs(tk, "") == [];
    assert Tokenise(tk, "") == [];
  }

  lemma ScenarioLowerAndPunctuation(tk: Toolkit)
    ensures RemovePunctuation(Lower(tk, "u rn!!")) == "u rn  "
  {
    var s := "u rn!!";
    assert AllAscii(s);
    assert Lower(tk, s) == s;
    var r := RemovePunctuation(s);
    assert r[4] == ' ' && r[5] == ' ';
    assert r == "u rn  ";
  }

  lemma ScenarioStrings()
    ensures "u" + " rn  " == "u rn  "
    ensures " " + "rn" + "  " == " rn  "
    ensures "you" + (" " + "right now" + "  ") == "you right now  "
  {
  }

  lemma ScenarioReplacement(tk: Toolkit, table: Table)
    requires table("u") == Some("you")
    requires table("rn") == Some("right now")
    ensures ReplaceWholeWords(tk, table, "u rn  ") == "you right now  "
  {
    ScenarioStrings();
    WordThenRest(tk, table, "u", " rn  ");
    WholeWordReplacement(tk, table, " ", "rn", "  ");
    SeparatorKept(tk, table, " ");
    SeparatorKept(tk, table, "  ");
  }

  /** `u rn!!` after lower, punctuation removal and chat conversion: both words expand. */
  lemma ChatScenario(tk: Toolkit)
    ensures ChatConversion(tk, RemovePunctuation(Lower(tk, "u rn!!"))) == "you right now  "
  {
    ScenarioLowerAndPunctuation(tk);
    ScenarioReplacement(tk, ChatWords);
  }

  /** Lowering leaves text that is ASCII without upper-case letters as it is. */
  lemma {:induction false} LowerOfLowerAscii(tk: Toolkit, s: string)
    requires forall i :: 0 <= i < |s| ==> IsAscii(s[i]) && !('A' <= s[i] <= 'Z')
    ensures Lower(tk, s) == s
  {
    assert AllAscii(s);
  }

  lemma UnknownWordLower(tk: Toolkit)
    ensures Lower(tk, "u r gr8!!") == "u r gr8!!"
  {
    LowerOfLowerAscii(tk, "u r gr8!!");
  }

  lemma UnknownWordPunctuation()
    ensures RemovePunctuation("u r gr8!!") == "u r gr8  "
  {
    var s, e := "u r gr8!!", "u r gr8  ";
    var r := RemovePunctuation(s);
    forall i | 0 <= i < |e| ensures r[i] == e[i] {
    }
  }

  lemma UnknownWordLowerAndPunctuation(tk: Toolkit)
    ensures RemovePunctuation(Lower(tk, "u r gr8!!")) == "u r gr8  "
  {
    UnknownWordLower(tk);
    UnknownWordPunctuation();
  }

  lemma UnknownWordLookups()
    ensures ChatWords("u") == Some("you")
    ensures ChatWords("r") == None
    ensures ChatWords("gr8") == Some("great!")
  {
  }

  lemma UnknownWordStrings()
    ensures " " + "gr8" + "  " == " gr8  " && " " + "great!" + "  " == " great!  "
    ensures " " + "r" + " gr8  " == " r gr8  " && " " + "r" + " great!  " == " r great!  "
    ensures "u" + " r gr8  " == "u r gr8  " && "you" + " r great!  " == "you r great!  "
  {
  }

  lemma LastWordReplacement(tk: Toolkit, table: Table)
    requires table("gr8") == Some("great!")
    ensures ReplaceWholeWords(tk, table, " gr8  ") == " great!  "
  {
    UnknownWordStrings();
    WholeWordReplacement(tk, table, " ", "gr8", "  ");
    SeparatorKept(tk, table, " ");
    SeparatorKept(tk, table, "  ");
  }

  lemma MiddleWordReplacement(tk: Toolkit, table: Table)
    requires table("r") == None
    requires table("gr8") == Some("great!")
    ensures ReplaceWholeWords(tk, table, " r gr8  ") == " r great!  "
  {
    UnknownWordStrings();
    WholeWordReplacement(tk, table, " ", "r", " gr8  ");
    SeparatorKept(tk, table, " ");
    LastWordReplacement(tk, table);
  }

  lemma UnknownWordReplacement(tk: Toolkit, table: Table)
    requires table("u") == Some("you")
    requires table("r") == None
    requires table("gr8") == Some("great!")
    ensures ReplaceWholeWords(tk, table, "u r gr8  ") == "you r great!  "
  {
    UnknownWordStrings();
    WordThenRest(tk, table, "u", " r gr8  ");
    MiddleWordReplacement(tk, table);
  }

  /**
   * `u r gr8!!` after lower, punctuation removal and chat conversion: `u` and `gr8` expand, but
   * `r` is not a key of the table, so it stays `r` (no `are` appears).
   */
  lemma ChatScenarioUnknownWord(tk: Toolkit)
    ensures ChatConversion(tk, RemovePunctuation(Lower(tk, "u r gr8!!"))) == "you r great!  "
  {
    UnknownWordLookups();
    UnknownWordLowerAndPunctuation(tk);
    UnknownWordReplacement(tk, ChatWords);
  }
}
