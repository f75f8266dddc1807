/**
 * The preprocessing stages of the top-level `text_preprocessing.py`, the earlier revision: a
 * URL expression of its own, split-based chat conversion and stopword removal, and a
 * `PROCESSES` order with spelling correction.
 */
module EarlierStages {
  import opened Wrappers
  import opened Seqs
  import opened PyStr
  import opened Nlp
  import opened SharedStages
  import opened Pipeline

  // ---------------------------------------------------------------------------------------
  // remove_url: https?://\S+|www\.\S+

  /** `t` begins with `pre`. */
  predicate StartsWith(t: string, pre: string) {
    |pre| <= |t| && forall i :: 0 <= i < |pre| ==> t[i] == pre[i]
  }

  /**
   * Length of the fixed part of the expression found at the front of `t`: `https://`,
   * `http://` or `www.`, in the order the alternation and `s?` try them; 0 if none.
   */
  function UrlPrefixLen(t: string): nat
  {
    if StartsWith(t, "https://") then 8
    else if StartsWith(t, "http://") then 7
    else if StartsWith(t, "www.") then 4
    else 0
  }

  /**
   * Length of the match at the front of `t`, 0 if there is none: the fixed part followed by
   * the longest non-empty run of non-whitespace (`\S+` is greedy). When `https://` is followed
   * by whitespace the shorter `http` alternative cannot match either, since `t[4]` is `s`.
   */
  function UrlMatchLen(t: string): (m: nat)
    ensures m <= |t|
    ensures m > 0 ==> 0 < UrlPrefixLen(t) < m && (m == |t| || IsSpace(t[m]))
  {
    var p := UrlPrefixLen(t);
    if 0 < p < |t| && !IsSpace(t[p]) then p + WordLen(t[p..]) else 0
  }

  /** `remove_url`: `re.sub` scans from the left and deletes each match it finds. */
  function RemoveUrl(s: string): (r: string)
    ensures |r| <= |s|
    decreases |s|
  {
    if s == [] then []
    else
      var m := UrlMatchLen(s);
      if m > 0 then RemoveUrl(s[m..]) else [s[0]] + RemoveUrl(s[1..])
  }

  /** No position of `t` starts a match. */
  predicate NoUrl(t: string) {
    forall i :: 0 <= i < |t| ==> UrlMatchLen(t[i..]) == 0
  }

  /** A text starting with whitespace starts no match, and its first character is kept. */
  lemma SpaceFirst(t: string)
    requires t != [] && IsSpace(t[0])
    ensures UrlMatchLen(t) == 0
    ensures RemoveUrl(t) == [t[0]] + RemoveUrl(t[1..])
  {
    assert UrlPrefixLen(t) == 0;
  }

  /** The fixed parts contain no whitespace. */
  lemma PrefixNoSpace(t: string)
    ensures forall i :: 0 <= i < UrlPrefixLen(t) ==> !IsSpace(t[i])
  {
  }

  /** Two texts that agree beyond the fixed part found in the first have the same fixed part. */
  lemma PrefixAgree(t: string, u: string, k: nat)
    requires k <= |t| && k <= |u| && forall i :: 0 <= i < k ==> t[i] == u[i]
    requires 0 < UrlPrefixLen(t) < k
    ensures UrlPrefixLen(u) == UrlPrefixLen(t)
  {
    var p := UrlPrefixLen(t);
    if p == 8 {
      assert StartsWith(u, "https://");
    } else if p == 7 {
      assert StartsWith(u, "http://");
      assert u[4] == t[4] == ':';
    } else {
      assert StartsWith(u, "www.");
      assert u[0] == t[0] == 'w';
    }
  }

  lemma PrefixOfPrefix(x: string, y: string, n: nat, k: nat)
    requires k <= n <= |x| && n <= |y| && x[..n] == y[..n]
    ensures x[..k] == y[..k] && forall i :: 0 <= i < k ==> x[i] == y[i]
  {
    assert forall i :: 0 <= i < k ==> x[i] == x[..n][i] && y[i] == y[..n][i];
  }

  lemma ConsPrefix(c: char, x: string, y: string, k: nat)
    requires k <= |x| && k <= |y| && x[..k] == y[..k]
    ensures ([c] + x)[..k + 1] == ([c] + y)[..k + 1]
  {
    assert ([c] + x)[..k + 1] == [c] + x[..k];
    assert ([c] + y)[..k + 1] == [c] + y[..k];
  }

  lemma WordLenCons(c: char, x: string)
    requires !IsSpace(c)
    ensures WordLen([c] + x) == 1 + WordLen(x)
  {
    assert ([c] + x)[1..] == x;
  }

  /**
   * What `remove_url` keeps of the first word of `s` is a prefix of that word: a deletion
   * runs to the next whitespace.
   */
  lemma {:induction false} KeptWordPrefix(s: string)
    ensures WordLen(RemoveUrl(s)) <= WordLen(s)
    ensures RemoveUrl(s)[..WordLen(RemoveUrl(s))] == s[..WordLen(RemoveUrl(s))]
    decreases |s|
  {
    if s != [] {
      var m := UrlMatchLen(s);
      if m > 0 {
        if m < |s| {
          SpaceFirst(s[m..]);
        }
      } else if !IsSpace(s[0]) {
        var r' := RemoveUrl(s[1..]);
        KeptWordPrefix(s[1..]);
        assert s == [s[0]] + s[1..];
        WordLenCons(s[0], r');
        WordLenCons(s[0], s[1..]);
        ConsPrefix(s[0], r', s[1..], WordLen(r'));
      }
    }
  }

  /** A match in what `remove_url` returned was already a match at the front of the input. */
  lemma KeptMatchWasThere(s: string)
    ensures UrlMatchLen(RemoveUrl(s)) > 0 ==> UrlMatchLen(s) > 0
  {
    var r := RemoveUrl(s);
    var p := UrlPrefixLen(r);
    if UrlMatchLen(r) > 0 {
      PrefixNoSpace(r);
      assert WordLen(r) > p;
      KeptWordPrefix(s);
      PrefixOfPrefix(r, s, WordLen(r), p + 1);
      PrefixAgree(r, s, p + 1);
    }
  }

  lemma NoUrlAtFront(s: string)
    ensures UrlMatchLen(RemoveUrl(s)) == 0
  {
    if s != [] {
      var m := UrlMatchLen(s);
      if m > 0 {
        if m < |s| {
          SpaceFirst(s[m..]);
          SpaceFirst(RemoveUrl(s));
        }
      } else {
        KeptMatchWasThere(s);
      }
    }
  }

  /** Nothing the expression matches is left after `remove_url`. */
  lemma {:induction false} NoUrlLeft(s: string)
    ensures NoUrl(RemoveUrl(s))
    decreases |s|
  {
    if s != [] {
      var m := UrlMatchLen(s);
      if m > 0 {
        NoUrlLeft(s[m..]);
      } else {
        var r, r' := RemoveUrl(s), RemoveUrl(s[1..]);
        NoUrlLeft(s[1..]);
        NoUrlAtFront(s);
        forall i | 0 <= i < |r| ensures UrlMatchLen(r[i..]) == 0 {
          if i > 0 {
            assert r[i..] == r'[i - 1..];
          }
        }
      }
    }
  }

  /** A text without a match is returned unchanged. */
  lemma {:induction false} NoUrlUnchanged(t: string)
    requires NoUrl(t)
    ensures RemoveUrl(t) == t
    decreases |t|
  {
    if t != [] {
      assert t[0..] == t;
      assert NoUrl(t[1..]) by {
        forall i | 0 <= i < |t[1..]| ensures UrlMatchLen(t[1..][i..]) == 0 {
          assert t[1..][i..] == t[i + 1..];
        }
      }
      NoUrlUnchanged(t[1..]);
    }
  }

  /** A match anywhere in `t` makes `remove_url` delete something. */
  lemma {:induction false} MatchShortens(t: string, i: nat)
    requires i < |t| && UrlMatchLen(t[i..]) > 0
    ensures |RemoveUrl(t)| < |t|
    decreases i
  {
    if UrlMatchLen(t) == 0 {
      assert i > 0 by {
        assert t[0..] == t;
      }
      assert t[1..][i - 1..] == t[i..];
      MatchShortens(t[1..], i - 1);
    }
  }

  /** The texts `remove_url` leaves as they are are exactly those without a match. */
  lemma UnchangedIffNoUrl(t: string)
    ensures RemoveUrl(t) == t <==> NoUrl(t)
  {
    if NoUrl(t) {
      NoUrlUnchanged(t);
    } else {
      var i :| 0 <= i < |t| && UrlMatchLen(t[i..]) != 0;
      MatchShortens(t, i);
    }
  }

  /** Where no match starts at the front, the first character is kept. */
  lemma KeptFirst(s: string)
    requires s != [] && UrlMatchLen(s[0..]) == 0
    ensures RemoveUrl(s) == [s[0]] + RemoveUrl(s[1..])
  {
    assert s[0..] == s;
  }

  lemma NoMatchShift(s: string, k: nat)
    requires 0 < k <= |s|
    requires forall i :: 0 <= i < k ==> UrlMatchLen(s[i..]) == 0
    ensures forall i :: 0 <= i < k - 1 ==> UrlMatchLen(s[1..][i..]) == 0
  {
    forall i | 0 <= i < k - 1 ensures UrlMatchLen(s[1..][i..]) == 0 {
      assert s[1..][i..] == s[i + 1..];
    }
  }

  lemma SliceAfterFirst(s: string, k: nat)
    requires 0 < k <= |s|
    ensures s[..k] == [s[0]] + s[1..][..k - 1] && s[1..][k - 1..] == s[k..]
  {
  }

  /**
   * Characters in front of the first match are kept as they are: `re.sub` copies the text
   * before a match and deletes only the match.
   */
  lemma {:induction false} KeepsBeforeMatch(s: string, k: nat)
    requires k <= |s|
    requires forall i :: 0 <= i < k ==> UrlMatchLen(s[i..]) == 0
    ensures RemoveUrl(s) == s[..k] + RemoveUrl(s[k..])
    decreases k
  {
    if k > 0 {
      var t := s[1..];
      KeptFirst(s);
      NoMatchShift(s, k);
      KeepsBeforeMatch(t, k - 1);
      SliceAfterFirst(s, k);
      AppendAssoc([s[0]], t[..k - 1], RemoveUrl(s[k..]));
    } else {
      assert s[..0] == [];
      AppendEmpty(RemoveUrl(s));
    }
  }

  /**
   * In a word without whitespace the first match runs to the end of the word, so exactly the
   * characters before it remain: `abhttp://x` becomes `ab`.
   */
  lemma RemoveUrlKeepsBeforeMatch(w: string, k: nat)
    requires NoSpace(w) && k < |w|
    requires UrlMatchLen(w[k..]) > 0
    requires forall i :: 0 <= i < k ==> UrlMatchLen(w[i..]) == 0
    ensures RemoveUrl(w) == w[..k]
  {
    KeepsBeforeMatch(w, k);
    var t := w[k..];
    assert NoSpace(t);
    var m := UrlMatchLen(t);
    assert m == |t|;
    assert t[m..] == [];
    AppendEmpty(w[..k]);
  }

  /** `remove_url` is idempotent. */
  lemma RemoveUrlIdempotent(s: string)
    ensures RemoveUrl(RemoveUrl(s)) == RemoveUrl(s)
  {
    NoUrlLeft(s);
    NoUrlUnchanged(RemoveUrl(s));
  }

  lemma StartsWithBeforeSpace(a: string, c: char, b: string, pre: string)
    requires IsSpace(c) && NoSpace(pre)
    ensures StartsWith(a + [c] + b, pre) <==> StartsWith(a, pre)
  {
    var t := a + [c] + b;
    if |pre| <= |a| {
      assert forall i :: 0 <= i < |pre| ==> t[i] == a[i];
    } else {
      assert !IsSpace(pre[|a|]) && t[|a|] == c;
    }
  }

  lemma {:induction false} WordLenBeforeSpaceChar(x: string, c: char, y: string)
    requires IsSpace(c)
    ensures WordLen(x + [c] + y) == WordLen(x)
    decreases |x|
  {
    if x != [] && !IsSpace(x[0]) {
      assert (x + [c] + y)[1..] == x[1..] + [c] + y;
      WordLenBeforeSpaceChar(x[1..], c, y);
    }
  }

  lemma PrefixBeforeSpace(a: string, c: char, b: string)
    requires IsSpace(c)
    ensures UrlPrefixLen(a + [c] + b) == UrlPrefixLen(a) <= |a|
  {
    StartsWithBeforeSpace(a, c, b, "https://");
    StartsWithBeforeSpace(a, c, b, "http://");
    StartsWithBeforeSpace(a, c, b, "www.");
  }

  /** A match never reaches over whitespace. */
  lemma MatchBeforeSpace(a: string, c: char, b: string)
    requires IsSpace(c)
    ensures UrlMatchLen(a + [c] + b) == UrlMatchLen(a)
  {
    var t := a + [c] + b;
    PrefixBeforeSpace(a, c, b);
    var p := UrlPrefixLen(a);
    if 0 < p < |a| {
      assert t[p] == a[p];
      assert t[p..] == a[p..] + [c] + b;
      WordLenBeforeSpaceChar(a[p..], c, b);
    } else if p == |a| {
      assert t[p] == c;
    }
  }

  /**
   * `remove_url` treats the texts on the two sides of a whitespace character independently
   * and keeps the whitespace itself.
   */
  lemma {:induction false} RemoveUrlAroundSpace(a: string, c: char, b: string)
    requires IsSpace(c)
    ensures RemoveUrl(a + [c] + b) == RemoveUrl(a) + [c] + RemoveUrl(b)
    decreases |a|
  {
    var t := a + [c] + b;
    if a == [] {
      assert t == [c] + b;
      SpaceFirst(t);
      assert t[1..] == b;
    } else {
      MatchBeforeSpace(a, c, b);
      var m := UrlMatchLen(a);
      if m > 0 {
        assert t[m..] == a[m..] + [c] + b;
        RemoveUrlAroundSpace(a[m..], c, b);
        DeletedFront(a, c, b, m);
      } else {
        assert t[1..] == a[1..] + [c] + b;
        RemoveUrlAroundSpace(a[1..], c, b);
        KeptFront(a, c, b);
      }
    }
  }

  lemma DeletedFront(a: string, c: char, b: string, m: nat)
    requires 0 < m <= |a| && UrlMatchLen(a) == m && UrlMatchLen(a + [c] + b) == m
    requires (a + [c] + b)[m..] == a[m..] + [c] + b
    requires RemoveUrl(a[m..] + [c] + b) == RemoveUrl(a[m..]) + [c] + RemoveUrl(b)
    ensures RemoveUrl(a + [c] + b) == RemoveUrl(a) + [c] + RemoveUrl(b)
  {
  }

  lemma KeptFront(a: string, c: char, b: string)
    requires a != [] && UrlMatchLen(a) == 0 && UrlMatchLen(a + [c] + b) == 0
    requires (a + [c] + b)[1..] == a[1..] + [c] + b
    requires RemoveUrl(a[1..] + [c] + b) == RemoveUrl(a[1..]) + [c] + RemoveUrl(b)
    ensures RemoveUrl(a + [c] + b) == RemoveUrl(a) + [c] + RemoveUrl(b)
  {
    AppendAssoc([a[0]], RemoveUrl(a[1..]) + [c], RemoveUrl(b));
    AppendAssoc([a[0]], RemoveUrl(a[1..]), [c]);
  }

  /** A link between words goes, with the words' own spacing kept around it. */
  lemma RemoveUrlExample()
    ensures RemoveUrl("see www.x.io now") == "see  now"
  {
    ExampleStrings();
    RemoveUrlAroundSpace("see", ' ', "www.x.io now");
    RemoveUrlAroundSpace("www.x.io", ' ', "now");
    ExampleWords();
    ExampleLink();
  }

  lemma ExampleStrings()
    ensures "see" + [' '] + "www.x.io now" == "see www.x.io now"
    ensures "www.x.io" + [' '] + "now" == "www.x.io now"
    ensures "see" + [' '] + ([] + [' '] + "now") == "see  now"
  {
  }

  lemma ExampleWords()
    ensures RemoveUrl("see") == "see" && RemoveUrl("now") == "now"
  {
  }

  lemma ExampleLink()
    ensures RemoveUrl("www.x.io") == []
  {
    var t := "www.x.io";
    assert t[0] == 'w' && t[4] == 'x';
    assert StartsWith(t, "www.");
    assert UrlPrefixLen(t) == 4;
    assert t[4..] == "x.io";
    assert WordLen("x.io") == 4;
    assert UrlMatchLen(t) == 8;
    assert t[8..] == [];
  }

  // ---------------------------------------------------------------------------------------
  // chat_conversion: split, look up each token's upper case, join

  /** `CHAT_WORDS` of this revision: upper-case keys; `None` for a string that is not a key. */
  function ChatWords(key: string): Option<string>
  {
    match key
    case "AFAIK" => Some("as far as i know")
    case "AFK" => Some("away from keyboard")
    case "ASAP" => Some("as soon as possible")
    case "ATK" => Some("at the keyboard")
    case "ATM" => Some("at the moment")
    case "A3" => Some("anytime, anywhere, anyplace")
    case "BAK" => Some("back at keyboard")
    case "BBL" => Some("be back later")
    case "BBS" => Some("be back soon")
    case "BFN" => Some("bye for now")
    case "B4N" => Some("bye for now")
    case "BRB" => Some("be right back")
    case "BRT" => Some("be right there")
    case "BTW" => Some("by the way")
    case "B4" => Some("before")
    case "CU" => Some("see you")
    case "CUL8R" => Some("see you later")
    case "CYA" => Some("see you")
    case "FAQ" => Some("frequently asked questions")
    case "FC" => Some("fingers crossed")
    case "FWIW" => Some("for what it's worth")
    case "FYI" => Some("for your information")
    case "GAL" => Some("get a life")
    case "GG" => Some("good game")
    case "GN" => Some("good night")
    case "GMTA" => Some("great minds think alike")
    case "GR8" => Some("great!")
    case "G9" => Some("genius")
    case "IC" => Some("i see")
    case "ICQ" => Some("i seek you (also a chat program)")
    case "ILU" => Some("i love you")
    case "IMHO" => Some("in my honest/humble opinion")
    case "IMO" => Some("in my opinion")
    case "IOW" => Some("in other words")
    case "IRL" => Some("in real life")
    case "KISS" => Some("keep it simple, stupid")
    case "LDR" => Some("long distance relationship")
    case "LMAO" => Some("laugh my ass off")
    case "LOL" => Some("laughing out loud")
    case "LTNS" => Some("long time no see")
    case "L8R" => Some("later")
    case "MTE" => Some("my thoughts exactly")
    case "M8" => Some("mate")
    case "NRN" => Some("no reply necessary")
    case "OIC" => Some("oh i see")
    case "PITA" => Some("pain in the ass")
    case "PRT" => Some("party")
    case "PRW" => Some("parents are watching")
    case "QPSA" => Some("que pasa?")
    case "ROFL" => Some("rolling on the floor laughing")
    case "ROFLOL" => Some("rolling on the floor laughing out loud")
    case "ROTFLMAO" => Some("rolling on the floor laughing my ass off")
    case "SK8" => Some("skate")
    case "STATS" => Some("your sex and age")
    case "ASL" => Some("age, sex, location")
    case "THX" => Some("thank you")
    case "TTFN" => Some("ta-ta for now!")
    case "TTYL" => Some("talk to you later")
    case "U" => Some("you")
    case "U2" => Some("you too")
    case "U4E" => Some("yours for ever")
    case "WB" => Some("welcome back")
    case "WTF" => Some("what the fuck")
    case "WTG" => Some("way to go!")
    case "WUF" => Some("where are you from?")
    case "W8" => Some("wait...")
    case "7K" => Some("sick:-d laugher")
    case "TFW" => Some("that feeling when")
    case "MFW" => Some("my face when")
    case "MRW" => Some("my reaction when")
    case "IFYP" => Some("i feel your pain")
    case "TNTL" => Some("trying not to laugh")
    case "JK" => Some("just kidding")
    case "IDC" => Some("i don't care")
    case "ILY" => Some("i love you")
    case "IMU" => Some("i miss you")
    case "ADIH" => Some("another day in hell")
    case "ZZZ" => Some("sleeping, bored, tired")
    case "WYWH" => Some("wish you were here")
    case "TIME" => Some("tears in my eyes")
    case "BAE" => Some("before anyone else")
    case "FIMH" => Some("forever in my heart")
    case "BSAAW" => Some("big smile and a wink")
    case "BWL" => Some("bursting with laughter")
    case "BFF" => Some("best friends forever")
    case "CSL" => Some("can't stop laughing")
    case _ => None
  }

  /** A token after the loop body: its expansion when its `upper()` is a key, else itself. */
  function ExpandToken(tk: Toolkit, w: string): string
  {
    match ChatWords(Upper(tk, w))
    case Some(e) => e
    case None => w
  }

  function ExpandTokens(tk: Toolkit, ws: seq<string>): seq<string>
  {
    seq(|ws|, i requires 0 <= i < |ws| => ExpandToken(tk, ws[i]))
  }

  /** What `chat_conversion` returns for `text`. */
  function ChatConverted(tk: Toolkit, text: string): string
  {
    JoinSpace(ExpandTokens(tk, Words(text)))
  }

  /** `chat_conversion`: the token list is overwritten in place, index by index. */
  method ChatConversion(tk: Toolkit, text: string) returns (r: string)
    ensures r == ChatConverted(tk, text)
  {
    var ws := Words(text);
    var tokens := ws;
    var i := 0;
    while i < |tokens|
      invariant i <= |tokens| == |ws|
      invariant forall j :: 0 <= j < i ==> tokens[j] == ExpandToken(tk, ws[j])
      invariant forall j :: i <= j < |ws| ==> tokens[j] == ws[j]
    {
      var key := Upper(tk, tokens[i]);
      if ChatWords(key).None? {
        i := i + 1;
        continue;
      }
      tokens := tokens[i := ChatWords(key).value];
      i := i + 1;
    }
    assert tokens == ExpandTokens(tk, ws);
    r := JoinSpace(tokens);
  }

  /**
   * Splitting the result again gives the words of every token after expansion, in order: an
   * expansion of several words contributes all of them.
   */
  lemma ChatConvertedWords(tk: Toolkit, text: string)
    ensures Words(ChatConverted(tk, text)) == WordsOfAll(ExpandTokens(tk, Words(text)))
  {
    WordsOfJoin(ExpandTokens(tk, Words(text)));
  }

  /**
   * Without a key among the tokens the text still changes: whitespace runs shrink to one
   * space and the ends are trimmed.
   */
  lemma ChatConvertedWithoutKeys(tk: Toolkit, text: string)
    requires forall i :: 0 <= i < |Words(text)| ==> ChatWords(Upper(tk, Words(text)[i])) == None
    ensures ChatConverted(tk, text) == JoinSpace(Words(text))
  {
    assert ExpandTokens(tk, Words(text)) == Words(text);
  }

  /** Empty and all-whitespace texts become the empty string. */
  lemma ChatConvertedBlank(tk: Toolkit, text: string)
    requires forall i :: 0 <= i < |text| ==> IsSpace(text[i])
    ensures ChatConverted(tk, text) == ""
  {
    WordsOfBlank(text);
  }

  /** A single token, whatever its case, is looked up through its upper case. */
  lemma ChatConvertedToken(tk: Toolkit, w: string)
    requires w != [] && NoSpace(w)
    ensures ChatConverted(tk, w) == ExpandToken(tk, w)
  {
    WordsOfWord(w);
  }

  lemma CaseFolds(tk: Toolkit)
    ensures Upper(tk, "lol") == "LOL" && Upper(tk, "LoL") == "LOL" && Upper(tk, "LOL") == "LOL"
    ensures Upper(tk, "lol,") == "LOL,"
  {
    assert AllAscii("lol") && AllAscii("LoL") && AllAscii("LOL") && AllAscii("lol,");
  }

  lemma ChatLookups()
    ensures ChatWords("LOL") == Some("laughing out loud") && ChatWords("LOL,") == None
  {
  }

  lemma ExampleTokens(tk: Toolkit)
    ensures ExpandToken(tk, "lol") == "laughing out loud"
    ensures ExpandToken(tk, "LoL") == "laughing out loud"
    ensures ExpandToken(tk, "LOL") == "laughing out loud"
    ensures ExpandToken(tk, "lol,") == "lol,"
  {
    CaseFolds(tk);
    ChatLookups();
  }

  lemma ExampleTokensSpaceFree()
    ensures NoSpace("lol") && NoSpace("LoL") && NoSpace("LOL") && NoSpace("lol,")
  {
  }

  /** `lol`, `LoL` and `LOL` expand; `lol,` is a different token and is kept. */
  lemma ChatConversionCaseInsensitive(tk: Toolkit)
    ensures ChatConverted(tk, "lol") == "laughing out loud"
    ensures ChatConverted(tk, "LoL") == "laughing out loud"
    ensures ChatConverted(tk, "LOL") == "laughing out loud"
    ensures ChatConverted(tk, "lol,") == "lol,"
  {
    ExampleTokens(tk);
    ExampleTokensSpaceFree();
    ChatConvertedToken(tk, "lol");
    ChatConvertedToken(tk, "LoL");
    ChatConvertedToken(tk, "LOL");
    ChatConvertedToken(tk, "lol,");
  }

  // ---------------------------------------------------------------------------------------
  // remove_stopwords: split, blank each stopword, join

  /** The test `remove_stopwords` lets through unchanged: not in the stopword list. */
  function NotStopword(tk: Toolkit): string -> bool
  {
    w => w !in tk.stopwords
  }

  /** A token after the loop body: `''` when it is a stopword, else itself. */
  function BlankStopword(tk: Toolkit, w: string): string
  {
    if w in tk.stopwords then "" else w
  }

  function BlankStopwords(tk: Toolkit, ws: seq<string>): seq<string>
  {
    seq(|ws|, i requires 0 <= i < |ws| => BlankStopword(tk, ws[i]))
  }

  /** What `remove_stopwords` returns for `text`. */
  function StopwordsRemoved(tk: Toolkit, text: string): string
  {
    JoinSpace(BlankStopwords(tk, Words(text)))
  }

  /** `remove_stopwords`: the word list is overwritten in place, index by index. */
  method RemoveStopwords(tk: Toolkit, text: string) returns (r: string)
    ensures r == StopwordsRemoved(tk, text)
  {
    var ws := Words(text);
    var words := ws;
    var i := 0;
    while i < |words|
      invariant i <= |words| == |ws|
      invariant forall j :: 0 <= j < i ==> words[j] == BlankStopword(tk, ws[j])
      invariant forall j :: i <= j < |ws| ==> words[j] == ws[j]
    {
      if words[i] !in tk.stopwords {
        i := i + 1;
        continue;
      }
      words := words[i := ""];
      i := i + 1;
    }
    assert words == BlankStopwords(tk, ws);
    r := JoinSpace(words);
  }

  lemma {:induction false} BlankThenDrop(tk: Toolkit, ws: seq<string>)
    requires forall i :: 0 <= i < |ws| ==> ws[i] != []
    ensures Filter(IsNonEmpty, BlankStopwords(tk, ws)) == Filter(NotStopword(tk), ws)
  {
    if ws != [] {
      assert BlankStopwords(tk, ws)[1..] == BlankStopwords(tk, ws[1..]);
      BlankThenDrop(tk, ws[1..]);
    }
  }

  /** Splitting the result again gives exactly the tokens that are not stopwords, in order. */
  lemma StopwordsRemovedWords(tk: Toolkit, text: string)
    ensures Words(StopwordsRemoved(tk, text)) == Filter(NotStopword(tk), Words(text))
  {
    SplitJoinRoundTrip(BlankStopwords(tk, Words(text)));
    BlankThenDrop(tk, Words(text));
  }

  lemma {:induction false} BlankedLength(tk: Toolkit, ws: seq<string>)
    ensures TotalLen(BlankStopwords(tk, ws)) == TotalLen(Filter(NotStopword(tk), ws))
  {
    if ws != [] {
      assert BlankStopwords(tk, ws)[1..] == BlankStopwords(tk, ws[1..]);
      BlankedLength(tk, ws[1..]);
    }
  }

  /**
   * The token count is kept: the result has one separating space per gap between the original
   * tokens, whether or not the tokens beside it were removed; only the stopwords' own
   * characters disappear.
   */
  lemma StopwordsKeepSeparators(tk: Toolkit, text: string)
    requires Words(text) != []
    ensures |StopwordsRemoved(tk, text)| == TotalLen(Filter(NotStopword(tk), Words(text))) + |Words(text)| - 1
  {
    JoinSpaceLength(BlankStopwords(tk, Words(text)));
    BlankedLength(tk, Words(text));
  }

  /** Empty and all-whitespace texts become the empty string. */
  lemma StopwordsRemovedBlank(tk: Toolkit, text: string)
    requires forall i :: 0 <= i < |text| ==> IsSpace(text[i])
    ensures StopwordsRemoved(tk, text) == ""
  {
    WordsOfBlank(text);
  }

  lemma TwoWords()
    ensures Words("the" + " " + "cat") == ["the", "cat"]
  {
    WordsAroundSpace("the", "cat");
    WordsOfWord("the");
    WordsOfWord("cat");
  }

  lemma ExampleText()
    ensures "the" + " " + "cat" == "the cat"
  {
  }

  /** A removed stopword leaves its separating space behind. */
  lemma StopwordsRemovedExample(tk: Toolkit)
    requires "the" in tk.stopwords && "cat" !in tk.stopwords
    ensures StopwordsRemoved(tk, "the cat") == " cat"
  {
    TwoWords();
    ExampleText();
    var b := BlankStopwords(tk, ["the", "cat"]);
    assert b == ["", "cat"];
    assert JoinSpace(b) == "" + " " + "cat";
  }

  // ---------------------------------------------------------------------------------------
  // tokenise, PROCESSES

  function AlnumToken(tk: Toolkit): string -> bool
  {
    t => IsAlnum(tk, t)
  }

  /** `tokenise`: the tokenizer's token texts for which `str.isalnum` holds, in order. */
  function Tokenise(tk: Toolkit, text: string): (r: seq<string>)
    ensures forall i :: 0 <= i < |r| ==> IsAlnum(tk, r[i])
  {
    Filter(AlnumToken(tk), tk.tokenize(text))
  }

  /** A token text survives `tokenise` exactly when the tokenizer produced it and it is alphanumeric. */
  lemma TokeniseKeepsAlnumTokens(tk: Toolkit, text: string)
    ensures forall t :: t in Tokenise(tk, text) <==> t in tk.tokenize(text) && IsAlnum(tk, t)
  {
    var ts, r := tk.tokenize(text), Tokenise(tk, text);
    forall t ensures t in r <==> t in ts && IsAlnum(tk, t) {
      if t in ts && IsAlnum(tk, t) {
        var i :| 0 <= i < |ts| && ts[i] == t;
        assert AlnumToken(tk)(ts[i]);
      }
    }
  }

  /** The entries of `PROCESSES`. */
  datatype Stage =
    | Lowercase | UrlRemoval | Demojizing | PunctuationRemoval | ChatExpansion
    | Correction | StopwordRemoval | Tokenisation | Stemming

  /** `PROCESSES`, in order. */
  const Processes: seq<Stage> := [
    Lowercase, UrlRemoval, Demojizing, PunctuationRemoval, ChatExpansion,
    Correction, StopwordRemoval, Tokenisation, Stemming]

  /** One stage applied to one cell; `None` where Python raises a TypeError or AttributeError. */
  function ApplyStage(tk: Toolkit, st: Stage, c: Cell): Option<Cell>
  {
    match c
    case Tokens(ts) =>
      if st == Stemming then Some(Text(StemWords(tk, ts))) else None
    case Text(s) =>
      match st
      case Lowercase => Some(Text(Lower(tk, s)))
      case UrlRemoval => Some(Text(RemoveUrl(s)))
      case Demojizing => Some(Text(tk.demojize(s)))
      case PunctuationRemoval => Some(Text(RemovePunctuation(s)))
      case ChatExpansion => Some(Text(ChatConverted(tk, s)))
      case Correction => Some(Text(tk.correct(s)))
      case StopwordRemoval => Some(Text(StopwordsRemoved(tk, s)))
      case Tokenisation => Some(Tokens(Tokenise(tk, s)))
      case Stemming => Some(Text(StemWords(tk, Chars(s))))
  }

  function Step(tk: Toolkit): (Stage, Cell) -> Option<Cell>
  {
    (st, c) => ApplyStage(tk, st, c)
  }

  /** The composition `PROCESSES` stands for, written out. */
  function Clean(tk: Toolkit, text: string): string
  {
    var lowered := Lower(tk, text);
    var noUrl := RemoveUrl(lowered);
    var demojized := tk.demojize(noUrl);
    var noPunct := RemovePunctuation(demojized);
    var expanded := ChatConverted(tk, noPunct);
    var corrected := tk.correct(expanded);
    var noStop := StopwordsRemoved(tk, corrected);
    var tokens := Tokenise(tk, noStop);
    StemWords(tk, tokens)
  }

  lemma StepIsApplyStage(tk: Toolkit, st: Stage, c: Cell)
    ensures Step(tk)(st, c) == ApplyStage(tk, st, c)
  {
  }

  /** The first four entries of `PROCESSES`: lower case up to punctuation removal. */
  lemma ProcessesFront(tk: Toolkit, text: string)
    ensures RunStages(Step(tk), Processes[..4], Text(text)) ==
      Some(Text(RemovePunctuation(tk.demojize(RemoveUrl(Lower(tk, text))))))
  {
    var lowered := Lower(tk, text);
    var noUrl := RemoveUrl(lowered);
    var demojized := tk.demojize(noUrl);
    var step := Step(tk);
    FrontSteps(tk, text, lowered, noUrl, demojized);
    RunFourStages(step, Lowercase, UrlRemoval, Demojizing, PunctuationRemoval,
      Text(text), Text(lowered), Text(noUrl), Text(demojized), Text(RemovePunctuation(demojized)));
    assert Processes[..4] == [Lowercase, UrlRemoval, Demojizing, PunctuationRemoval];
  }

  lemma FrontSteps(tk: Toolkit, text: string, lowered: string, noUrl: string, demojized: string)
    requires lowered == Lower(tk, text) && noUrl == RemoveUrl(lowered) && demojized == tk.demojize(noUrl)
    ensures Step(tk)(Lowercase, Text(text)) == Some(Text(lowered))
    ensures Step(tk)(UrlRemoval, Text(lowered)) == Some(Text(noUrl))
    ensures Step(tk)(Demojizing, Text(noUrl)) == Some(Text(demojized))
    ensures Step(tk)(PunctuationRemoval, Text(demojized)) == Some(Text(RemovePunctuation(demojized)))
  {
    StepIsApplyStage(tk, Lowercase, Text(text));
    StepIsApplyStage(tk, UrlRemoval, Text(lowered));
    StepIsApplyStage(tk, Demojizing, Text(noUrl));
    StepIsApplyStage(tk, PunctuationRemoval, Text(demojized));
  }

  /** The last five entries of `PROCESSES`: chat conversion up to stemming. */
  lemma ProcessesBack(tk: Toolkit, s: string)
    ensures RunStages(Step(tk), Processes[4..], Text(s)) ==
      Some(Text(StemWords(tk, Tokenise(tk, StopwordsRemoved(tk, tk.correct(ChatConverted(tk, s)))))))
  {
    var expanded := ChatConverted(tk, s);
    var corrected := tk.correct(expanded);
    var noStop := StopwordsRemoved(tk, corrected);
    var tokens := Tokenise(tk, noStop);
    var cells := [Text(s), Text(expanded), Text(corrected), Text(noStop), Tokens(tokens),
      Text(StemWords(tk, tokens))];
    StepIsApplyStage(tk, ChatExpansion, cells[0]);
    StepIsApplyStage(tk, Correction, cells[1]);
    StepIsApplyStage(tk, StopwordRemoval, cells[2]);
    StepIsApplyStage(tk, Tokenisation, cells[3]);
    StepIsApplyStage(tk, Stemming, cells[4]);
    var back := [ChatExpansion, Correction, StopwordRemoval, Tokenisation, Stemming];
    assert Processes[4..] == back;
    assert Step(tk)(back[0], cells[0]) == Some(cells[1]);
    assert Step(tk)(back[1], cells[1]) == Some(cells[2]);
    assert Step(tk)(back[2], cells[2]) == Some(cells[3]);
    assert Step(tk)(back[3], cells[3]) == Some(cells[4]);
    assert Step(tk)(back[4], cells[4]) == Some(cells[5]);
    RunStagesTrace(Step(tk), back, cells);
  }

  /**
   * Folding the stages of `PROCESSES` over a text, each taking the previous one's output, is
   * the composition `Clean`; no stage meets a value of the wrong type.
   */
  lemma ProcessesCompose(tk: Toolkit, text: string)
    ensures RunStages(Step(tk), Processes, Text(text)) == Some(Text(Clean(tk, text)))
  {
    ProcessesFront(tk, text);
    ProcessesBack(tk, RemovePunctuation(tk.demojize(RemoveUrl(Lower(tk, text)))));
    RunStagesAppend(Step(tk), Processes[..4], Processes[4..], Text(text));
    assert Processes[..4] + Processes[4..] == Processes;
  }

  /** With libraries that map the empty text to itself, an empty comment stays empty. */
  lemma CleanEmpty(tk: Toolkit)
    requires tk.demojize("") == "" && tk.correct("") == "" && tk.tokenize("") == []
    ensures Clean(tk, "") == ""
  {
    assert Words("") == [];
    assert Tokenise(tk, "") == [];
  }
}
