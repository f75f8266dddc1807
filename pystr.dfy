/**
 * The parts of Python's `str` that the scripts rely on: `str.isspace`, `string.punctuation`,
 * `str.split()` with no argument, `' '.join`, and `str(n)` for a non-negative integer.
 */
module PyStr {
  import opened Seqs

  /** `str.isspace` for a single character (Python's fixed whitespace table). */
  predicate IsSpace(c: char) {
    || c == ' '
    || '\t' <= c <= '\r'
    || '\U{1C}' <= c <= '\U{1F}'
    || c == '\U{85}'
    || c == '\U{A0}'
    || c == '\U{1680}'
    || '\U{2000}' <= c <= '\U{200A}'
    || c == '\U{2028}' || c == '\U{2029}' || c == '\U{202F}' || c == '\U{205F}'
    || c == '\U{3000}'
  }

  predicate IsAscii(c: char) {
    (c as int) < 128
  }

  predicate IsAsciiAlnum(c: char) {
    'a' <= c <= 'z' || 'A' <= c <= 'Z' || '0' <= c <= '9'
  }

  /** Python's `string.punctuation`: the 32 ASCII punctuation characters. */
  const Punctuation: string := "!\"#$%&'()*+,-./:;<=>?@[\\]^_`{|}~"

  /** The ASCII punctuation characters, as the four code point ranges `string.punctuation` spans. */
  predicate IsPunct(c: char) {
    || '!' <= c <= '/'
    || ':' <= c <= '@'
    || '[' <= c <= '`'
    || '{' <= c <= '~'
  }

  /** `IsPunct` holds of exactly the characters of `string.punctuation`. */
  lemma PunctuationRanges(c: char)
    ensures IsPunct(c) <==> c in Punctuation
  {
    if IsPunct(c) {
      var i := if c <= '/' then c as int - '!' as int
        else if c <= '@' then c as int - ':' as int + 15
        else if c <= '`' then c as int - '[' as int + 22
        else c as int - '{' as int + 28;
      assert Punctuation[i] == c;
    }
  }

  predicate NoSpace(w: string) {
    forall i :: 0 <= i < |w| ==> !IsSpace(w[i])
  }

  predicate IsNonEmpty(w: string) {
    w != []
  }

  /** The one-character strings of `s`: what iterating over a Python `str` yields. */
  function Chars(s: string): seq<string>
  {
    seq(|s|, i requires 0 <= i < |s| => [s[i]])
  }

  /** Length of the longest prefix of `s` free of whitespace. */
  function WordLen(s: string): (n: nat)
    ensures n <= |s|
    ensures forall i :: 0 <= i < n ==> !IsSpace(s[i])
    ensures n < |s| ==> IsSpace(s[n])
  {
    if s == [] || IsSpace(s[0]) then 0 else 1 + WordLen(s[1..])
  }

  /**
   * `s.split()`: the maximal whitespace-free runs of `s`, in order; leading, trailing and
   * repeated whitespace produce no empty words.
   */
  function Words(s: string): (ws: seq<string>)
    ensures forall i :: 0 <= i < |ws| ==> ws[i] != [] && NoSpace(ws[i])
    decreases |s|
  {
    if s == [] then []
    else if IsSpace(s[0]) then Words(s[1..])
    else
      var n := WordLen(s);
      [s[..n]] + Words(s[n..])
  }

  /** `' '.join(ws)`. */
  function JoinSpace(ws: seq<string>): string
  {
    if ws == [] then ""
    else if |ws| == 1 then ws[0]
    else ws[0] + " " + JoinSpace(ws[1..])
  }

  /** The words of each string of `ts`, in order. */
  function WordsOfAll(ts: seq<string>): seq<string>
  {
    if ts == [] then [] else Words(ts[0]) + WordsOfAll(ts[1..])
  }

  lemma WordLenBeforeSpace(a: string, b: string)
    ensures WordLen(a + " " + b) == WordLen(a)
  {
    var t := a + " " + b;
    var m, n := WordLen(a), WordLen(t);
    assert t[m] == if m < |a| then a[m] else ' ';
  }

  lemma {:induction false} WordsOfWord(w: string)
    requires NoSpace(w)
    ensures Words(w) == if w == [] then [] else [w]
  {
    if w != [] {
      assert WordLen(w) == |w|;
      assert w[..|w|] == w;
      assert w[|w|..] == [];
    }
  }

  /** The total number of characters in `ws`. */
  function TotalLen(ws: seq<string>): nat
  {
    if ws == [] then 0 else |ws[0]| + TotalLen(ws[1..])
  }

  /** `' '.join` puts exactly one space between neighbouring elements. */
  lemma {:induction false} JoinSpaceLength(ws: seq<string>)
    requires ws != []
    ensures |JoinSpace(ws)| == TotalLen(ws) + |ws| - 1
  {
    if |ws| > 1 {
      JoinSpaceLength(ws[1..]);
    }
  }

  /** A text of whitespace only splits into no words at all. */
  lemma {:induction false} WordsOfBlank(s: string)
    requires forall i :: 0 <= i < |s| ==> IsSpace(s[i])
    ensures Words(s) == []
    decreases |s|
  {
    if s != [] {
      WordsOfBlank(s[1..]);
    }
  }

  /** Splitting at an inserted blank splits the two sides independently. */
  lemma {:induction false} WordsAroundSpace(a: string, b: string)
    ensures Words(a + " " + b) == Words(a) + Words(b)
    decreases |a|
  {
    var t := a + " " + b;
    if a == [] {
      assert t[1..] == b;
    } else if IsSpace(a[0]) {
      assert t[1..] == a[1..] + " " + b;
      WordsAroundSpace(a[1..], b);
    } else {
      WordLenBeforeSpace(a, b);
      var n := WordLen(a);
      assert t[..n] == a[..n];
      assert t[n..] == a[n..] + " " + b;
      WordsAroundSpace(a[n..], b);
    }
  }

  /** Splitting a space-joined list yields the words of every element, in order. */
  lemma {:induction false} WordsOfJoin(ts: seq<string>)
    ensures Words(JoinSpace(ts)) == WordsOfAll(ts)
  {
    if |ts| == 1 {
      assert WordsOfAll(ts) == Words(ts[0]) + WordsOfAll([]);
    } else if |ts| > 1 {
      WordsAroundSpace(ts[0], JoinSpace(ts[1..]));
      WordsOfJoin(ts[1..]);
    }
  }

  /**
   * Round trip of `' '.join` and `split()`: joining whitespace-free strings and splitting again
   * gives back exactly the non-empty ones, in order.
   */
  lemma {:induction false} SplitJoinRoundTrip(ws: seq<string>)
    requires forall i :: 0 <= i < |ws| ==> NoSpace(ws[i])
    ensures Words(JoinSpace(ws)) == Filter(IsNonEmpty, ws)
  {
    WordsOfJoin(ws);
    WordsOfAllNoSpace(ws);
  }

  lemma {:induction false} WordsOfAllNoSpace(ws: seq<string>)
    requires forall i :: 0 <= i < |ws| ==> NoSpace(ws[i])
    ensures WordsOfAll(ws) == Filter(IsNonEmpty, ws)
  {
    if ws != [] {
      WordsOfWord(ws[0]);
      WordsOfAllNoSpace(ws[1..]);
    }
  }

  /** Re-joining the words of a text and splitting again changes nothing: `split()` normalises. */
  lemma SplitJoinSplit(s: string)
    ensures Words(JoinSpace(Words(s))) == Words(s)
  {
    SplitJoinRoundTrip(Words(s));
    FilterAll(IsNonEmpty, Words(s));
  }

  function DigitChar(d: nat): (c: char)
    requires d < 10
    ensures '0' <= c <= '9'
  {
    (48 + d) as char
  }

  /** `str(n)` for a non-negative integer: its decimal digits, without leading zeros. */
  function Decimal(n: nat): (s: string)
    ensures 1 <= |s| && (n >= 10 <==> |s| >= 2)
    ensures forall i :: 0 <= i < |s| ==> '0' <= s[i] <= '9'
  {
    if n < 10 then [DigitChar(n)] else Decimal(n / 10) + [DigitChar(n % 10)]
  }

  /** Distinct numbers have distinct decimal strings. */
  lemma {:induction false} DecimalInjective(a: nat, b: nat)
    requires Decimal(a) == Decimal(b)
    ensures a == b
  {
    if a >= 10 && b >= 10 {
      var s := Decimal(a);
      assert s[..|s| - 1] == Decimal(a / 10);
      assert Decimal(b)[..|s| - 1] == Decimal(b / 10);
      DecimalInjective(a / 10, b / 10);
      assert s[|s| - 1] == DigitChar(a % 10) && s[|s| - 1] == DigitChar(b % 10);
    }
  }
}
