/**
 * The third-party text libraries the preprocessing stages call, as an explicit resource value,
 * together with the parts of Python's Unicode string methods that are fixed on ASCII.
 */
module Nlp {
  import opened PyStr

  /**
   * The library behaviour the stages depend on but that is not part of this model: emoji
   * demojizing, NFKD normalisation, the spaCy `en_core_web_sm` tokenizer, the Porter stemmer,
   * TextBlob spelling correction, the NLTK English stopword list, and Python's case mapping and
   * `isalnum` on characters outside ASCII.
   */
  datatype Toolkit = Toolkit(
    lowerOther: char -> string,
    upperOther: char -> string,
    alnumOther: char -> bool,
    nfkd: string -> string,
    demojize: string -> string,
    tokenize: string -> seq<string>,
    stem: string -> string,
    correct: string -> string,
    stopwords: set<string>)

  /** A pandas cell in the `post_clean` column: a string, or the token list `tokenise` returns. */
  datatype Cell = Text(s: string) | Tokens(ts: seq<string>)

  function AsciiLower(c: char): char
  {
    if 'A' <= c <= 'Z' then (c as int + 32) as char else c
  }

  function AsciiUpper(c: char): char
  {
    if 'a' <= c <= 'z' then (c as int - 32) as char else c
  }

  predicate AllAscii(s: string) {
    forall i :: 0 <= i < |s| ==> IsAscii(s[i])
  }

  /** `str.lower`, character by character; ASCII letters are folded here, other characters by the toolkit. */
  function Lower(tk: Toolkit, s: string): (r: string)
    ensures AllAscii(s) ==> |r| == |s| && forall i :: 0 <= i < |s| ==> r[i] == AsciiLower(s[i])
  {
    if s == [] then []
    else (if IsAscii(s[0]) then [AsciiLower(s[0])] else tk.lowerOther(s[0])) + Lower(tk, s[1..])
  }

  /** `str.upper`, character by character; ASCII letters are folded here, other characters by the toolkit. */
  function Upper(tk: Toolkit, s: string): (r: string)
    ensures AllAscii(s) ==> |r| == |s| && forall i :: 0 <= i < |s| ==> r[i] == AsciiUpper(s[i])
  {
    if s == [] then []
    else (if IsAscii(s[0]) then [AsciiUpper(s[0])] else tk.upperOther(s[0])) + Upper(tk, s[1..])
  }

  /** On ASCII text, lowering twice is lowering once. */
  lemma LowerIdempotentOnAscii(tk: Toolkit, s: string)
    requires AllAscii(s)
    ensures Lower(tk, Lower(tk, s)) == Lower(tk, s)
  {
    var r := Lower(tk, s);
    assert AllAscii(r);
    assert forall i :: 0 <= i < |r| ==> AsciiLower(r[i]) == r[i];
  }

  /** Lowering works character by character, so it distributes over concatenation. */
  lemma {:induction false} LowerAppend(tk: Toolkit, a: string, b: string)
    ensures Lower(tk, a + b) == Lower(tk, a) + Lower(tk, b)
    decreases |a|
  {
    if a == [] {
      AppendEmptySeq(b);
      AppendEmptySeq(Lower(tk, b));
    } else {
      assert (a + b)[0] == a[0] && (a + b)[1..] == a[1..] + b;
      LowerAppend(tk, a[1..], b);
      var h := if IsAscii(a[0]) then [AsciiLower(a[0])] else tk.lowerOther(a[0]);
      assert h + (Lower(tk, a[1..]) + Lower(tk, b)) == (h + Lower(tk, a[1..])) + Lower(tk, b);
    }
  }

  lemma AppendEmptySeq(a: string)
    ensures [] + a == a
  {
  }

  /**
   * Lowering twice is lowering once for every text, provided the toolkit's mapping of each
   * non-ASCII character is already lower case.
   */
  lemma {:induction false} LowerIdempotent(tk: Toolkit, s: string)
    requires forall c :: !IsAscii(c) ==> Lower(tk, tk.lowerOther(c)) == tk.lowerOther(c)
    ensures Lower(tk, Lower(tk, s)) == Lower(tk, s)
    decreases |s|
  {
    if s != [] {
      var h := if IsAscii(s[0]) then [AsciiLower(s[0])] else tk.lowerOther(s[0]);
      LowerIdempotent(tk, s[1..]);
      LowerAppend(tk, h, Lower(tk, s[1..]));
      if IsAscii(s[0]) {
        assert IsAscii(AsciiLower(s[0]));
        assert Lower(tk, h) == [AsciiLower(s[0])] + Lower(tk, []);
      }
    }
  }

  /** A character the regular-expression class `\w` accepts: alphanumeric or the underscore. */
  predicate IsWordChar(tk: Toolkit, c: char) {
    IsAsciiAlnum(c) || c == '_' || (!IsAscii(c) && tk.alnumOther(c))
  }

  /** `str.isalnum`: non-empty and every character alphanumeric. */
  predicate IsAlnum(tk: Toolkit, t: string) {
    t != [] && forall i :: 0 <= i < |t| ==> IsAsciiAlnum(t[i]) || (!IsAscii(t[i]) && tk.alnumOther(t[i]))
  }
}
