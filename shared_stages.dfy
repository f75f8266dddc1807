/**
 * The two stages whose code is the same in both revisions of the preprocessing module:
 * `remove_punctuation` and `stem_words`.
 */
module SharedStages {
  import opened Seqs
  import opened PyStr
  import opened Nlp

  /**
   * `text.translate(str.maketrans(punctuation, ' ' * len(punctuation)))`: every ASCII punctuation
   * character becomes one space, every other character stays where it is.
   */
  function RemovePunctuation(s: string): (r: string)
    ensures |r| == |s|
    ensures forall i :: 0 <= i < |s| ==> r[i] == if IsPunct(s[i]) then ' ' else s[i]
  {
    if s == [] then [] else [if IsPunct(s[0]) then ' ' else s[0]] + RemovePunctuation(s[1..])
  }

  lemma NoPunctuationLeft(s: string)
    ensures forall i :: 0 <= i < |s| ==> !IsPunct(RemovePunctuation(s)[i])
  {
  }

  lemma RemovePunctuationIdempotent(s: string)
    ensures RemovePunctuation(RemovePunctuation(s)) == RemovePunctuation(s)
  {
    NoPunctuationLeft(s);
  }

  /** The Porter stem of every token, in order. */
  function Stems(tk: Toolkit, ls: seq<string>): seq<string>
  {
    seq(|ls|, i requires 0 <= i < |ls| => tk.stem(ls[i]))
  }

  /** `' '.join([ps.stem(word) for word in ls])`. */
  function StemWords(tk: Toolkit, ls: seq<string>): string
  {
    JoinSpace(Stems(tk, ls))
  }

  /**
   * The stems are joined with single spaces: when no stem is empty or contains whitespace,
   * splitting the result gives back exactly the stems, one per token, in order.
   */
  lemma StemWordsSplit(tk: Toolkit, ls: seq<string>)
    requires forall i :: 0 <= i < |ls| ==> tk.stem(ls[i]) != [] && NoSpace(tk.stem(ls[i]))
    ensures Words(StemWords(tk, ls)) == Stems(tk, ls)
  {
    SplitJoinRoundTrip(Stems(tk, ls));
    FilterAll(IsNonEmpty, Stems(tk, ls));
  }
}
