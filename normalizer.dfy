/** `clean_text` as a whole: the character prefilter, then the language pipeline,
    then the lemma join. The pipeline (tokenizer, lemmatizer and stop list) is a
    parameter: any function from text to tokens. */
module Normalizer {
  import opened CharClasses
  import opened CharacterPrefilter
  import opened LemmaJoin

  /** `clean_text(doc)` for the language pipeline `nlp`. The pipeline only ever
      sees text without digits, newlines or punctuation, and a document whose
      tokens are all stop words cleans to the empty string. */
  function CleanText(doc: string, nlp: string -> seq<Token>): (r: string)
    ensures var seen := Prefilter(doc);
      forall i :: 0 <= i < |seen| ==> Survives(seen[i])
    ensures (forall j :: 0 <= j < |nlp(Prefilter(doc))| ==> nlp(Prefilter(doc))[j].isStop) ==> r == ""
  {
    JoinLemmas(nlp(Prefilter(doc)))
  }

  /** Cleaning depends on the document only through its surviving characters:
      re-cleaning the prefiltered document, or any document with the same
      surviving characters, gives the same text. */
  lemma CleanTextSeesOnlySurvivors(doc: string, other: string, nlp: string -> seq<Token>)
    requires Filter(doc, Survives) == Filter(other, Survives)
    ensures CleanText(doc, nlp) == CleanText(other, nlp)
    ensures CleanText(Prefilter(doc), nlp) == CleanText(doc, nlp)
  {
    PrefilterKeepsSurvivors(doc);
    PrefilterKeepsSurvivors(other);
    PrefilterIdempotent(doc);
  }
}
