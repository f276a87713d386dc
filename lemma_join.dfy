/** The second half of `clean_text`: from the tokens the language pipeline
    produces, keep the lemmas of the tokens that are not stop words and join them
    with single spaces (`' '.join([t.lemma_ for t in doc if not t.is_stop])`).
    The pipeline itself is not modelled: its tokens are an input. */
module LemmaJoin {

  /** What the model needs of a pipeline token: its lemma and its stop-word flag. */
  datatype Token = Token(lemmaText: string, isStop: bool)

  /** The list comprehension: lemmas of the non-stop tokens, in token order. */
  function NonStopLemmas(tokens: seq<Token>): (r: seq<string>)
    ensures |r| <= |tokens|
    ensures forall i :: 0 <= i < |r| ==> exists j :: 0 <= j < |tokens| && !tokens[j].isStop && tokens[j].lemmaText == r[i]
    ensures r == [] <==> forall j :: 0 <= j < |tokens| ==> tokens[j].isStop
  {
    if tokens == [] then []
    else
      var rest := NonStopLemmas(tokens[1..]);
      assert forall i :: 0 <= i < |rest| ==> exists j :: 1 <= j < |tokens| && !tokens[j].isStop && tokens[j].lemmaText == rest[i] by {
        forall i | 0 <= i < |rest|
          ensures exists j :: 1 <= j < |tokens| && !tokens[j].isStop && tokens[j].lemmaText == rest[i]
        {
          var j' :| 0 <= j' < |tokens[1..]| && !tokens[1..][j'].isStop && tokens[1..][j'].lemmaText == rest[i];
          assert tokens[j' + 1] == tokens[1..][j'];
        }
      }
      if tokens[0].isStop then rest else [tokens[0].lemmaText] + rest
  }

  /** `' '.join(parts)`: the parts with one space between each neighbouring pair. */
  function JoinWithSpaces(parts: seq<string>): (r: string)
    ensures r == "" <==> parts == [] || parts == [""]
  {
    if parts == [] then ""
    else if |parts| == 1 then parts[0]
    else parts[0] + " " + JoinWithSpaces(parts[1..])
  }

  /** `s.split(' ')`: the pieces of `s` between single spaces. There is always at
      least one piece, and no piece contains a space. */
  function SplitOnSpaces(s: string): (r: seq<string>)
    ensures |r| >= 1
    ensures forall i :: 0 <= i < |r| ==> ' ' !in r[i]
  {
    if s == [] then [""]
    else
      var rest := SplitOnSpaces(s[1..]);
      if s[0] == ' ' then [""] + rest
      else [[s[0]] + rest[0]] + rest[1..]
  }

  /** Joining the pieces of a split gives back the string. */
  lemma {:induction false} JoinSplit(s: string)
    ensures JoinWithSpaces(SplitOnSpaces(s)) == s
    decreases |s|
  {
    if s != [] {
      var rest := SplitOnSpaces(s[1..]);
      JoinSplit(s[1..]);
      if s[0] == ' ' {
        assert ([""] + rest)[1..] == rest;
      } else {
        var r := [[s[0]] + rest[0]] + rest[1..];
        assert r[1..] == rest[1..];
        if |rest| > 1 {
          assert JoinWithSpaces(rest) == rest[0] + " " + JoinWithSpaces(rest[1..]);
        }
      }
    }
  }

  /** Splitting a string that starts with a space-free word `w`: `w` extends the
      first piece of the rest. */
  lemma {:induction false} SplitAfterWord(w: string, t: string)
    requires ' ' !in w
    ensures SplitOnSpaces(w + t) == [w + SplitOnSpaces(t)[0]] + SplitOnSpaces(t)[1..]
    decreases |w|
  {
    if w != [] {
      assert w[0] in w;
      assert (w + t)[0] == w[0] != ' ';
      assert (w + t)[1..] == w[1..] + t;
      SplitAfterWord(w[1..], t);
      var pieces := SplitOnSpaces(t);
      var rest := SplitOnSpaces(w[1..] + t);
      assert rest == [w[1..] + pieces[0]] + pieces[1..];
      assert SplitOnSpaces(w + t) == [[w[0]] + rest[0]] + rest[1..];
      assert rest[0] == w[1..] + pieces[0] && rest[1..] == pieces[1..];
      assert [w[0]] + (w[1..] + pieces[0]) == w + pieces[0];
    } else {
      var pieces := SplitOnSpaces(t);
      assert w + t == t && w + pieces[0] == pieces[0];
      assert pieces == [pieces[0]] + pieces[1..];
    }
  }

  /** Splitting the join of non-empty, space-free parts gives back the parts. */
  lemma {:induction false} SplitJoin(parts: seq<string>)
    requires |parts| >= 1
    requires forall i :: 0 <= i < |parts| ==> ' ' !in parts[i]
    ensures SplitOnSpaces(JoinWithSpaces(parts)) == parts
    decreases |parts|
  {
    if |parts| == 1 {
      SplitAfterWord(parts[0], "");
      assert parts[0] + "" == parts[0];
    } else {
      var tail := JoinWithSpaces(parts[1..]);
      SplitJoin(parts[1..]);
      SplitAfterWord(parts[0], " " + tail);
      assert (" " + tail)[1..] == tail;
      assert SplitOnSpaces(" " + tail) == [""] + parts[1..];
      assert parts[0] + " " + tail == parts[0] + (" " + tail);
      assert parts[0] + "" == parts[0];
      assert parts == [parts[0]] + parts[1..];
    }
  }

  /** The comprehension distributes over concatenation of token sequences, so the
      lemmas appear in token order. */
  lemma {:induction false} NonStopLemmasAppend(a: seq<Token>, b: seq<Token>)
    ensures NonStopLemmas(a + b) == NonStopLemmas(a) + NonStopLemmas(b)
    decreases |a|
  {
    if a == [] {
      assert a + b == b;
    } else {
      assert (a + b)[1..] == a[1..] + b;
      NonStopLemmasAppend(a[1..], b);
    }
  }

  /** Joining two non-empty lists of parts is joining each and putting one space
      between the results, whatever the parts contain. */
  lemma {:induction false} JoinWithSpacesAppend(a: seq<string>, b: seq<string>)
    requires |a| > 0 && |b| > 0
    ensures JoinWithSpaces(a + b) == JoinWithSpaces(a) + " " + JoinWithSpaces(b)
    decreases |a|
  {
    assert (a + b)[0] == a[0];
    if |a| > 1 {
      assert (a + b)[1..] == a[1..] + b;
      JoinWithSpacesAppend(a[1..], b);
    } else {
      assert (a + b)[1..] == b;
    }
  }

  /** The lemma join of `clean_text`. */
  function JoinLemmas(tokens: seq<Token>): (r: string)
    ensures (forall j :: 0 <= j < |tokens| ==> tokens[j].isStop) ==> r == ""
  {
    JoinWithSpaces(NonStopLemmas(tokens))
  }

  /** The joined text of two token sequences that each hold a non-stop token is
      the joined text of the first, one space, and the joined text of the second,
      for any lemmas (including the whitespace lemmas of whitespace tokens). */
  lemma JoinLemmasAppend(a: seq<Token>, b: seq<Token>)
    requires exists j :: 0 <= j < |a| && !a[j].isStop
    requires exists j :: 0 <= j < |b| && !b[j].isStop
    ensures JoinLemmas(a + b) == JoinLemmas(a) + " " + JoinLemmas(b)
  {
    NonStopLemmasAppend(a, b);
    JoinWithSpacesAppend(NonStopLemmas(a), NonStopLemmas(b));
  }

  /** When no lemma holds a space and some token is not a stop word, the joined
      text splits on single spaces into exactly the non-stop lemmas, in order. */
  lemma JoinLemmasSplitsBack(tokens: seq<Token>)
    requires exists j :: 0 <= j < |tokens| && !tokens[j].isStop
    requires forall j :: 0 <= j < |tokens| ==> ' ' !in tokens[j].lemmaText
    ensures SplitOnSpaces(JoinLemmas(tokens)) == NonStopLemmas(tokens)
  {
    var lemmas := NonStopLemmas(tokens);
    forall i | 0 <= i < |lemmas| ensures ' ' !in lemmas[i] {
      var j :| 0 <= j < |tokens| && !tokens[j].isStop && tokens[j].lemmaText == lemmas[i];
    }
    SplitJoin(lemmas);
  }

  /** The joined text is empty exactly when no token survives the stop-word
      filter or the only survivor has an empty lemma. */
  lemma JoinLemmasEmpty(tokens: seq<Token>)
    ensures JoinLemmas(tokens) == "" <==>
      (forall j :: 0 <= j < |tokens| ==> tokens[j].isStop) || NonStopLemmas(tokens) == [""]
  {
  }
}
