/** evaluateDocText (and the identical preprocessing inlined in createDocument): raw text becomes
    a list of {term, count, num_chars} records, one per distinct term, and a total character count.

    The source works in three loops, kept as three methods here:
      1. every character that is not alphanumeric becomes a space;
      2. after lower-casing and splitting on " ", every non-empty piece bumps its term's count in
         an insertion-ordered dict and adds its length to the total;
      3. the dict's items become the records, in insertion order (first occurrence). */
module Tokenizer {
  import opened Chars
  import opened Strings
  import opened Dicts
  import opened Records

  // ---------------------------------------------------------------------------------------------
  // Specification functions

  /** What the first loop appends for one character. */
  function MaskChar(c: char): char {
    if IsAlnum(c) then c else ' '
  }

  /** The text after the first loop: alphanumeric characters kept, all others spaces. */
  function Masked(text: string): (r: string)
    ensures |r| == |text|
  {
    seq(|text|, i requires 0 <= i < |text| => MaskChar(text[i]))
  }

  /** str.lower on ASCII. */
  function LowerAll(s: string): (r: string)
    ensures |r| == |s|
  {
    seq(|s|, i requires 0 <= i < |s| => Lower(s[i]))
  }

  /** "".join(preprocess_text).lower() */
  function Normalize(text: string): (r: string)
    ensures |r| == |text|
    ensures forall i :: 0 <= i < |text| ==> (r[i] == ' ' <==> !IsAlnum(text[i]))
    ensures forall i :: 0 <= i < |text| && IsAlnum(text[i]) ==> r[i] == Lower(text[i])
  {
    LowerAll(Masked(text))
  }

  /** The pieces the second loop counts: the non-empty ones, in order. */
  function NonEmpty(pieces: seq<string>): (r: seq<string>)
    ensures |r| <= |pieces|
  {
    if pieces == [] then []
    else
      var last := pieces[|pieces| - 1];
      NonEmpty(pieces[..|pieces| - 1]) + (if |last| == 0 then [] else [last])
  }

  /** The token occurrences of a text: the non-empty pieces of its normalized form split on " ". */
  function Tokens(text: string): seq<string> {
    NonEmpty(Split(Normalize(text)))
  }

  /** The sum of the lengths of a sequence of strings. */
  function SumLengths(ts: seq<string>): nat {
    if ts == [] then 0 else SumLengths(ts[..|ts| - 1]) + |ts[|ts| - 1]|
  }

  /** One step of the counting loop: term_counts[t] += 1, or term_counts[t] = 1 for a new term. */
  function Bump(d: Dict<nat>, t: string): (r: Dict<nat>)
    requires d.Valid()
    ensures r.Valid()
  {
    if t in d.vals then d.Put(t, d.vals[t] + 1) else d.Put(t, 1)
  }

  /** term_counts after counting the tokens ts, in order. */
  function Tally(ts: seq<string>): (r: Dict<nat>)
    ensures r.Valid()
  {
    if ts == [] then Empty() else Bump(Tally(ts[..|ts| - 1]), ts[|ts| - 1])
  }

  /** The records the third loop builds from the dict's items. */
  function TermList(d: Dict<nat>): (r: seq<TermStat>)
    requires d.Valid()
    ensures |r| == |d.keys|
  {
    seq(|d.keys|, i requires 0 <= i < |d.keys| => TermStat(d.keys[i], d.vals[d.keys[i]], |d.keys[i]|))
  }

  /** The result evaluateDocText computes for a text. */
  function Evaluate(text: string): TextStats {
    var tokens := Tokens(text);
    TextStats(TermList(Tally(tokens)), SumLengths(tokens))
  }

  /** The letters and digits of a text, lower-cased, in order: an independent description
      of what the tokens spell. */
  function AlnumChars(text: string): (r: string)
    ensures |r| <= |text|
  {
    if text == [] then []
    else (if IsAlnum(text[0]) then [Lower(text[0])] else []) + AlnumChars(text[1..])
  }

  // ---------------------------------------------------------------------------------------------
  // The three loops

  /** preprocess_text: one output character per input character, a space for each
      character that is not alphanumeric. */
  method MaskNonAlnum(text: string) returns (out: string)
    ensures out == Masked(text)
  {
    out := [];
    var i := 0;
    while i < |text|
      invariant 0 <= i <= |text|
      invariant |out| == i
      invariant forall k :: 0 <= k < i ==> out[k] == MaskChar(text[k])
    {
      if IsAlnum(text[i]) {
        out := out + [text[i]];
      } else {
        out := out + [' '];
      }
      i := i + 1;
    }
  }

  /** The counting loop over the pieces of the split: empty pieces are skipped; each other
      piece bumps its count and adds its length to text_char_length. */
  method CountTerms(pieces: seq<string>) returns (counts: Dict<nat>, numChars: nat)
    ensures counts == Tally(NonEmpty(pieces))
    ensures numChars == SumLengths(NonEmpty(pieces))
  {
    counts := Empty();
    numChars := 0;
    var i := 0;
    ghost var seen: seq<string> := [];
    while i < |pieces|
      invariant 0 <= i <= |pieces|
      invariant seen == NonEmpty(pieces[..i])
      invariant counts == Tally(seen)
      invariant numChars == SumLengths(seen)
    {
      var term := pieces[i];
      NonEmptyStep(pieces, i);
      if |term| == 0 {
        i := i + 1;
        continue;
      }
      TallyStep(seen, term);
      counts := CountTerm(counts, term);
      numChars := numChars + |term|;
      seen := seen + [term];
      i := i + 1;
    }
    assert pieces[..|pieces|] == pieces;
  }

  /** The body of the counting loop for a non-empty piece: term_counts[term] += 1 for a
      term seen before, term_counts[term] = 1 for a new one. This is the statement form of
      the source's if/else, proved equal to the function Bump that specifies it. */
  method CountTerm(counts: Dict<nat>, term: string) returns (next: Dict<nat>)
    requires counts.Valid()
    ensures next == Bump(counts, term)
  {
    if term in counts.vals {
      next := counts.Put(term, counts.vals[term] + 1);
    } else {
      next := counts.Put(term, 1);
    }
  }

  lemma NonEmptyStep(pieces: seq<string>, i: nat)
    requires i < |pieces|
    ensures |pieces[i]| == 0 ==> NonEmpty(pieces[..i + 1]) == NonEmpty(pieces[..i])
    ensures |pieces[i]| != 0 ==> NonEmpty(pieces[..i + 1]) == NonEmpty(pieces[..i]) + [pieces[i]]
  {
    assert pieces[..i + 1][..i] == pieces[..i];
    assert NonEmpty(pieces[..i]) + [] == NonEmpty(pieces[..i]);
  }

  lemma TallyStep(done: seq<string>, term: string)
    ensures Tally(done + [term]) == Bump(Tally(done), term)
    ensures SumLengths(done + [term]) == SumLengths(done) + |term|
  {
    assert (done + [term])[..|done|] == done;
  }

  /** The loop over term_counts.items() that builds the records. */
  method BuildTermList(counts: Dict<nat>) returns (terms: seq<TermStat>)
    requires counts.Valid()
    ensures terms == TermList(counts)
  {
    var items := counts.Items();
    terms := [];
    var k := 0;
    while k < |items|
      invariant 0 <= k <= |items|
      invariant terms == TermList(counts)[..k]
    {
      var (term, tf) := items[k];
      terms := terms + [TermStat(term, tf, |term|)];
      k := k + 1;
    }
  }

  /** evaluateDocText(docText). */
  method EvaluateDocText(docText: string) returns (r: TextStats)
    ensures r == Evaluate(docText)
  {
    var masked := MaskNonAlnum(docText);
    var pieces := Split(LowerAll(masked));
    var counts, numChars := CountTerms(pieces);
    var terms := BuildTermList(counts);
    r := TextStats(terms, numChars);
  }

  // ---------------------------------------------------------------------------------------------
  // Lemmas about the tokens

  lemma {:induction false} NonEmptyMembers(pieces: seq<string>)
    ensures forall t :: t in NonEmpty(pieces) <==> t in pieces && t != []
  {
    if pieces != [] {
      var init := pieces[..|pieces| - 1];
      NonEmptyMembers(init);
      assert pieces == init + [pieces[|pieces| - 1]];
    }
  }

  lemma {:induction false} FlattenNonEmpty(pieces: seq<string>)
    ensures Flatten(NonEmpty(pieces)) == Flatten(pieces)
  {
    if pieces != [] {
      var init := pieces[..|pieces| - 1];
      var last := pieces[|pieces| - 1];
      FlattenNonEmpty(init);
      assert pieces == init + [last];
      FlattenAppend(init, last);
      if |last| != 0 {
        FlattenAppend(NonEmpty(init), last);
      } else {
        assert NonEmpty(pieces) == NonEmpty(init) + [];
        assert NonEmpty(init) + [] == NonEmpty(init);
      }
    }
  }

  lemma {:induction false} SumLengthsFlatten(ts: seq<string>)
    ensures SumLengths(ts) == |Flatten(ts)|
  {
    if ts != [] {
      var init := ts[..|ts| - 1];
      SumLengthsFlatten(init);
      assert ts == init + [ts[|ts| - 1]];
      FlattenAppend(init, ts[|ts| - 1]);
    }
  }

  lemma {:induction false} RemoveSpacesNormalize(text: string)
    ensures RemoveSpaces(Normalize(text)) == AlnumChars(text)
  {
    if text != [] {
      var n := Normalize(text);
      assert n[1..] == Normalize(text[1..]);
      RemoveSpacesNormalize(text[1..]);
    }
  }

  /** The tokens of a text, concatenated, are its letters and digits, lower-cased, in order. */
  lemma TokensSpellText(text: string)
    ensures Flatten(Tokens(text)) == AlnumChars(text)
  {
    FlattenNonEmpty(Split(Normalize(text)));
    FlattenSplit(Normalize(text));
    RemoveSpacesNormalize(text);
  }

  /** Every token is non-empty and made only of lower-case letters and digits. */
  lemma TokensWellFormed(text: string)
    ensures forall t :: t in Tokens(text) ==> t != [] && forall c :: c in t ==> IsLowerAlnum(c)
  {
    var n := Normalize(text);
    NonEmptyMembers(Split(n));
    SplitPieces(n);
    forall t, c | t in Tokens(text) && c in t ensures IsLowerAlnum(c) {
      assert c in n && c != ' ';
      var i :| 0 <= i < |n| && n[i] == c;
      assert IsAlnum(text[i]);
    }
  }

  /** The tokens of a text are non-empty, so it has none exactly when it has no letter or digit. */
  lemma TokensEmptyIff(text: string)
    ensures Tokens(text) == [] <==> AlnumChars(text) == []
  {
    TokensSpellText(text);
    TokensWellFormed(text);
    if Tokens(text) != [] {
      var ts := Tokens(text);
      assert ts[0] in ts;
      assert Flatten(ts) == ts[0] + Flatten(ts[1..]);
    }
  }

  lemma {:induction false} AlnumCharsEmptyIff(text: string)
    ensures AlnumChars(text) == [] <==> forall i :: 0 <= i < |text| ==> !IsAlnum(text[i])
  {
    if text != [] {
      AlnumCharsEmptyIff(text[1..]);
      assert forall i :: 1 <= i < |text| ==> text[i] == text[1..][i - 1];
    }
  }

  // ---------------------------------------------------------------------------------------------
  // Lemmas about the counting

  /** term_counts maps exactly the tokens, each to its number of occurrences. */
  lemma {:induction false} TallyCounts(ts: seq<string>)
    ensures forall t :: t in Tally(ts).vals <==> t in ts
    ensures forall t :: t in Tally(ts).vals ==> Tally(ts).vals[t] == multiset(ts)[t]
  {
    if ts != [] {
      var init := ts[..|ts| - 1];
      TallyCounts(init);
      assert ts == init + [ts[|ts| - 1]];
    }
  }

  /** Changing one record's count by one changes the sums by one occurrence of that record. */
  lemma {:induction false} SumsPointUpdate(a: seq<TermStat>, b: seq<TermStat>, k: nat)
    requires |a| == |b| && k < |a|
    requires forall i :: 0 <= i < |a| && i != k ==> a[i] == b[i]
    requires b[k] == a[k].(count := a[k].count + 1)
    ensures SumCounts(b) == SumCounts(a) + 1
    ensures SumCharCounts(b) == SumCharCounts(a) + a[k].numChars
  {
    var n := |a| - 1;
    if k < n {
      SumsPointUpdate(a[..n], b[..n], k);
    } else {
      assert a[..n] == b[..n];
    }
  }

  /** Bumping a term changes the sums of the records by one occurrence of it. */
  lemma BumpSums(d: Dict<nat>, x: string)
    requires d.Valid()
    ensures SumCounts(TermList(Bump(d, x))) == SumCounts(TermList(d)) + 1
    ensures SumCharCounts(TermList(Bump(d, x))) == SumCharCounts(TermList(d)) + |x|
  {
    var a := TermList(d);
    var b := TermList(Bump(d, x));
    if x in d.vals {
      var k :| 0 <= k < |d.keys| && d.keys[k] == x;
      SumsPointUpdate(a, b, k);
    } else {
      assert b == a + [TermStat(x, 1, |x|)];
      assert b[..|b| - 1] == a;
    }
  }

  /** The counts add up to the number of tokens, and count * num_chars adds up to their
      total length. */
  lemma {:induction false} TallySums(ts: seq<string>)
    ensures SumCounts(TermList(Tally(ts))) == |ts|
    ensures SumCharCounts(TermList(Tally(ts))) == SumLengths(ts)
  {
    if ts != [] {
      var init := ts[..|ts| - 1];
      TallySums(init);
      BumpSums(Tally(init), ts[|ts| - 1]);
    }
  }

  // ---------------------------------------------------------------------------------------------
  // What evaluateDocText promises

  /** Every record's term is non-empty, lower-case and alphanumeric; its num_chars is the term's
      length; its count is the term's number of occurrences, so at least one. */
  lemma EvaluateRecords(text: string)
    ensures forall i :: 0 <= i < |Evaluate(text).terms| ==>
      var r := Evaluate(text).terms[i];
      && r.term != []
      && (forall c :: c in r.term ==> IsLowerAlnum(c))
      && r.numChars == |r.term|
      && r.count == multiset(Tokens(text))[r.term]
      && r.count >= 1
  {
    var ts := Tokens(text);
    TallyCounts(ts);
    TokensWellFormed(text);
    var d := Tally(ts);
    forall i | 0 <= i < |Evaluate(text).terms|
      ensures Evaluate(text).terms[i].term in ts
    {
      assert Evaluate(text).terms[i].term == d.keys[i];
    }
  }

  /** The records of a dict name each of its keys once. */
  lemma TermListKeys(d: Dict<nat>)
    requires d.Valid()
    ensures forall i, j :: 0 <= i < j < |TermList(d)| ==> TermList(d)[i].term != TermList(d)[j].term
    ensures forall t :: t in TermNames(TermList(d)) <==> t in d.vals
  {
    var terms := TermList(d);
    assert forall i :: 0 <= i < |terms| ==> terms[i].term == d.keys[i];
    forall t | t in d.vals ensures t in TermNames(terms) {
      var i :| 0 <= i < |d.keys| && d.keys[i] == t;
      assert terms[i].term == t;
    }
  }

  /** No two records have the same term, and the terms are exactly the tokens of the text. */
  lemma EvaluateDistinctTerms(text: string)
    ensures forall i, j :: 0 <= i < j < |Evaluate(text).terms| ==>
      Evaluate(text).terms[i].term != Evaluate(text).terms[j].term
    ensures TermNames(Evaluate(text).terms) == set t | t in Tokens(text)
  {
    var ts := Tokens(text);
    var d := Tally(ts);
    TallyCounts(ts);
    TermListKeys(d);
    assert Evaluate(text).terms == TermList(d);
    assert forall t :: t in TermNames(TermList(d)) <==> t in ts;
  }

  /** num_chars counts every token occurrence: it is the sum of the token lengths, the sum of
      count * len(term) over the records, and the number of letters and digits of the text;
      the counts add up to the number of tokens. */
  lemma EvaluateNumChars(text: string)
    ensures Evaluate(text).numChars == SumLengths(Tokens(text))
    ensures Evaluate(text).numChars == SumCharCounts(Evaluate(text).terms)
    ensures Evaluate(text).numChars == |AlnumChars(text)|
    ensures SumCounts(Evaluate(text).terms) == |Tokens(text)|
  {
    TallySums(Tokens(text));
    SumLengthsFlatten(Tokens(text));
    TokensSpellText(text);
  }

  /** A text yields no records exactly when it has no letter or digit, and then num_chars is 0. */
  lemma EvaluateEmpty(text: string)
    ensures Evaluate(text).terms == [] <==> forall i :: 0 <= i < |text| ==> !IsAlnum(text[i])
    ensures Evaluate(text).terms == [] ==> Evaluate(text).numChars == 0
  {
    TokensEmptyIff(text);
    AlnumCharsEmptyIff(text);
    EvaluateDistinctTerms(text);
    EvaluateNumChars(text);
    var ts := Tokens(text);
    if ts != [] {
      assert ts[0] in TermNames(Evaluate(text).terms);
    }
  }
}

module TokenizerExamples {
  import opened Strings
  import opened Dicts
  import opened Records
  import opened Tokenizer

  lemma {:induction false} SplitWord(w: string, rest: string)
    requires forall c :: c in w ==> c != ' '
    ensures Split(w + rest) == [w + Split(rest)[0]] + Split(rest)[1..]
  {
    var r := Split(rest);
    if w == [] {
      assert w + rest == rest && r == [r[0]] + r[1..] && w + r[0] == r[0];
    } else {
      var t := w + rest;
      assert t[0] == w[0] && w[0] in w;
      assert t[1..] == w[1..] + rest;
      assert forall c :: c in w[1..] ==> c in w;
      SplitWord(w[1..], rest);
      var u := Split(t[1..]);
      assert u == [w[1..] + r[0]] + r[1..];
      assert Split(t) == [[w[0]] + u[0]] + u[1..];
      assert [w[0]] + (w[1..] + r[0]) == w + r[0];
    }
  }

  /** A word followed by a space splits off as one piece. */
  lemma SplitWordSpace(w: string, rest: string)
    requires forall c :: c in w ==> c != ' '
    ensures Split(w + " " + rest) == [w] + Split(rest)
  {
    SplitWord(w, " " + rest);
    assert w + " " + rest == w + (" " + rest);
    assert (" " + rest)[0] == ' ' && (" " + rest)[1..] == rest;
    assert Split(" " + rest) == [[]] + Split(rest);
    assert w + [] == w;
  }

  lemma {:induction false} NonEmptyAppend(a: seq<string>, b: seq<string>)
    ensures NonEmpty(a + b) == NonEmpty(a) + NonEmpty(b)
  {
    if b != [] {
      var b' := b[..|b| - 1];
      NonEmptyAppend(a, b');
      assert (a + b)[..|a + b| - 1] == a + b';
    } else {
      assert a + b == a;
    }
  }

  lemma NormalizeHelloWorld()
    ensures Normalize("Hello, World!") == "hello" + " " + (" " + ("world" + " " + ""))
  {
  }

  lemma SplitHelloWorld()
    ensures Split("hello" + " " + (" " + ("world" + " " + ""))) == ["hello"] + [""] + ["world"] + [""]
  {
    SplitWordSpace("world", "");
    assert Split(" " + ("world" + " " + "")) == [[]] + Split("world" + " " + "");
    SplitWordSpace("hello", " " + ("world" + " " + ""));
  }

  lemma TokensHelloWorld()
    ensures Tokens("Hello, World!") == ["hello", "world"]
  {
    NormalizeHelloWorld();
    SplitHelloWorld();
    NonEmptyAppend(["hello"] + [""] + ["world"], [""]);
    NonEmptyAppend(["hello"] + [""], ["world"]);
    NonEmptyAppend(["hello"], [""]);
  }

  lemma TallyHelloWorld()
    ensures Tally(["hello", "world"]) == Dict(["hello", "world"], map["hello" := 1, "world" := 1])
  {
    assert ["hello", "world"][..1] == ["hello"];
    var d1 := Tally(["hello"]);
    assert d1 == Dict(["hello"], map["hello" := 1]);
  }

  lemma TermListHelloWorld()
    ensures TermList(Dict(["hello", "world"], map["hello" := 1, "world" := 1])) ==
      [TermStat("hello", 1, 5), TermStat("world", 1, 5)]
  {
  }

  lemma SumLengthsHelloWorld()
    ensures SumLengths(["hello", "world"]) == 10
  {
    assert ["hello", "world"][..1] == ["hello"];
    assert ["hello"][..0] == [];
  }

  /** What the source promises for "Hello, World!": hello:1 and world:1, num_chars 10. */
  lemma EvaluateHelloWorld()
    ensures Evaluate("Hello, World!") ==
      TextStats([TermStat("hello", 1, 5), TermStat("world", 1, 5)], 10)
  {
    TokensHelloWorld();
    TallyHelloWorld();
    TermListHelloWorld();
    SumLengthsHelloWorld();
  }

  lemma NormalizeCatCat()
    ensures Normalize("Cat cat") == "cat" + " " + "cat"
  {
  }

  lemma SplitCatCat()
    ensures Split("cat" + " " + "cat") == ["cat"] + ["cat"]
  {
    SplitWordSpace("cat", "cat");
    SplitWord("cat", "");
    assert Split("") == [""];
    assert "cat" + "" == "cat";
  }

  lemma TokensCatCat()
    ensures Tokens("Cat cat") == ["cat", "cat"]
  {
    NormalizeCatCat();
    SplitCatCat();
    NonEmptyAppend(["cat"], ["cat"]);
    assert ["cat"][..0] == [];
  }

  lemma TallyCatCat()
    ensures Tally(["cat", "cat"]) == Dict(["cat"], map["cat" := 2])
  {
    assert ["cat", "cat"][..1] == ["cat"];
    var d1 := Tally(["cat"]);
    assert d1 == Dict(["cat"], map["cat" := 1]);
    assert d1.vals["cat" := 2] == map["cat" := 2];
  }

  lemma SumLengthsCatCat()
    ensures SumLengths(["cat", "cat"]) == 6
  {
    assert ["cat", "cat"][..1] == ["cat"];
    assert ["cat"][..0] == [];
  }

  /** Case folding comes before counting: "Cat cat" has the one term cat, counted twice. */
  lemma EvaluateCatCat()
    ensures Evaluate("Cat cat") == TextStats([TermStat("cat", 2, 3)], 6)
  {
    TokensCatCat();
    TallyCatCat();
    SumLengthsCatCat();
    TermListCatCat();
  }

  lemma TermListCatCat()
    ensures TermList(Dict(["cat"], map["cat" := 2])) == [TermStat("cat", 2, 3)]
  {
  }

  lemma TokensSunSun()
    ensures Tokens("sun sun") == ["sun", "sun"]
  {
    assert Normalize("sun sun") == "sun" + " " + "sun";
    SplitWordSpace("sun", "sun");
    SplitWord("sun", "");
    assert Split("") == [""];
    assert "sun" + "" == "sun";
    NonEmptyAppend(["sun"], ["sun"]);
    assert ["sun"][..0] == [];
  }

  lemma TallySunSun()
    ensures Tally(["sun", "sun"]) == Dict(["sun"], map["sun" := 2])
  {
    assert ["sun", "sun"][..1] == ["sun"];
    var d1 := Tally(["sun"]);
    assert d1 == Dict(["sun"], map["sun" := 1]);
    assert d1.vals["sun" := 2] == map["sun" := 2];
  }

  lemma SumLengthsSunSun()
    ensures SumLengths(["sun", "sun"]) == 6
  {
    assert ["sun", "sun"][..1] == ["sun"];
    assert ["sun"][..0] == [];
  }

  lemma TermListSunSun()
    ensures TermList(Dict(["sun"], map["sun" := 2])) == [TermStat("sun", 2, 3)]
  {
  }

  /** "sun sun" has the one term sun, counted twice, and 6 characters in terms. */
  lemma EvaluateSunSun()
    ensures Evaluate("sun sun") == TextStats([TermStat("sun", 2, 3)], 6)
  {
    TokensSunSun();
    TallySunSun();
    SumLengthsSunSun();
    TermListSunSun();
  }

  lemma TokensSun()
    ensures Tokens("sun") == ["sun"]
  {
    assert Normalize("sun") == "sun" + "";
    SplitWord("sun", "");
    assert Split("") == [""];
    assert "sun" + "" == "sun";
    assert Split(Normalize("sun")) == ["sun"];
    assert ["sun"][..0] == [];
  }

  lemma TallySun()
    ensures Tally(["sun"]) == Dict(["sun"], map["sun" := 1])
  {
    assert ["sun"][..0] == [];
  }

  lemma TermListSun()
    ensures TermList(Dict(["sun"], map["sun" := 1])) == [TermStat("sun", 1, 3)]
  {
  }

  /** "sun" has the one term sun, counted once. */
  lemma EvaluateSun()
    ensures Evaluate("sun") == TextStats([TermStat("sun", 1, 3)], 3)
  {
    TokensSun();
    TallySun();
    assert ["sun"][..0] == [];
    assert SumLengths(["sun"]) == 3;
    TermListSun();
  }

  lemma TokensDog()
    ensures Tokens("dog") == ["dog"]
  {
    assert Normalize("dog") == "dog" + "";
    SplitWord("dog", "");
    assert Split("") == [""];
    assert "dog" + "" == "dog";
    assert Split(Normalize("dog")) == ["dog"];
    assert ["dog"][..0] == [];
  }

  /** Texts without letters or digits give no records and num_chars 0. */
  lemma EvaluateNoTerms()
    ensures Evaluate("") == TextStats([], 0)
    ensures Evaluate("!!!") == TextStats([], 0)
  {
    assert Normalize("!!!") == " " + (" " + (" " + ""));
    assert Split(Normalize("!!!")) == [[]] + [[]] + [[]] + [[]];
    NonEmptyAppend([[]] + [[]] + [[]], [[]]);
    NonEmptyAppend([[]] + [[]], [[]]);
    NonEmptyAppend([[]], [[]]);
    assert Tokens("!!!") == [];
  }
}
