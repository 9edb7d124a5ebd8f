/** The in-memory part of getIndex: documents (a title and a list of term records each)
    become an inverted index term -> "title:count, title:count, ...".

    The source first accumulates a nested dict every_term (term -> title -> summed count) over
    all documents and their records, then, visiting the terms in sorted order, renders each
    term's title/count pairs sorted by title as "title:count" joined with ", ". */
module InvertedIndex {
  import opened Strings
  import opened Decimal
  import opened Ordering
  import opened Dicts
  import opened Records

  /** every_term: term -> (title -> summed count), both levels insertion-ordered dicts. */
  type Aggregation = Dict<Dict<nat>>

  ghost predicate AggValid(agg: Aggregation) {
    agg.Valid() && forall t :: t in agg.vals ==> agg.vals[t].Valid()
  }

  // ---------------------------------------------------------------------------------------------
  // Specification functions

  /** One step of the accumulation loop, for record r of a document titled title. */
  function AddRecord(agg: Aggregation, title: string, r: TermStat): (res: Aggregation)
    requires AggValid(agg)
    ensures AggValid(res)
  {
    if r.term in agg.vals then
      var inner := agg.vals[r.term];
      if title in inner.vals then agg.Put(r.term, inner.Put(title, inner.vals[title] + r.count))
      else agg.Put(r.term, inner.Put(title, r.count))
    else
      agg.Put(r.term, Dict([title], map[title := r.count]))
  }

  /** The accumulation over the records of one document, in order. */
  function AddRecords(agg: Aggregation, title: string, rs: seq<TermStat>): (res: Aggregation)
    requires AggValid(agg)
    ensures AggValid(res)
  {
    if rs == [] then agg else AddRecord(AddRecords(agg, title, rs[..|rs| - 1]), title, rs[|rs| - 1])
  }

  /** every_term after the accumulation over all documents, in order. */
  function Aggregate(docs: seq<Document>): (res: Aggregation)
    ensures AggValid(res)
  {
    if docs == [] then Empty()
    else
      var last := docs[|docs| - 1];
      AddRecords(Aggregate(docs[..|docs| - 1]), last.title, last.terms)
  }

  /** The key of a (title, count) item is its title. */
  function ItemTitle(item: (string, nat)): string {
    item.0
  }

  /** title + ":" + str(freq) */
  function Field(item: (string, nat)): string {
    item.0 + ":" + NatToDecimal(item.1)
  }

  function Fields(items: seq<(string, nat)>): (r: seq<string>)
    ensures |r| == |items|
  {
    seq(|items|, i requires 0 <= i < |items| => Field(items[i]))
  }

  /** The string stored for one term: its title/count items sorted by title, rendered and
      joined with ", ". */
  function RenderEntry(inner: Dict<nat>): string
    requires inner.Valid()
  {
    JoinWith(", ", Fields(SortBy(inner.Items(), ItemTitle)))
  }

  /** Each term of every_term mapped to its entry. */
  function Entries(agg: Aggregation): (r: map<string, string>)
    requires AggValid(agg)
    ensures forall t :: t in r <==> t in agg.vals
    ensures forall t :: t in r ==> r[t] == RenderEntry(agg.vals[t])
  {
    map t | t in agg.vals :: RenderEntry(agg.vals[t])
  }

  /** A map with the keys of every_term and their entries is Entries(agg). */
  lemma EqualEntries(agg: Aggregation, m: map<string, string>)
    requires AggValid(agg)
    requires forall t :: t in m <==> t in agg.vals
    requires forall t :: t in m ==> m[t] == RenderEntry(agg.vals[t])
    ensures m == Entries(agg)
  {
    var e := Entries(agg);
    assert forall t :: t in m ==> m[t] == e[t];
  }

  /** The dict getIndex returns: its keys inserted in sorted order, each mapped to its entry. */
  function IndexOf(docs: seq<Document>): Dict<string> {
    var agg := Aggregate(docs);
    Dict(Sort(agg.keys), Entries(agg))
  }

  // ---------------------------------------------------------------------------------------------
  // Reference definitions, document by document

  /** The sum of the counts of the records for term. */
  function RecordSum(rs: seq<TermStat>, term: string): nat {
    if rs == [] then 0
    else RecordSum(rs[..|rs| - 1], term) + (if rs[|rs| - 1].term == term then rs[|rs| - 1].count else 0)
  }

  /** The sum, over the documents titled title, of their counts for term. */
  function TitleCount(docs: seq<Document>, term: string, title: string): nat {
    if docs == [] then 0
    else
      var last := docs[|docs| - 1];
      TitleCount(docs[..|docs| - 1], term, title) + (if last.title == title then RecordSum(last.terms, term) else 0)
  }

  /** The terms that occur in some document. */
  function AllTerms(docs: seq<Document>): (r: set<string>)
    ensures forall t :: t in r <==> exists i :: 0 <= i < |docs| && t in TermNames(docs[i].terms)
  {
    if docs == [] then {}
    else
      var init := docs[..|docs| - 1];
      var r := AllTerms(init) + TermNames(docs[|docs| - 1].terms);
      assert forall i :: 0 <= i < |init| ==> init[i] == docs[i];
      r
  }

  /** The titles of the documents in which term occurs. */
  function TitlesWith(docs: seq<Document>, term: string): (r: set<string>)
    ensures forall title :: title in r <==>
      exists i :: 0 <= i < |docs| && docs[i].title == title && term in TermNames(docs[i].terms)
  {
    if docs == [] then {}
    else
      var init := docs[..|docs| - 1];
      var last := docs[|docs| - 1];
      var r := TitlesWith(init, term) + (if term in TermNames(last.terms) then {last.title} else {});
      assert forall i :: 0 <= i < |init| ==> init[i] == docs[i];
      r
  }

  /** Whether every_term has an entry for term and title. */
  predicate Has(agg: Aggregation, term: string, title: string) {
    term in agg.vals && title in agg.vals[term].vals
  }

  /** every_term[term][title], or 0 when there is none. */
  function Lookup(agg: Aggregation, term: string, title: string): nat {
    if Has(agg, term, title) then agg.vals[term].vals[title] else 0
  }

  // ---------------------------------------------------------------------------------------------
  // The loops of getIndex

  /** The loop over col.find(): each document's records are added in turn. */
  method Accumulate(docs: seq<Document>) returns (everyTerm: Aggregation)
    ensures everyTerm == Aggregate(docs)
  {
    everyTerm := Empty();
    var i := 0;
    while i < |docs|
      invariant 0 <= i <= |docs|
      invariant everyTerm == Aggregate(docs[..i])
    {
      everyTerm := AccumulateDocument(everyTerm, docs[i].title, docs[i].terms);
      assert docs[..i + 1][..i] == docs[..i];
      i := i + 1;
    }
    assert docs[..|docs|] == docs;
  }

  /** The inner loop over one document's "terms", record by record. */
  method AccumulateDocument(agg: Aggregation, dataTitle: string, dataTerms: seq<TermStat>)
    returns (everyTerm: Aggregation)
    requires AggValid(agg)
    ensures everyTerm == AddRecords(agg, dataTitle, dataTerms)
  {
    everyTerm := agg;
    var j := 0;
    while j < |dataTerms|
      invariant 0 <= j <= |dataTerms|
      invariant AggValid(everyTerm)
      invariant everyTerm == AddRecords(agg, dataTitle, dataTerms[..j])
    {
      AddRecordsStep(agg, dataTitle, dataTerms, j);
      everyTerm := AccumulateRecord(everyTerm, dataTitle, dataTerms[j]);
      j := j + 1;
    }
    assert dataTerms[..|dataTerms|] == dataTerms;
  }

  /** The body of the inner loop for one record: the count is added to
      every_term[term][title], creating the inner dict or the entry when it is missing.
      This is the statement form of the source's if/else, proved equal to the function
      AddRecord that specifies it. */
  method AccumulateRecord(everyTerm: Aggregation, dataTitle: string, term: TermStat)
    returns (next: Aggregation)
    requires AggValid(everyTerm)
    ensures next == AddRecord(everyTerm, dataTitle, term)
  {
    var termName := term.term;
    if termName in everyTerm.vals {
      var inner := everyTerm.vals[termName];
      if dataTitle in inner.vals {
        next := everyTerm.Put(termName, inner.Put(dataTitle, inner.vals[dataTitle] + term.count));
      } else {
        next := everyTerm.Put(termName, inner.Put(dataTitle, term.count));
      }
    } else {
      next := everyTerm.Put(termName, Dict([dataTitle], map[dataTitle := term.count]));
    }
  }

  lemma AddRecordsStep(agg: Aggregation, title: string, rs: seq<TermStat>, j: nat)
    requires AggValid(agg) && j < |rs|
    ensures AddRecords(agg, title, rs[..j + 1]) == AddRecord(AddRecords(agg, title, rs[..j]), title, rs[j])
  {
    assert rs[..j + 1][..j] == rs[..j];
  }

  /** The innermost loop: field_strings for one term's items, already sorted by title. */
  method RenderFields(items: seq<(string, nat)>) returns (fieldStrings: seq<string>)
    ensures fieldStrings == Fields(items)
  {
    fieldStrings := [];
    var m := 0;
    while m < |items|
      invariant 0 <= m <= |items|
      invariant |fieldStrings| == m
      invariant forall q :: 0 <= q < m ==> fieldStrings[q] == Field(items[q])
    {
      var (title, freq) := items[m];
      fieldStrings := fieldStrings + [title + ":" + NatToDecimal(freq)];
      m := m + 1;
    }
  }

  /** The body of the formatting loop for one term: its items sorted by title (twice, as the
      source does; the second sort finds them in order already), rendered and joined. */
  method FormatEntry(inner: Dict<nat>) returns (entry: string)
    requires inner.Valid()
    ensures entry == RenderEntry(inner)
  {
    var termFrequencies := SortBy(inner.Items(), ItemTitle);
    var ordered := SortBy(termFrequencies, ItemTitle);
    SortBySorted(termFrequencies, ItemTitle);
    var fieldStrings := RenderFields(ordered);
    entry := JoinWith(", ", fieldStrings);
  }

  /** The formatting loop: reverse_index[term] is filled for each term in sorted(every_term). */
  method Format(everyTerm: Aggregation) returns (reverseIndex: Dict<string>)
    requires AggValid(everyTerm)
    ensures reverseIndex.keys == Sort(everyTerm.keys)
    ensures reverseIndex.vals == Entries(everyTerm)
  {
    var sortedTerms := Sort(everyTerm.keys);
    DistinctPermutation(everyTerm.keys, sortedTerms);
    assert forall t :: t in sortedTerms <==> t in multiset(everyTerm.keys);
    reverseIndex := FormatTerms(everyTerm, sortedTerms);
    EqualEntries(everyTerm, reverseIndex.vals);
  }

  /** The loop of the formatting step over the given terms, which are distinct keys of
      every_term. */
  method FormatTerms(everyTerm: Aggregation, sortedTerms: seq<string>) returns (reverseIndex: Dict<string>)
    requires AggValid(everyTerm)
    requires Distinct(sortedTerms)
    requires forall t :: t in sortedTerms ==> t in everyTerm.vals
    ensures reverseIndex.Valid()
    ensures reverseIndex.keys == sortedTerms
    ensures forall t :: t in reverseIndex.vals ==>
      t in everyTerm.vals && reverseIndex.vals[t] == RenderEntry(everyTerm.vals[t])
  {
    reverseIndex := Empty();
    var k := 0;
    while k < |sortedTerms|
      invariant 0 <= k <= |sortedTerms|
      invariant reverseIndex.Valid()
      invariant reverseIndex.keys == sortedTerms[..k]
      invariant forall t :: t in reverseIndex.vals ==>
        t in everyTerm.vals && reverseIndex.vals[t] == RenderEntry(everyTerm.vals[t])
    {
      var indexTerm := sortedTerms[k];
      var entry := FormatEntry(everyTerm.vals[indexTerm]);
      assert indexTerm !in sortedTerms[..k];
      reverseIndex := reverseIndex.Put(indexTerm, entry);
      assert sortedTerms[..k + 1] == sortedTerms[..k] + [indexTerm];
      k := k + 1;
    }
    assert sortedTerms[..|sortedTerms|] == sortedTerms;
  }

  /** getIndex(col), with the documents col.find() yields given as a sequence. */
  method GetIndex(docs: seq<Document>) returns (reverseIndex: Dict<string>)
    ensures reverseIndex == IndexOf(docs)
  {
    var everyTerm := Accumulate(docs);
    reverseIndex := Format(everyTerm);
  }

  // ---------------------------------------------------------------------------------------------
  // Properties

  lemma TermNamesLast(rs: seq<TermStat>)
    requires rs != []
    ensures TermNames(rs) == TermNames(rs[..|rs| - 1]) + {rs[|rs| - 1].term}
  {
    var init := rs[..|rs| - 1];
    assert forall i :: 0 <= i < |init| ==> init[i] == rs[i];
  }

  /** One record adds its count to the one (term, title) entry it names and creates that
      entry, and leaves every other entry as it was. */
  lemma AddRecordEffect(agg: Aggregation, title: string, r: TermStat, term: string, ti: string)
    requires AggValid(agg)
    ensures term in AddRecord(agg, title, r).vals <==> term in agg.vals || term == r.term
    ensures Has(AddRecord(agg, title, r), term, ti) <==> Has(agg, term, ti) || (term == r.term && ti == title)
    ensures Lookup(AddRecord(agg, title, r), term, ti) ==
      Lookup(agg, term, ti) + (if term == r.term && ti == title then r.count else 0)
  {
  }

  /** The records of one document add, for each term, the sum of their counts to the entry
      under the document's title. */
  lemma {:induction false} AddRecordsEffect(agg: Aggregation, title: string, rs: seq<TermStat>, term: string, ti: string)
    requires AggValid(agg)
    ensures term in AddRecords(agg, title, rs).vals <==> term in agg.vals || term in TermNames(rs)
    ensures Has(AddRecords(agg, title, rs), term, ti) <==> Has(agg, term, ti) || (ti == title && term in TermNames(rs))
    ensures Lookup(AddRecords(agg, title, rs), term, ti) ==
      Lookup(agg, term, ti) + (if ti == title then RecordSum(rs, term) else 0)
  {
    if rs != [] {
      var init := rs[..|rs| - 1];
      AddRecordsEffect(agg, title, init, term, ti);
      AddRecordEffect(AddRecords(agg, title, init), title, rs[|rs| - 1], term, ti);
      TermNamesLast(rs);
    }
  }

  /** every_term has a key for exactly the terms that occur in some document, an entry
      term/title exactly when a document with that title has the term, and that entry holds
      the sum of the counts over all such documents. */
  lemma {:induction false} AggregateSpec(docs: seq<Document>, term: string, ti: string)
    ensures term in Aggregate(docs).vals <==> term in AllTerms(docs)
    ensures Has(Aggregate(docs), term, ti) <==> ti in TitlesWith(docs, term)
    ensures Lookup(Aggregate(docs), term, ti) == TitleCount(docs, term, ti)
  {
    if docs != [] {
      var init := docs[..|docs| - 1];
      var last := docs[|docs| - 1];
      AggregateSpec(init, term, ti);
      AddRecordsEffect(Aggregate(init), last.title, last.terms, term, ti);
    }
  }

  /** The index is a well-formed dict whose keys are the terms of the documents, each once,
      inserted in ascending order. */
  lemma IndexKeys(docs: seq<Document>)
    ensures IndexOf(docs).Valid()
    ensures StrictlySortedBy(IndexOf(docs).keys, Self)
    ensures forall t :: t in IndexOf(docs).vals <==> t in AllTerms(docs)
    ensures docs == [] ==> IndexOf(docs) == Dict([], map[])
  {
    var agg := Aggregate(docs);
    var ks := Sort(agg.keys);
    assert Distinct(agg.keys);
    DistinctPermutation(agg.keys, ks);
    SortedDistinctIsStrict(ks, Self);
    assert forall t :: t in ks <==> t in multiset(agg.keys);
    forall t ensures t in IndexOf(docs).vals <==> t in AllTerms(docs) {
      AggregateSpec(docs, t, "");
    }
  }

  /** The fields an entry of term should list, for the given titles. */
  function TitleFields(docs: seq<Document>, term: string, titles: seq<string>): (r: seq<string>)
    ensures |r| == |titles|
    ensures forall i :: 0 <= i < |titles| ==> r[i] == titles[i] + ":" + NatToDecimal(TitleCount(docs, term, titles[i]))
  {
    seq(|titles|, i requires 0 <= i < |titles| => titles[i] + ":" + NatToDecimal(TitleCount(docs, term, titles[i])))
  }

  /** The titles of a list of items, in order. */
  function ItemTitles(items: seq<(string, nat)>): (r: seq<string>)
    ensures |r| == |items|
    ensures forall i :: 0 <= i < |items| ==> r[i] == items[i].0
  {
    seq(|items|, i requires 0 <= i < |items| => items[i].0)
  }

  /** Each item of the sorted items of an inner dict is one of its entries. */
  lemma SortedItemsEntries(inner: Dict<nat>)
    requires inner.Valid()
    ensures forall i :: 0 <= i < |SortBy(inner.Items(), ItemTitle)| ==>
      var item := SortBy(inner.Items(), ItemTitle)[i]; item.0 in inner.vals && item.1 == inner.vals[item.0]
  {
    var all := inner.Items();
    var items := SortBy(all, ItemTitle);
    forall i | 0 <= i < |items| ensures items[i].0 in inner.vals && items[i].1 == inner.vals[items[i].0] {
      assert items[i] in multiset(all);
    }
  }

  /** The items of an inner dict sorted by title are its entries, each title once and in
      strictly ascending order. */
  lemma SortedItems(inner: Dict<nat>)
    requires inner.Valid()
    ensures forall i :: 0 <= i < |SortBy(inner.Items(), ItemTitle)| ==>
      var item := SortBy(inner.Items(), ItemTitle)[i]; item.0 in inner.vals && item.1 == inner.vals[item.0]
    ensures StrictlySortedBy(ItemTitles(SortBy(inner.Items(), ItemTitle)), Self)
    ensures forall ti :: ti in ItemTitles(SortBy(inner.Items(), ItemTitle)) <==> ti in inner.vals
  {
    var items := SortBy(inner.Items(), ItemTitle);
    SortedItemsEntries(inner);
    SortedItemsCover(inner);
    SortedTitlesStrict(inner, items);
  }

  /** Every title of an inner dict occurs among its sorted items. */
  lemma SortedItemsCover(inner: Dict<nat>)
    requires inner.Valid()
    ensures forall ti :: ti in inner.vals ==> ti in ItemTitles(SortBy(inner.Items(), ItemTitle))
  {
    var all := inner.Items();
    var items := SortBy(all, ItemTitle);
    var ts := ItemTitles(items);
    forall ti | ti in inner.vals ensures ti in ts {
      var j :| 0 <= j < |inner.keys| && inner.keys[j] == ti;
      assert all[j] in multiset(items);
      var m :| 0 <= m < |items| && items[m] == all[j];
      assert ts[m] == ti;
    }
  }

  lemma SortedTitlesStrict(inner: Dict<nat>, items: seq<(string, nat)>)
    requires inner.Valid()
    requires items == SortBy(inner.Items(), ItemTitle)
    requires forall i :: 0 <= i < |items| ==> items[i].0 in inner.vals && items[i].1 == inner.vals[items[i].0]
    ensures StrictlySortedBy(ItemTitles(items), Self)
  {
    var all := inner.Items();
    assert Distinct(all);
    DistinctPermutation(all, items);
    var ts := ItemTitles(items);
    assert SortedBy(ts, Self);
    SortedDistinctIsStrict(ts, Self);
  }

  /** The entry of a term lists, in ascending order of title, each title of a document
      containing the term, once, with the term's total count over the documents of that title. */
  lemma IndexEntry(docs: seq<Document>, term: string, titles: seq<string>)
    requires term in AllTerms(docs)
    requires StrictlySortedBy(titles, Self)
    requires forall ti :: ti in titles <==> ti in TitlesWith(docs, term)
    ensures term in IndexOf(docs).vals
    ensures IndexOf(docs).vals[term] == JoinWith(", ", TitleFields(docs, term, titles))
  {
    var agg := Aggregate(docs);
    AggregateSpec(docs, term, "");
    var inner := agg.vals[term];
    var items := SortBy(inner.Items(), ItemTitle);
    SortedItems(inner);
    forall ti ensures ti in ItemTitles(items) <==> ti in titles {
      AggregateSpec(docs, term, ti);
    }
    StrictlySortedUnique(ItemTitles(items), titles);
    forall i | 0 <= i < |titles| ensures Fields(items)[i] == TitleFields(docs, term, titles)[i] {
      AggregateSpec(docs, term, titles[i]);
    }
    assert Fields(items) == TitleFields(docs, term, titles);
  }
}

/** The index of two small collections, worked out from the properties above. */
module IndexExamples {
  import opened Strings
  import opened Decimal
  import opened Ordering
  import opened Dicts
  import opened Records
  import opened InvertedIndex
  import TokenizerExamples
  import Store

  function DocB(): Document {
    Document(IntId(1), "B", "sun", 3, "", "", [TermStat("sun", 1, 3)])
  }

  function DocA(): Document {
    Document(IntId(2), "A", "sun sun", 6, "", "", [TermStat("sun", 2, 3)])
  }

  function DocA2(): Document {
    Document(IntId(3), "A", "sun", 3, "", "", [TermStat("sun", 1, 3)])
  }

  function SunDocs(): seq<Document> {
    [DocB(), DocA(), DocA2()]
  }

  lemma OneRecord(r: TermStat, t: string)
    ensures TermNames([r]) == {r.term}
    ensures RecordSum([r], t) == if r.term == t then r.count else 0
  {
    assert [r][..0] == [];
    assert [r][0] == r;
    assert r.term in TermNames([r]);
  }

  lemma SunPrefixes()
    ensures SunDocs()[..2] == [DocB(), DocA()]
    ensures SunDocs()[..2][..1] == [DocB()]
    ensures SunDocs()[..2][..1][..0] == []
  {
  }

  lemma SunTerms()
    ensures AllTerms(SunDocs()) == {"sun"}
    ensures TitlesWith(SunDocs(), "sun") == {"A", "B"}
  {
    SunPrefixes();
    OneRecord(TermStat("sun", 1, 3), "sun");
    OneRecord(TermStat("sun", 2, 3), "sun");
  }

  lemma SunCounts()
    ensures TitleCount(SunDocs(), "sun", "A") == 3
    ensures TitleCount(SunDocs(), "sun", "B") == 1
  {
    SunPrefixes();
    OneRecord(TermStat("sun", 1, 3), "sun");
    OneRecord(TermStat("sun", 2, 3), "sun");
  }

  lemma SunFields()
    ensures JoinWith(", ", TitleFields(SunDocs(), "sun", ["A", "B"])) == "A:3, B:1"
  {
    SunCounts();
    var f := TitleFields(SunDocs(), "sun", ["A", "B"]);
    assert NatToDecimal(3) == "3";
    assert NatToDecimal(1) == "1";
    assert f[0] == "A:3";
    assert f[1] == "B:1";
    assert f == ["A:3", "B:1"];
    assert JoinWith(", ", f[1..]) == "B:1";
  }

  lemma SunKeys()
    ensures IndexOf(SunDocs()).keys == ["sun"]
    ensures forall t :: t in IndexOf(SunDocs()).vals <==> t == "sun"
  {
    SunTerms();
    IndexKeys(SunDocs());
    StrictlySortedUnique(IndexOf(SunDocs()).keys, ["sun"]);
  }

  lemma SunEntry()
    ensures "sun" in IndexOf(SunDocs()).vals
    ensures IndexOf(SunDocs()).vals["sun"] == "A:3, B:1"
  {
    SunTerms();
    assert Less("A", "B");
    IndexEntry(SunDocs(), "sun", ["A", "B"]);
    SunFields();
  }

  /** Documents B, A, A all holding "sun": the entry sorts the titles and sums the two A's. */
  lemma SunIndex()
    ensures IndexOf(SunDocs()) == Dict(["sun"], map["sun" := "A:3, B:1"])
  {
    SunKeys();
    SunEntry();
    SingletonMap(IndexOf(SunDocs()).vals, "sun", "A:3, B:1");
  }

  /** Two documents created from their texts: A holds "sun sun" and B holds "sun". */
  function TextDocs(): seq<Document> {
    [Store.NewDocument(IntId(2), "sun sun", "A", "", ""), Store.NewDocument(IntId(1), "sun", "B", "", "")]
  }

  /** createDocument builds exactly the records DocA and DocB from those texts. */
  lemma TextDocsRecords()
    ensures TextDocs() == PairDocs()
  {
    TokenizerExamples.EvaluateSunSun();
    TokenizerExamples.EvaluateSun();
  }

  function PairDocs(): seq<Document> {
    [DocA(), DocB()]
  }

  lemma PairTerms()
    ensures AllTerms(PairDocs()) == {"sun"}
    ensures TitlesWith(PairDocs(), "sun") == {"A", "B"}
    ensures TitleCount(PairDocs(), "sun", "A") == 2
    ensures TitleCount(PairDocs(), "sun", "B") == 1
  {
    assert PairDocs()[..1] == [DocA()];
    assert PairDocs()[..1][..0] == [];
    OneRecord(TermStat("sun", 1, 3), "sun");
    OneRecord(TermStat("sun", 2, 3), "sun");
  }

  lemma PairFields()
    ensures JoinWith(", ", TitleFields(PairDocs(), "sun", ["A", "B"])) == "A:2, B:1"
  {
    PairTerms();
    var f := TitleFields(PairDocs(), "sun", ["A", "B"]);
    assert NatToDecimal(2) == "2";
    assert NatToDecimal(1) == "1";
    assert f[0] == "A:2";
    assert f[1] == "B:1";
    assert f == ["A:2", "B:1"];
    assert JoinWith(", ", f[1..]) == "B:1";
  }

  lemma PairKeys()
    ensures IndexOf(PairDocs()).keys == ["sun"]
    ensures forall t :: t in IndexOf(PairDocs()).vals <==> t == "sun"
  {
    PairTerms();
    IndexKeys(PairDocs());
    StrictlySortedUnique(IndexOf(PairDocs()).keys, ["sun"]);
  }

  lemma PairEntry()
    ensures "sun" in IndexOf(PairDocs()).vals
    ensures IndexOf(PairDocs()).vals["sun"] == "A:2, B:1"
  {
    PairTerms();
    assert Less("A", "B");
    IndexEntry(PairDocs(), "sun", ["A", "B"]);
    PairFields();
  }

  /** From the texts through the tokenizer to the index: A:"sun sun" and B:"sun" give
      {"sun": "A:2, B:1"}. */
  lemma TextIndex()
    ensures IndexOf(TextDocs()) == Dict(["sun"], map["sun" := "A:2, B:1"])
  {
    TextDocsRecords();
    PairKeys();
    PairEntry();
    SingletonMap(IndexOf(PairDocs()).vals, "sun", "A:2, B:1");
  }

  lemma SingletonMap(m: map<string, string>, k: string, v: string)
    requires forall t :: t in m <==> t == k
    requires k in m && m[k] == v
    ensures m == map[k := v]
  {
  }
}
