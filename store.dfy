/** createDocument, deleteDocument and updateDocument around an abstract store.

    The MongoDB collection is a collaborator the program only calls: here it is a class
    holding the stored documents by _id, with insert_one, delete_one and update_one, and the
    write concern as a flag saying whether the server acknowledges writes. What is modelled of
    the three operations themselves is what they compute before and after that call: the id
    coercion, the document or the update record built from the text, and the outcome
    they report. */
module Store {
  import Strings
  import Decimal
  import opened Records
  import opened Ids
  import opened Tokenizer

  /** The outcome of a write, as the source reports it (it prints a message for every
      outcome but Done). DuplicateKey stands for the error insert_one raises for a taken _id
      when writes are acknowledged. */
  datatype Report = Done | Unacknowledged | DuplicateKey | NotFound | NotModified

  /** new_dict of updateDocument: every field of a document but its _id, for "$set". */
  datatype Changes = Changes(
    title: string,
    text: string,
    numChars: nat,
    date: string,
    category: string,
    terms: seq<TermStat>)

  /** result_dict of createDocument for the given arguments. */
  function NewDocument(docId: Id, docText: string, docTitle: string, docDate: string, docCat: string): Document {
    var stats := Evaluate(docText);
    Document(NormalizeId(docId), docTitle, docText, stats.numChars, docDate, docCat, stats.terms)
  }

  /** new_dict of updateDocument for the given arguments. */
  function NewChanges(docText: string, docTitle: string, docDate: string, docCat: string): Changes {
    var stats := Evaluate(docText);
    Changes(docTitle, docText, stats.numChars, docDate, docCat, stats.terms)
  }

  /** {"$set": changes} applied to a stored document: the _id stays, every other field is
      replaced, so the document is left as it was exactly when each field already holds its
      new value. */
  function SetFields(d: Document, c: Changes): (r: Document)
    ensures r.id == d.id
    ensures r == d <==>
      d.title == c.title && d.text == c.text && d.numChars == c.numChars &&
      d.date == c.date && d.category == c.category && d.terms == c.terms
  {
    Document(d.id, c.title, c.text, c.numChars, c.date, c.category, c.terms)
  }

  class Collection {
    var docs: map<Id, Document>
    const acknowledged: bool

    /** Each document is stored under its own _id. */
    ghost predicate Valid()
      reads this
    {
      forall k :: k in docs ==> docs[k].id == k
    }

    constructor(acknowledged: bool)
      ensures Valid() && docs == map[] && this.acknowledged == acknowledged
    {
      docs := map[];
      this.acknowledged := acknowledged;
    }

    /** The report of a write that took place. */
    function Written(): Report
      reads this
    {
      if acknowledged then Done else Unacknowledged
    }

    /** insert_one(doc): stores doc unless its _id is taken. A taken _id is an error the
        caller sees only when writes are acknowledged; without acknowledgement the server sends
        no reply, so the caller sees an unacknowledged write and nothing is stored. */
    method InsertOne(doc: Document) returns (report: Report)
      requires Valid()
      modifies this
      ensures Valid()
      ensures doc.id in old(docs) ==> docs == old(docs) && report == if acknowledged then DuplicateKey else Unacknowledged
      ensures doc.id !in old(docs) ==> docs == old(docs)[doc.id := doc] && report == Written()
    {
      if doc.id in docs {
        report := if acknowledged then DuplicateKey else Unacknowledged;
      } else {
        docs := docs[doc.id := doc];
        report := Written();
      }
    }

    /** delete_one({"_id": id}). */
    method DeleteOne(id: Id) returns (report: Report)
      requires Valid()
      modifies this
      ensures Valid()
      ensures docs == old(docs) - {id}
      ensures report == if !acknowledged then Unacknowledged else if id in old(docs) then Done else NotFound
    {
      if id in docs {
        docs := docs - {id};
        report := Written();
      } else {
        report := if acknowledged then NotFound else Unacknowledged;
      }
    }

    /** update_one({"_id": id}, {"$set": changes}); a match whose fields already hold the
        new values is matched but not modified. */
    method UpdateOne(id: Id, changes: Changes) returns (report: Report)
      requires Valid()
      modifies this
      ensures Valid()
      ensures id in old(docs) ==> docs == old(docs)[id := SetFields(old(docs)[id], changes)]
      ensures id !in old(docs) ==> docs == old(docs)
      ensures report == if !acknowledged then Unacknowledged
        else if id !in old(docs) then NotFound
        else if SetFields(old(docs)[id], changes) == old(docs)[id] then NotModified
        else Done
    {
      if id in docs {
        var before := docs[id];
        var after := SetFields(before, changes);
        docs := docs[id := after];
        report := if !acknowledged then Unacknowledged else if after == before then NotModified else Done;
      } else {
        report := if acknowledged then NotFound else Unacknowledged;
      }
    }
  }

  /** The coercion at the top of each operation, as a step of its own: a decimal string id
      becomes an integer, any other id is kept. This is the statement form of the source's
      nested if, proved equal to the function NormalizeId that specifies it. */
  method CoerceId(docId: Id) returns (id: Id)
    ensures id == NormalizeId(docId)
  {
    id := docId;
    if id.StrId? {
      if Decimal.IsDecimal(id.s) {
        id := IntId(Decimal.DecimalValue(id.s));
      }
    }
  }

  /** The part of createDocument before the insert: the coerced id, the preprocessing and
      result_dict. The preprocessing in createDocument is the same code as in evaluateDocText,
      so it calls the same three loop methods that EvaluateDocText calls. */
  method BuildDocument(docId: Id, docText: string, docTitle: string, docDate: string, docCat: string)
    returns (doc: Document)
    ensures doc == NewDocument(docId, docText, docTitle, docDate, docCat)
    ensures doc.terms == Evaluate(docText).terms && doc.numChars == Evaluate(docText).numChars
  {
    var id := CoerceId(docId);
    var preprocessText := MaskNonAlnum(docText);
    var preprocessTerms := Strings.Split(LowerAll(preprocessText));
    var termCounts, textCharLength := CountTerms(preprocessTerms);
    var terms := BuildTermList(termCounts);
    doc := Document(id, docTitle, docText, textCharLength, docDate, docCat, terms);
  }

  /** The part of updateDocument before the update: new_dict from evaluateDocText. */
  method BuildChanges(docText: string, docTitle: string, docDate: string, docCat: string)
    returns (changes: Changes)
    ensures changes == NewChanges(docText, docTitle, docDate, docCat)
  {
    var textResults := EvaluateDocText(docText);
    changes := Changes(docTitle, docText, textResults.numChars, docDate, docCat, textResults.terms);
  }

  /** createDocument(col, docId, ...). */
  method CreateDocument(col: Collection, docId: Id, docText: string, docTitle: string, docDate: string, docCat: string)
    returns (report: Report)
    requires col.Valid()
    modifies col
    ensures col.Valid()
    ensures NormalizeId(docId) in old(col.docs) ==>
      col.docs == old(col.docs) && report == if col.acknowledged then DuplicateKey else Unacknowledged
    ensures NormalizeId(docId) !in old(col.docs) ==>
      col.docs == old(col.docs)[NormalizeId(docId) := NewDocument(docId, docText, docTitle, docDate, docCat)]
      && report == col.Written()
  {
    var doc := BuildDocument(docId, docText, docTitle, docDate, docCat);
    report := col.InsertOne(doc);
  }

  /** deleteDocument(col, docId). */
  method DeleteDocument(col: Collection, docId: Id) returns (report: Report)
    requires col.Valid()
    modifies col
    ensures col.Valid()
    ensures col.docs == old(col.docs) - {NormalizeId(docId)}
    ensures report == if !col.acknowledged then Unacknowledged
      else if NormalizeId(docId) in old(col.docs) then Done else NotFound
  {
    var id := CoerceId(docId);
    report := col.DeleteOne(id);
  }

  /** updateDocument(col, docId, ...), the branch the source takes. */
  method UpdateDocument(col: Collection, docId: Id, docText: string, docTitle: string, docDate: string, docCat: string)
    returns (report: Report)
    requires col.Valid()
    modifies col
    ensures col.Valid()
    ensures NormalizeId(docId) in old(col.docs) ==>
      col.docs == old(col.docs)[NormalizeId(docId) := NewDocument(docId, docText, docTitle, docDate, docCat)]
    ensures NormalizeId(docId) !in old(col.docs) ==> col.docs == old(col.docs)
    ensures !col.acknowledged ==> report == Unacknowledged
    ensures col.acknowledged && NormalizeId(docId) !in old(col.docs) ==> report == NotFound
    ensures col.acknowledged && NormalizeId(docId) in old(col.docs) ==>
      report == if NewDocument(docId, docText, docTitle, docDate, docCat) == old(col.docs)[NormalizeId(docId)]
        then NotModified else Done
  {
    var id := CoerceId(docId);
    var changes := BuildChanges(docText, docTitle, docDate, docCat);
    ghost var before := col.docs;
    report := col.UpdateOne(id, changes);
    if id in before {
      RecreateIsUpdate(before[id], docId, docText, docTitle, docDate, docCat);
    }
  }

  // ---------------------------------------------------------------------------------------------
  // Properties

  /** Updating a stored document gives the document createDocument would build from the same
      arguments, so the update and the delete-then-create branch the source keeps switched off
      agree on the stored document. */
  lemma RecreateIsUpdate(d: Document, docId: Id, docText: string, docTitle: string, docDate: string, docCat: string)
    requires d.id == NormalizeId(docId)
    ensures SetFields(d, NewChanges(docText, docTitle, docDate, docCat)) == NewDocument(docId, docText, docTitle, docDate, docCat)
  {
  }

  /** The terms of an updated document are those of its new text alone, whatever it held before. */
  lemma UpdatedTerms(d: Document, docText: string, docTitle: string, docDate: string, docCat: string)
    ensures TermNames(SetFields(d, NewChanges(docText, docTitle, docDate, docCat)).terms) ==
      set t | t in Tokens(docText)
    ensures SetFields(d, NewChanges(docText, docTitle, docDate, docCat)).numChars == |AlnumChars(docText)|
  {
    EvaluateDistinctTerms(docText);
    EvaluateNumChars(docText);
  }

  /** A $set applied twice is applied once, and what it gives depends on the stored
      document only through its _id. */
  lemma SetFieldsOnce(d: Document, e: Document, c: Changes)
    ensures SetFields(SetFields(d, c), c) == SetFields(d, c)
    ensures SetFields(d, c) == SetFields(e, c) <==> d.id == e.id
  {
  }
}

module StoreExamples {
  import TokenizerExamples
  import opened Records
  import opened Store

  /** A document about "cat" updated to the text "dog" has the term dog and no longer cat. */
  lemma CatToDog(d: Document, docTitle: string, docDate: string, docCat: string)
    requires "cat" in TermNames(d.terms)
    ensures "cat" !in TermNames(SetFields(d, NewChanges("dog", docTitle, docDate, docCat)).terms)
    ensures "dog" in TermNames(SetFields(d, NewChanges("dog", docTitle, docDate, docCat)).terms)
  {
    UpdatedTerms(d, "dog", docTitle, docDate, docCat);
    TokenizerExamples.TokensDog();
    assert "dog" in ["dog"];
  }
}
