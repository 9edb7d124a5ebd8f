/** The records the program stores: per-term statistics and documents. */
module Records {

  /** One {term, count, num_chars} entry of a document's "terms" list. */
  datatype TermStat = TermStat(term: string, count: nat, numChars: nat)

  /** What evaluateDocText returns: {"terms": [...], "num_chars": n}. */
  datatype TextStats = TextStats(terms: seq<TermStat>, numChars: nat)

  /** A document id: an integer, or a string. Ids of other Python types behave like
      integers here, since the coercion leaves every non-string id unchanged. */
  datatype Id = IntId(n: int) | StrId(s: string)

  /** A stored document. The date is kept as the opaque value the caller passed. */
  datatype Document = Document(
    id: Id,
    title: string,
    text: string,
    numChars: nat,
    date: string,
    category: string,
    terms: seq<TermStat>)

  /** The term strings of a list of records. */
  function TermNames(terms: seq<TermStat>): (r: set<string>)
    ensures forall i :: 0 <= i < |terms| ==> terms[i].term in r
    ensures forall t :: t in r ==> exists i :: 0 <= i < |terms| && terms[i].term == t
  {
    set i | 0 <= i < |terms| :: terms[i].term
  }

  /** The sum of the count fields. */
  function SumCounts(terms: seq<TermStat>): nat {
    if terms == [] then 0 else SumCounts(terms[..|terms| - 1]) + terms[|terms| - 1].count
  }

  /** The sum of count * num_chars, the characters the records stand for. */
  function SumCharCounts(terms: seq<TermStat>): nat {
    if terms == [] then 0
    else SumCharCounts(terms[..|terms| - 1]) + terms[|terms| - 1].count * terms[|terms| - 1].numChars
  }
}
