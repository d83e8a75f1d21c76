/** The query augmenter of src/services/ragService.ts (`augmentQueryWithDocuments`). */
module RagService {
  import Strings

  /** A retrieved document: its title and text. */
  datatype Doc = Doc(title: string, content: string)

  /** What the client is told about a document used for the answer. */
  datatype DocReference = DocReference(title: string, similarity: real)

  const QueryPrefix := "Based on the following documents:\n"

  const QuestionPrefix := "\n\nAnswer the question: "

  /**
   * `parseFloat(x.toFixed(4))` on exact reals: the nearest multiple of 1/10000,
   * with halves rounded away from zero.
   */
  function Round4(x: real): real
  {
    if x >= 0.0 then ((x * 10000.0 + 0.5).Floor as real) / 10000.0
    else -((((-x) * 10000.0 + 0.5).Floor as real) / 10000.0)
  }

  /** Rounding to 4 decimals moves a value by at most half a unit in the last place. */
  lemma Round4Error(x: real)
    ensures -0.00005 <= Round4(x) - x <= 0.00005
  {
    var y := if x >= 0.0 then x else -x;
    var n := (y * 10000.0 + 0.5).Floor;
    assert n as real <= y * 10000.0 + 0.5 < n as real + 1.0;
  }

  /** A value already at 4 decimals is left as it is. */
  lemma Round4Exact(n: int)
    ensures Round4(n as real / 10000.0) == n as real / 10000.0
  {
    var x := n as real / 10000.0;
    if x >= 0.0 {
      assert x * 10000.0 == n as real;
      FloorHalf(n);
    } else {
      assert (-x) * 10000.0 == (-n) as real;
      FloorHalf(-n);
    }
  }

  lemma FloorHalf(n: int)
    ensures (n as real + 0.5).Floor == n
  {
  }

  /** Rounding twice is rounding once. */
  lemma Round4Idempotent(x: real)
    ensures Round4(Round4(x)) == Round4(x)
  {
    var y := if x >= 0.0 then x else -x;
    var n := (y * 10000.0 + 0.5).Floor;
    if x >= 0.0 {
      Round4Exact(n);
    } else {
      Round4Exact(-n);
      assert -(n as real / 10000.0) == (-n) as real / 10000.0;
    }
  }

  /** The text a document contributes: its title, a colon and its content. */
  function Segment(doc: Doc): string
  {
    doc.title + ": " + doc.content
  }

  /** The segments of the documents, in order. */
  function Segments(documents: seq<(real, Doc)>): (texts: seq<string>)
    ensures |texts| == |documents|
    ensures forall k :: 0 <= k < |documents| ==> texts[k] == Segment(documents[k].1)
  {
    seq(|documents|, k requires 0 <= k < |documents| => Segment(documents[k].1))
  }

  /** The references: each document's title with its similarity rounded to 4 decimals, in order. */
  function References(documents: seq<(real, Doc)>): (refs: seq<DocReference>)
    ensures |refs| == |documents|
    ensures forall k :: 0 <= k < |documents| ==>
              refs[k] == DocReference(documents[k].1.title, Round4(documents[k].0))
  {
    seq(|documents|, k requires 0 <= k < |documents| => DocReference(documents[k].1.title, Round4(documents[k].0)))
  }

  /** The augmented query: a header, the segments one per line, then the question. */
  function AugmentedQuery(query: string, documents: seq<(real, Doc)>): string
  {
    QueryPrefix + Strings.Join(Segments(documents), "\n") + QuestionPrefix + query
  }

  /**
   * `augmentQueryWithDocuments`: one segment and one reference per document, in order; the
   * references carry each document's title and its similarity rounded to 4 decimals.
   */
  method AugmentQueryWithDocuments(query: string, documents: seq<(real, Doc)>)
    returns (augmentedQuery: string, docReferences: seq<DocReference>)
    ensures augmentedQuery == AugmentedQuery(query, documents)
    ensures |docReferences| == |documents|
    ensures forall k :: 0 <= k < |documents| ==>
              docReferences[k] == DocReference(documents[k].1.title, Round4(documents[k].0))
  {
    var relevantDocsText: seq<string> := [];
    docReferences := [];
    for i := 0 to |documents|
      invariant |relevantDocsText| == i && |docReferences| == i
      invariant forall k :: 0 <= k < i ==> relevantDocsText[k] == Segment(documents[k].1)
      invariant forall k :: 0 <= k < i ==>
                  docReferences[k] == DocReference(documents[k].1.title, Round4(documents[k].0))
    {
      var (similarity, doc) := documents[i];
      relevantDocsText := relevantDocsText + [doc.title + ": " + doc.content];
      docReferences := docReferences + [DocReference(doc.title, Round4(similarity))];
    }
    assert relevantDocsText == Segments(documents);
    var relevantDocsStr := Strings.Join(relevantDocsText, "\n");
    augmentedQuery := QueryPrefix + relevantDocsStr + QuestionPrefix + query;
  }

  /** Every document's segment appears in the augmented query, and the query ends it. */
  lemma AugmentedQueryContents(query: string, documents: seq<(real, Doc)>, k: nat)
    requires k < |documents|
    ensures Strings.IsInfix(Segment(documents[k].1), AugmentedQuery(query, documents))
    ensures AugmentedQuery(query, documents)[|AugmentedQuery(query, documents)| - |query|..] == query
  {
    var body := Strings.Join(Segments(documents), "\n");
    Strings.JoinContainsParts(Segments(documents), "\n", k);
    Strings.InfixExtend(Segment(documents[k].1), body, QueryPrefix, QuestionPrefix + query);
    assert QueryPrefix + body + (QuestionPrefix + query) == AugmentedQuery(query, documents);
  }

  /** With no documents, the segment list is empty and only the fixed text surrounds the query. */
  lemma AugmentNoDocuments(query: string)
    ensures AugmentedQuery(query, []) == "Based on the following documents:\n\n\nAnswer the question: " + query
  {
  }

  /** A single document with title T and content C gives the segment "T: C". */
  lemma AugmentOneDocument(query: string, similarity: real, title: string, content: string)
    ensures AugmentedQuery(query, [(similarity, Doc(title, content))])
            == QueryPrefix + title + ": " + content + QuestionPrefix + query
  {
    assert Segments([(similarity, Doc(title, content))]) == [title + ": " + content];
  }
}
