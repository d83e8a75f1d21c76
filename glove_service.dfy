/**
 * The lexical fallback of the GloVe embedder (src/services/gloveService.ts): edit distance,
 * closest-word search, punctuation stripping and averaging of word vectors.
 */
module GloveService {
  import opened Wrappers
  import Seqs
  import Strings
  import opened Vectors

  // ---------------------------------------------------------------------------
  // Edit distance
  // ---------------------------------------------------------------------------

  function Min3(x: nat, y: nat, z: nat): (m: nat)
    ensures m <= x && m <= y && m <= z
    ensures m == x || m == y || m == z
  {
    if x <= y && x <= z then x else if y <= z then y else z
  }

  /**
   * The textbook recursive edit distance between the prefixes `a[..i]` and `b[..j]`:
   * deletion, insertion and substitution cost 1, a matching character costs nothing.
   */
  function Dist(a: string, b: string, i: nat, j: nat): nat
    requires i <= |a| && j <= |b|
    decreases i + j
  {
    if i == 0 then j
    else if j == 0 then i
    else Min3(Dist(a, b, i - 1, j) + 1,
              Dist(a, b, i, j - 1) + 1,
              Dist(a, b, i - 1, j - 1) + (if a[i - 1] == b[j - 1] then 0 else 1))
  }

  /** The edit distance between two whole strings. */
  function EditDistance(a: string, b: string): (d: nat)
    ensures b == "" ==> d == |a|
    ensures a == "" ==> d == |b|
  {
    Dist(a, b, |a|, |b|)
  }

  /** Adding one character to the first prefix raises the distance by at most one. */
  lemma DistGrowA(a: string, b: string, i: nat, j: nat)
    requires 0 < i <= |a| && j <= |b|
    ensures Dist(a, b, i, j) <= Dist(a, b, i - 1, j) + 1
  {
  }

  /** Adding one character to the second prefix raises the distance by at most one. */
  lemma DistGrowB(a: string, b: string, i: nat, j: nat)
    requires i <= |a| && 0 < j <= |b|
    ensures Dist(a, b, i, j) <= Dist(a, b, i, j - 1) + 1
  {
  }

  /** Dropping the last character of the first prefix lowers the distance by at most one. */
  lemma {:induction false} DistShrinkA(a: string, b: string, i: nat, j: nat)
    requires 0 < i <= |a| && j <= |b|
    ensures Dist(a, b, i - 1, j) <= Dist(a, b, i, j) + 1
    decreases i + j
  {
    if j > 0 {
      var cost := if a[i - 1] == b[j - 1] then 0 else 1;
      var d := Dist(a, b, i, j);
      if d == Dist(a, b, i, j - 1) + 1 {
        DistShrinkA(a, b, i, j - 1);
        DistGrowB(a, b, i - 1, j);
      } else if d == Dist(a, b, i - 1, j - 1) + cost {
        DistGrowB(a, b, i - 1, j);
      }
    }
  }

  /** Dropping the last character of the second prefix lowers the distance by at most one. */
  lemma {:induction false} DistShrinkB(a: string, b: string, i: nat, j: nat)
    requires i <= |a| && 0 < j <= |b|
    ensures Dist(a, b, i, j - 1) <= Dist(a, b, i, j) + 1
    decreases i + j
  {
    if i > 0 {
      var cost := if a[i - 1] == b[j - 1] then 0 else 1;
      var d := Dist(a, b, i, j);
      if d == Dist(a, b, i - 1, j) + 1 {
        DistShrinkB(a, b, i - 1, j);
        DistGrowA(a, b, i, j - 1);
      } else if d == Dist(a, b, i - 1, j - 1) + cost {
        DistGrowA(a, b, i, j - 1);
      }
    }
  }

  /**
   * The step the dynamic program takes: on matching characters the distance is the diagonal
   * entry, otherwise one more than the smallest of the three neighbours.
   */
  lemma DistStep(a: string, b: string, i: nat, j: nat)
    requires 0 < i <= |a| && 0 < j <= |b|
    ensures a[i - 1] == b[j - 1] ==> Dist(a, b, i, j) == Dist(a, b, i - 1, j - 1)
    ensures a[i - 1] != b[j - 1] ==>
              Dist(a, b, i, j) == 1 + Min3(Dist(a, b, i - 1, j), Dist(a, b, i, j - 1), Dist(a, b, i - 1, j - 1))
  {
    if a[i - 1] == b[j - 1] {
      DistShrinkB(a, b, i - 1, j);
      DistShrinkA(a, b, i, j - 1);
    }
  }

  /** The table has the dimensions the dynamic program needs for `a` and `b`. */
  ghost predicate Shaped(dp: array2<nat>, a: string, b: string)
  {
    dp.Length0 == |a| + 1 && dp.Length1 == |b| + 1
  }

  /** Rows `0..i-1` of the table hold the edit distances of the corresponding prefixes. */
  ghost predicate RowsDone(dp: array2<nat>, a: string, b: string, i: nat)
    requires Shaped(dp, a, b) && i <= |a| + 1
    reads dp
  {
    forall i', j' :: 0 <= i' < i && 0 <= j' <= |b| ==> dp[i', j'] == Dist(a, b, i', j')
  }

  /** Computes entry `[i, j]` from its three already-filled neighbours. */
  method FillCell(dp: array2<nat>, a: string, b: string, i: nat, j: nat)
    requires Shaped(dp, a, b) && 0 < i <= |a| && 0 < j <= |b|
    requires RowsDone(dp, a, b, i)
    requires forall j' :: 0 <= j' < j ==> dp[i, j'] == Dist(a, b, i, j')
    modifies dp
    ensures RowsDone(dp, a, b, i)
    ensures forall j' :: 0 <= j' <= j ==> dp[i, j'] == Dist(a, b, i, j')
    ensures forall i' :: i < i' <= |a| ==> dp[i', 0] == old(dp[i', 0])
  {
    DistStep(a, b, i, j);
    assert dp[i - 1, j - 1] == Dist(a, b, i - 1, j - 1) && dp[i - 1, j] == Dist(a, b, i - 1, j);
    if a[i - 1] == b[j - 1] {
      dp[i, j] := dp[i - 1, j - 1];
    } else {
      dp[i, j] := 1 + Min3(dp[i - 1, j], dp[i, j - 1], dp[i - 1, j - 1]);
    }
  }

  /** Fills row `i` of the table from row `i - 1` and its own first entry (the inner loop). */
  method FillRow(dp: array2<nat>, a: string, b: string, i: nat)
    requires Shaped(dp, a, b) && 0 < i <= |a|
    requires RowsDone(dp, a, b, i) && dp[i, 0] == i
    modifies dp
    ensures RowsDone(dp, a, b, i + 1)
    ensures forall i' :: i < i' <= |a| ==> dp[i', 0] == old(dp[i', 0])
  {
    for j := 1 to |b| + 1
      invariant RowsDone(dp, a, b, i)
      invariant forall j' :: 0 <= j' < j ==> dp[i, j'] == Dist(a, b, i, j')
      invariant forall i' :: i < i' <= |a| ==> dp[i', 0] == old(dp[i', 0])
    {
      FillCell(dp, a, b, i, j);
    }
  }

  /** `levenshteinDistance`: fills the (m+1) x (n+1) table row by row and returns its last entry. */
  method LevenshteinDistance(a: string, b: string) returns (d: nat)
    ensures d == EditDistance(a, b)
  {
    var m, n := |a|, |b|;
    var dp := new nat[m + 1, n + 1];
    for i := 0 to m + 1
      invariant forall i' :: 0 <= i' < i ==> dp[i', 0] == i'
    {
      dp[i, 0] := i;
    }
    for j := 0 to n + 1
      invariant forall i' :: 0 <= i' <= m ==> dp[i', 0] == i'
      invariant forall j' :: 0 <= j' < j ==> dp[0, j'] == j'
    {
      dp[0, j] := j;
    }
    for i := 1 to m + 1
      invariant RowsDone(dp, a, b, i)
      invariant forall i' :: i <= i' <= m ==> dp[i', 0] == i'
    {
      FillRow(dp, a, b, i);
    }
    d := dp[m, n];
  }

  /** A string is at distance 0 from itself. */
  lemma {:induction false} DistSelf(a: string, i: nat)
    requires i <= |a|
    ensures Dist(a, a, i, i) == 0
  {
    if i > 0 {
      DistSelf(a, i - 1);
    }
  }

  /** The distance never exceeds the longer prefix's length: substitute along the shorter one, insert the rest. */
  lemma {:induction false} DistUpper(a: string, b: string, i: nat, j: nat)
    requires i <= |a| && j <= |b|
    ensures Dist(a, b, i, j) <= if i <= j then j else i
    decreases i + j
  {
    if i > 0 && j > 0 {
      DistUpper(a, b, i - 1, j - 1);
      assert Dist(a, b, i, j) <= Dist(a, b, i - 1, j - 1) + 1;
    }
  }

  /** The distance is at least the difference of the prefixes' lengths. */
  lemma {:induction false} DistLower(a: string, b: string, i: nat, j: nat)
    requires i <= |a| && j <= |b|
    ensures Dist(a, b, i, j) >= if i <= j then j - i else i - j
    decreases i + j
  {
    if i > 0 && j > 0 {
      DistLower(a, b, i - 1, j - 1);
      DistLower(a, b, i - 1, j);
      DistLower(a, b, i, j - 1);
    }
  }

  /** Distance 0 means the prefixes are equal. */
  lemma {:induction false} DistZero(a: string, b: string, i: nat, j: nat)
    requires i <= |a| && j <= |b| && Dist(a, b, i, j) == 0
    ensures i == j && a[..i] == b[..j]
    decreases i + j
  {
    DistLower(a, b, i, j);
    if i > 0 {
      assert Dist(a, b, i - 1, j - 1) == 0 && a[i - 1] == b[j - 1];
      DistZero(a, b, i - 1, j - 1);
      assert a[..i] == a[..i - 1] + [a[i - 1]];
      assert b[..j] == b[..j - 1] + [b[j - 1]];
    }
  }

  /** Edit distance is zero exactly between equal strings, and bounded by the longer length. */
  lemma EditDistanceProperties(a: string, b: string)
    ensures EditDistance(a, b) == 0 <==> a == b
    ensures EditDistance(a, b) <= if |a| <= |b| then |b| else |a|
  {
    DistUpper(a, b, |a|, |b|);
    if a == b {
      DistSelf(a, |a|);
    }
    if EditDistance(a, b) == 0 {
      DistZero(a, b, |a|, |b|);
      assert a == a[..|a|] && b == b[..|b|];
    }
  }

  // ---------------------------------------------------------------------------
  // Closest vocabulary word
  // ---------------------------------------------------------------------------

  /** The acceptance threshold, scaled with the word's length. */
  function Threshold(word: string): nat
  {
    if |word| <= 5 then 2 else 3
  }

  /**
   * Index of the first entry at minimal distance to `word` among `vocabulary[..k]`: the entry the
   * loop keeps, since it replaces its best match only on a strictly smaller distance.
   */
  function FirstBest(word: string, vocabulary: seq<string>, k: nat): (r: nat)
    requires 0 < k <= |vocabulary|
    ensures r < k
    ensures forall j :: 0 <= j < k ==> EditDistance(word, vocabulary[r]) <= EditDistance(word, vocabulary[j])
    ensures forall j :: 0 <= j < r ==> EditDistance(word, vocabulary[j]) > EditDistance(word, vocabulary[r])
  {
    if k == 1 then 0
    else
      var p := FirstBest(word, vocabulary, k - 1);
      if EditDistance(word, vocabulary[k - 1]) < EditDistance(word, vocabulary[p]) then k - 1 else p
  }

  /** The match `findClosestWord` returns: the first nearest entry, if it is within the threshold. */
  function ClosestWord(word: string, vocabulary: seq<string>): Option<string>
  {
    if |vocabulary| == 0 then None
    else
      var k := FirstBest(word, vocabulary, |vocabulary|);
      if EditDistance(word, vocabulary[k]) <= Threshold(word) then Some(vocabulary[k]) else None
  }

  /** `findClosestWord`: scans the vocabulary keeping the best distance so far, then applies the threshold. */
  method FindClosestWord(word: string, vocabulary: seq<string>) returns (best: Option<string>)
    ensures best == ClosestWord(word, vocabulary)
  {
    var bestMatch: Option<string> := None;
    var bestDistance: Option<nat> := None;  // None is the initial Infinity
    var threshold := if |word| <= 5 then 2 else 3;
    ghost var bestIndex: nat := 0;
    for i := 0 to |vocabulary|
      invariant i == 0 ==> bestMatch == None && bestDistance == None
      invariant i > 0 ==> bestIndex == FirstBest(word, vocabulary, i)
      invariant i > 0 ==> bestMatch == Some(vocabulary[bestIndex])
      invariant i > 0 ==> bestDistance == Some(EditDistance(word, vocabulary[bestIndex]))
    {
      var distance := LevenshteinDistance(word, vocabulary[i]);
      if bestDistance.None? || distance < bestDistance.value {
        bestDistance := Some(distance);
        bestMatch := Some(vocabulary[i]);
        bestIndex := i;
      }
    }
    best := if bestDistance.Some? && bestDistance.value <= threshold then bestMatch else None;
  }

  /**
   * A match is returned exactly when some entry lies within the threshold; it is then an entry at
   * minimal distance, and no earlier entry is as close.
   */
  lemma ClosestWordSpec(word: string, vocabulary: seq<string>)
    ensures ClosestWord(word, vocabulary).Some? <==>
              exists j :: 0 <= j < |vocabulary| && EditDistance(word, vocabulary[j]) <= Threshold(word)
    ensures ClosestWord(word, vocabulary).Some? ==>
              exists k :: 0 <= k < |vocabulary| && ClosestWord(word, vocabulary).value == vocabulary[k]
                && EditDistance(word, vocabulary[k]) <= Threshold(word)
                && (forall j :: 0 <= j < |vocabulary| ==> EditDistance(word, vocabulary[k]) <= EditDistance(word, vocabulary[j]))
                && (forall j :: 0 <= j < k ==> EditDistance(word, vocabulary[j]) > EditDistance(word, vocabulary[k]))
  {
    if |vocabulary| > 0 {
      var k := FirstBest(word, vocabulary, |vocabulary|);
      assert ClosestWord(word, vocabulary).Some? ==> ClosestWord(word, vocabulary).value == vocabulary[k];
    }
  }

  // ---------------------------------------------------------------------------
  // Word cleaning and splitting
  // ---------------------------------------------------------------------------

  /** A character of the regular-expression class `\w`: ASCII letter, digit or underscore. */
  predicate IsWordChar(c: char)
  {
    'a' <= c <= 'z' || 'A' <= c <= 'Z' || '0' <= c <= '9' || c == '_'
  }

  /** Removes the leading run of non-word characters (`^\W+`). */
  function StripLeading(s: string): string
  {
    if |s| > 0 && !IsWordChar(s[0]) then StripLeading(s[1..]) else s
  }

  /** What is removed is a run of non-word characters, and what is kept is a suffix that starts with a word character. */
  lemma {:induction false} StripLeadingSpec(s: string)
    ensures var r := StripLeading(s);
            && |r| <= |s| && r == s[|s| - |r|..]
            && (forall k :: 0 <= k < |s| - |r| ==> !IsWordChar(s[k]))
            && (r == "" || IsWordChar(r[0]))
  {
    if |s| > 0 && !IsWordChar(s[0]) {
      StripLeadingSpec(s[1..]);
    }
  }

  /** Removes the trailing run of non-word characters (`\W+$`). */
  function StripTrailing(s: string): string
  {
    if |s| > 0 && !IsWordChar(s[|s| - 1]) then StripTrailing(s[..|s| - 1]) else s
  }

  /** What is removed is a run of non-word characters, and what is kept is a prefix that ends with a word character. */
  lemma {:induction false} StripTrailingSpec(s: string)
    ensures var r := StripTrailing(s);
            && |r| <= |s| && r == s[..|r|]
            && (forall k :: |r| <= k < |s| ==> !IsWordChar(s[k]))
            && (r == "" || IsWordChar(r[|r| - 1]))
  {
    if |s| > 0 && !IsWordChar(s[|s| - 1]) {
      StripTrailingSpec(s[..|s| - 1]);
    }
  }

  /** `cleanWord`: `word.replace(/^\W+|\W+$/g, '')`. */
  function CleanWord(word: string): (r: string)
    ensures r == "" || (IsWordChar(r[0]) && IsWordChar(r[|r| - 1]))
    ensures r == "" <==> forall k :: 0 <= k < |word| ==> !IsWordChar(word[k])
    ensures Strings.IsInfix(r, word)
  {
    var lead := StripLeading(word);
    StripLeadingSpec(word);
    var r := StripTrailing(lead);
    StripTrailingSpec(lead);
    assert r != "" ==> r[0] == lead[0];
    assert Strings.OccursAt(r, word, |word| - |lead|);
    r
  }

  /** Cleaning an already cleaned word changes nothing. */
  lemma CleanWordIdempotent(word: string)
    ensures CleanWord(CleanWord(word)) == CleanWord(word)
  {
    var r := CleanWord(word);
    assert StripLeading(r) == r;
    assert StripTrailing(r) == r;
  }

  /** A character of the regular-expression class `\s`. */
  predicate IsSpace(c: char)
  {
    c == ' ' || c == '\t' || c == '\n' || c == '\r' || c == '\U{000B}' || c == '\U{000C}'
    || c == '\U{00A0}' || c == '\U{1680}' || '\U{2000}' <= c <= '\U{200A}' || c == '\U{2028}'
    || c == '\U{2029}' || c == '\U{202F}' || c == '\U{205F}' || c == '\U{3000}' || c == '\U{FEFF}'
  }

  /** Drops the leading run of whitespace. */
  function SkipSpaces(s: string): (r: string)
    ensures |r| <= |s| && r == s[|s| - |r|..]
    ensures r == "" || !IsSpace(r[0])
  {
    if |s| > 0 && IsSpace(s[0]) then SkipSpaces(s[1..]) else s
  }

  /**
   * `text.split(/\s+/)`: the pieces between maximal whitespace runs; a leading or trailing run
   * yields an empty first or last piece.
   */
  function SplitOnWhitespace(text: string): (pieces: seq<string>)
    ensures |pieces| > 0
    ensures forall k, c :: 0 <= k < |pieces| && c in pieces[k] ==> !IsSpace(c)
    decreases |text|
  {
    match Seqs.FindIndex(text, IsSpace)
    case None => [text]
    case Some(i) =>
      assert forall c :: c in text[..i] ==> !IsSpace(c);
      [text[..i]] + SplitOnWhitespace(SkipSpaces(text[i..]))
  }

  /** The cleaned, lower-cased, non-empty words of `text`, in order. */
  function Words(text: string): (words: seq<string>)
    ensures forall k :: 0 <= k < |words| ==> words[k] != ""
  {
    var pieces := SplitOnWhitespace(text);
    var cleaned := seq(|pieces|, k requires 0 <= k < |pieces| => CleanWord(Strings.ToLower(pieces[k])));
    Seqs.Filter(cleaned, (w: string) => w != "")
  }

  // ---------------------------------------------------------------------------
  // Word and text embeddings
  // ---------------------------------------------------------------------------

  /**
   * The loaded table: its vectors by word, and the words in the order `Object.keys` lists them.
   * Every vector has the same length, as in a GloVe file.
   */
  datatype GloveTable = GloveTable(vocabulary: seq<string>, vectors: map<string, Vector>)
  {
    ghost predicate Valid()
    {
      && (forall w :: w in vectors <==> w in vocabulary)
      && (forall w, w' :: w in vectors && w' in vectors ==> |vectors[w]| == |vectors[w']|)
    }
  }

  const NotLoadedError := "GloVe embeddings have not been loaded."
  const NoEmbeddingsError := "No embeddings found for the given text."

  /** `getWordEmbedding`: fails when nothing is loaded, else the word's own vector or `None`. */
  function GetWordEmbedding(table: Option<GloveTable>, word: string): (r: Result<Option<Vector>, string>)
    ensures r.Failure? <==> table.None?
    ensures r.Failure? ==> r.error == NotLoadedError
    ensures r.Success? ==> (r.value.Some? <==> word in table.value.vectors)
    ensures r.Success? && r.value.Some? ==> r.value.value == table.value.vectors[word]
  {
    match table
    case None => Failure(NotLoadedError)
    case Some(t) => Success(if word in t.vectors then Some(t.vectors[word]) else None)
  }

  /** The vector a word resolves to: its own, else that of its accepted closest match, else none. */
  function Resolve(t: GloveTable, word: string): (r: Option<Vector>)
    requires t.Valid()
    ensures r.Some? ==> r.value in t.vectors.Values
  {
    if word in t.vectors then Some(t.vectors[word])
    else match ClosestWord(word, t.vocabulary)
      case Some(c) =>
        if c != "" then
          assert c in t.vocabulary by { ClosestWordSpec(word, t.vocabulary); }
          Some(t.vectors[c])
        else None
      case None => None
  }

  /** Any two vectors of a valid table have the same length. */
  lemma ValuesUniform(t: GloveTable, v: Vector, v': Vector)
    requires t.Valid() && v in t.vectors.Values && v' in t.vectors.Values
    ensures |v| == |v'|
  {
    var w :| w in t.vectors && t.vectors[w] == v;
    var w' :| w' in t.vectors && t.vectors[w'] == v';
  }

  /** The resolved vectors of `words`, dropping the unresolved ones, in order. */
  function ResolveAll(t: GloveTable, words: seq<string>): (vs: seq<Vector>)
    requires t.Valid()
    ensures |vs| <= |words|
    ensures forall k :: 0 <= k < |vs| ==> vs[k] in t.vectors.Values
    ensures forall k :: 0 <= k < |vs| ==> |vs[k]| == |vs[0]|
  {
    if words == [] then []
    else
      var rest := ResolveAll(t, words[..|words| - 1]);
      match Resolve(t, words[|words| - 1])
      case Some(v) =>
        assert rest != [] ==> |v| == |rest[0]| by {
          if rest != [] { ValuesUniform(t, v, rest[0]); }
        }
        rest + [v]
      case None => rest
  }

  /** A word that is in the table resolves to its own vector, without any fuzzy search. */
  lemma ResolveExact(t: GloveTable, word: string)
    requires t.Valid() && word in t.vectors
    ensures Resolve(t, word) == Some(t.vectors[word])
  {
  }

  /** Unresolved words are dropped: one vector per resolved word and nothing else. */
  lemma {:induction false} ResolveAllDropsUnresolved(t: GloveTable, words: seq<string>)
    requires t.Valid()
    ensures |ResolveAll(t, words)| == |Seqs.Filter(words, (w: string) => Resolve(t, w).Some?)|
  {
    if words != [] {
      var init := words[..|words| - 1];
      ResolveAllDropsUnresolved(t, init);
      assert words == init + [words[|words| - 1]];
      Seqs.FilterAppend(init, [words[|words| - 1]], (w: string) => Resolve(t, w).Some?);
    }
  }

  /** The sum of component `i` over `vs`. */
  function ColumnSum(vs: seq<Vector>, i: nat): real
    requires forall k :: 0 <= k < |vs| ==> i < |vs[k]|
  {
    if vs == [] then 0.0 else ColumnSum(vs[..|vs| - 1], i) + vs[|vs| - 1][i]
  }

  /** The resolved vectors of a text. */
  function TextVectors(t: GloveTable, text: string): seq<Vector>
    requires t.Valid()
  {
    ResolveAll(t, Words(text))
  }

  /** The `words.map(...)` step: each word's own vector, else its closest match's, dropping the rest. */
  method ResolveWords(t: GloveTable, words: seq<string>) returns (vectors: seq<Vector>)
    requires t.Valid()
    ensures vectors == ResolveAll(t, words)
  {
    vectors := [];
    for i := 0 to |words|
      invariant vectors == ResolveAll(t, words[..i])
    {
      var word := words[i];
      assert words[..i + 1][..i] == words[..i];
      if word in t.vectors {
        vectors := vectors + [t.vectors[word]];
      } else {
        var closest := FindClosestWord(word, t.vocabulary);
        if closest.Some? && closest.value != "" {
          ClosestWordSpec(word, t.vocabulary);
          vectors := vectors + [t.vectors[closest.value]];
        }
      }
    }
    assert words[..|words|] == words;
  }

  /** Adds every vector into a zero-filled accumulator of the first vector's length, then divides by their number. */
  method Average(vectors: seq<Vector>) returns (mean: Vector)
    requires |vectors| > 0
    requires forall k :: 0 <= k < |vectors| ==> |vectors[k]| == |vectors[0]|
    ensures |mean| == |vectors[0]|
    ensures forall i :: 0 <= i < |mean| ==> mean[i] == ColumnSum(vectors, i) / |vectors| as real
  {
    var dimension := |vectors[0]|;
    var avg := new real[dimension](_ => 0.0);
    for k := 0 to |vectors|
      invariant forall i :: 0 <= i < dimension ==> avg[i] == ColumnSum(vectors[..k], i)
    {
      var vector := vectors[k];
      assert vectors[..k + 1][..k] == vectors[..k];
      for i := 0 to dimension
        invariant forall i' :: 0 <= i' < i ==> avg[i'] == ColumnSum(vectors[..k + 1], i')
        invariant forall i' :: i <= i' < dimension ==> avg[i'] == ColumnSum(vectors[..k], i')
      {
        avg[i] := avg[i] + vector[i];
      }
    }
    assert vectors[..|vectors|] == vectors;
    var sums := avg[..];
    mean := seq(dimension, i requires 0 <= i < dimension => sums[i] / |vectors| as real);
  }

  /**
   * `getTextEmbedding`: fails when nothing is loaded or no word resolves; otherwise the
   * component-wise arithmetic mean of the resolved vectors, of the first vector's dimension.
   */
  method GetTextEmbedding(table: Option<GloveTable>, text: string) returns (r: Result<Vector, string>)
    requires table.Some? ==> table.value.Valid()
    ensures table.None? ==> r == Failure(NotLoadedError)
    ensures table.Some? && TextVectors(table.value, text) == [] ==> r == Failure(NoEmbeddingsError)
    ensures table.Some? && TextVectors(table.value, text) != [] ==>
              var vs := TextVectors(table.value, text);
              r.Success? && |r.value| == |vs[0]|
              && forall i :: 0 <= i < |r.value| ==> r.value[i] == ColumnSum(vs, i) / |vs| as real
  {
    var words := Words(text);
    if table.None? {
      return Failure(NotLoadedError);
    }
    var vectors := ResolveWords(table.value, words);
    if |vectors| == 0 {
      return Failure(NoEmbeddingsError);
    }
    var mean := Average(vectors);
    return Success(mean);
  }
}
