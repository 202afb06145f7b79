/**
 * The decision logic of the four HTTP handlers of main.go.
 *
 * The two LevelDB databases are maps; the ANN index (`GetItem`,
 * `GetNnsByVector`), float32 addition, the cosine similarity, `strconv.Atoi`
 * and the sego segmenter are functions supplied with the `Backend` or as
 * parameters. A request is its parsed query (`r.URL.Query()`); a handler
 * answers with the keywords, vector or score it would encode as JSON, or
 * with the `Failure` it would report through `http.Error` (or a panic).
 */
module Server {
  import opened Wrappers
  import opened Util

  /** `vecDim`: the length of every item vector and of the aggregated vector. */
  const VecDim: nat := 200

  const DefaultNumReturnKeywords: int := 10

  const MaxNumReturnKeywords: int := 100

  /** `r.URL.Query()`: every parameter name with its values in order. */
  type Query = map<string, seq<string>>

  /** Why a handler answers with an error instead of a result. */
  datatype Failure =
    | MissingKeyword              // a keyword parameter absent, empty or not single
    | BadCount                    // a single `num` that `strconv.Atoi` rejects
    | NotFound(keyword: string)   // `dbKeywordToIndex.Get` fails
    | MalformedId(keyword: string) // a stored id shorter than 4 bytes (a panic)
    | VectorTooLong(keyword: string) // an item longer than `wordVec` (a panic)
    | NoMatch                     // no keyword resolved
    | DimensionMismatch           // a query vector whose length is not `vecDim`
    | UnknownId(id: int)          // `dbIndexToKeyword.Get` fails for a result id

  /** One entry of a `SimilarKeywordResponse`. */
  datatype Keyword = Keyword(word: string, similarity: Float32)

  /**
   * What the handlers read: the two databases, the index's `GetItem` and
   * `GetNnsByVector(v, n, kSearch)`, `getCosineSimilarityByVector`, float32
   * `+`, whether `--dict` loaded a dictionary, and the segmenter.
   */
  datatype Backend = Backend(
    keywordToIndex: map<string, seq<Byte>>,
    indexToKeyword: map<seq<Byte>, string>,
    getItem: int -> seq<Float32>,
    getNns: (seq<Float32>, int) -> seq<int>,
    cosine: (seq<Float32>, int) -> Float32,
    add: (Float32, Float32) -> Float32,
    dictLoaded: bool,
    segment: string -> seq<string>)

  /** Lines 122-126 and 219-223: the number of results to ask the index for. */
  function ClampCount(n: int): (c: int)
    ensures 1 <= c <= MaxNumReturnKeywords
    ensures 1 <= n <= MaxNumReturnKeywords ==> c == n
    ensures n <= 0 ==> c == DefaultNumReturnKeywords
    ensures n > MaxNumReturnKeywords ==> c == MaxNumReturnKeywords
  {
    if n <= 0 then DefaultNumReturnKeywords
    else if n > MaxNumReturnKeywords then MaxNumReturnKeywords
    else n
  }

  /**
   * Lines 109-126: `num` is read only when given exactly once; otherwise the
   * default applies. A single `num` that is not an integer is an error.
   */
  function NumKeywords(q: Query, atoi: string -> Option<int>): (r: Result<int, Failure>)
    ensures r.Ok? ==> 1 <= r.value <= MaxNumReturnKeywords
    ensures r.Err? <==> "num" in q && |q["num"]| == 1 && atoi(q["num"][0]).None?
    ensures r.Err? ==> r.error == BadCount
    ensures ("num" !in q || |q["num"]| != 1) ==> r == Ok(DefaultNumReturnKeywords)
    ensures "num" in q && |q["num"]| == 1 && atoi(q["num"][0]).Some? ==>
      r == Ok(ClampCount(atoi(q["num"][0]).value))
  {
    if "num" !in q || |q["num"]| != 1 then Ok(DefaultNumReturnKeywords)
    else
      match atoi(q["num"][0])
      case None => Err(BadCount)
      case Some(n) => Ok(ClampCount(n))
  }

  /** A parameter given exactly once, as lines 312-313 and 325-326 demand. */
  function SingleValue(q: Query, name: string): (r: Option<string>)
    ensures r.Some? <==> name in q && |q[name]| == 1
    ensures r.Some? ==> r.value == q[name][0]
  {
    if name in q && |q[name]| == 1 then Some(q[name][0]) else None
  }

  /**
   * `dbKeywordToIndex.Get` then `int(Uint32frombytes(id))`: the keyword's
   * item id, below 2^32; `Uint32frombytes` panics on a stored id shorter than
   * four bytes.
   */
  function DecodeIndex(b: Backend, k: string): (r: Result<int, Failure>)
    ensures r.Ok? <==> k in b.keywordToIndex && |b.keywordToIndex[k]| >= 4
    ensures r.Ok? ==> 0 <= r.value < TwoTo32 && IdKey(r.value) == b.keywordToIndex[k][..4]
    ensures r.Err? ==> r.error == NotFound(k) || r.error == MalformedId(k)
    ensures r.Err? ==> (r.error == NotFound(k) <==> k !in b.keywordToIndex)
  {
    if k !in b.keywordToIndex then Err(NotFound(k))
    else if |b.keywordToIndex[k]| < 4 then Err(MalformedId(k))
    else
      var index := Uint32FromBytes(b.keywordToIndex[k]);
      IdKeyIsUint32Bytes(index as int);
      Ok(index as int)
  }

  /** `make([]float32, vecDim)`: every element is the bit pattern of +0.0. */
  function ZeroVector(): (z: seq<Float32>)
    ensures |z| == VecDim && forall i :: 0 <= i < VecDim ==> z[i] == 0
  {
    seq(VecDim, _ => 0)
  }

  /**
   * `for i, v := range wv { wordVec[i] = wordVec[i] + v }` for an item that
   * fits: element `i` gains `wv[i]`, elements past `|wv|` stay as they were.
   */
  function AddVector(acc: seq<Float32>, wv: seq<Float32>, add: (Float32, Float32) -> Float32): (r: seq<Float32>)
    requires |wv| <= |acc|
    ensures |r| == |acc|
  {
    seq(|acc|, i requires 0 <= i < |acc| => if i < |wv| then add(acc[i], wv[i]) else acc[i])
  }

  /**
   * Lines 141-154 over `keys`: the running sum and `validKeywords`. A
   * keyword that is not in the database is skipped.
   */
  function SumResolved(b: Backend, keys: seq<string>): (r: Result<(seq<Float32>, nat), Failure>)
    ensures r.Ok? ==> |r.value.0| == VecDim
  {
    if keys == [] then Ok((ZeroVector(), 0))
    else
      var k := keys[|keys| - 1];
      match SumResolved(b, keys[..|keys| - 1])
      case Err(e) => Err(e)
      case Ok((acc, valid)) =>
        match DecodeIndex(b, k)
        case Err(e) => if e.NotFound? then Ok((acc, valid)) else Err(e)
        case Ok(index) =>
          var wv := b.getItem(index);
          if |wv| > VecDim then Err(VectorTooLong(k))
          else Ok((AddVector(acc, wv, b.add), valid + 1))
  }

  /**
   * Lines 273-286 over `keys`: the running sum, where a keyword that is not
   * in the database aborts the request.
   */
  function SumAll(b: Backend, keys: seq<string>): (r: Result<seq<Float32>, Failure>)
    ensures r.Ok? ==> |r.value| == VecDim
  {
    if keys == [] then Ok(ZeroVector())
    else
      var k := keys[|keys| - 1];
      match SumAll(b, keys[..|keys| - 1])
      case Err(e) => Err(e)
      case Ok(acc) =>
        match DecodeIndex(b, k)
        case Err(e) => Err(e)
        case Ok(index) =>
          var wv := b.getItem(index);
          if |wv| > VecDim then Err(VectorTooLong(k))
          else Ok(AddVector(acc, wv, b.add))
  }

  /** The keywords of `keys` that are in the database, in order. */
  function Resolved(b: Backend, keys: seq<string>): (r: seq<string>)
    ensures forall j :: 0 <= j < |r| ==> r[j] in b.keywordToIndex
  {
    if keys == [] then []
    else
      var k := keys[|keys| - 1];
      Resolved(b, keys[..|keys| - 1]) + (if k in b.keywordToIndex then [k] else [])
  }

  /** A keyword whose vector can be added to `wordVec` without a panic. */
  predicate Addable(b: Backend, k: string)
  {
    DecodeIndex(b, k).Ok? && |b.getItem(DecodeIndex(b, k).value)| <= VecDim
  }

  /**
   * An independent, column-wise reading of the sum: element `i` is the
   * float32 sum, in keyword order, of element `i` of every item long enough
   * to have one, starting from +0.0.
   */
  function Column(b: Backend, keys: seq<string>, i: nat): Float32
    requires forall j :: 0 <= j < |keys| ==> Addable(b, keys[j])
  {
    if keys == [] then 0
    else
      assert Addable(b, keys[|keys| - 1]);
      var wv := b.getItem(DecodeIndex(b, keys[|keys| - 1]).value);
      var acc := Column(b, keys[..|keys| - 1], i);
      if i < |wv| then b.add(acc, wv[i]) else acc
  }

  /** Lines 163-175 and 228-240: one keyword per result id, in the index's order. */
  function Resolve(b: Backend, ids: seq<int>, vec: seq<Float32>): (r: Result<seq<Keyword>, Failure>)
    ensures r.Ok? <==> forall j :: 0 <= j < |ids| ==> IdKey(ids[j]) in b.indexToKeyword
    ensures r.Ok? ==> |r.value| == |ids|
    ensures r.Ok? ==> forall j :: 0 <= j < |ids| ==>
              r.value[j] == Keyword(b.indexToKeyword[IdKey(ids[j])], b.cosine(vec, ids[j]))
    ensures r.Err? ==> r.error.UnknownId?
  {
    if ids == [] then Ok([])
    else
      var init := ids[..|ids| - 1];
      var id := ids[|ids| - 1];
      match Resolve(b, init, vec)
      case Err(e) => Err(e)
      case Ok(kws) =>
        if IdKey(id) !in b.indexToKeyword then Err(UnknownId(id))
        else Ok(kws + [Keyword(b.indexToKeyword[IdKey(id)], b.cosine(vec, id))])
  }

  /**
   * Lines 129-139: the keywords to sum. The first keyword must be in the
   * database, unless it is the only one and a dictionary is loaded, in which
   * case its segments are used instead.
   */
  function SearchKeywords(b: Backend, key: seq<string>): Result<seq<string>, Failure>
    requires |key| >= 1
  {
    if key[0] in b.keywordToIndex then Ok(key)
    else if |key| == 1 && b.dictLoaded then Ok(b.segment(key[0]))
    else Err(NotFound(key[0]))
  }

  /** `getSimilarKeyword` (lines 103-175). */
  function SimilarKeywords(b: Backend, q: Query, atoi: string -> Option<int>): Result<seq<Keyword>, Failure>
  {
    if "keyword" !in q || |q["keyword"]| == 0 then Err(MissingKeyword)
    else
      match NumKeywords(q, atoi)
      case Err(e) => Err(e)
      case Ok(n) =>
        match SearchKeywords(b, q["keyword"])
        case Err(e) => Err(e)
        case Ok(keys) =>
          match SumResolved(b, keys)
          case Err(e) => Err(e)
          case Ok((vec, valid)) =>
            if valid == 0 then Err(NoMatch) else Resolve(b, b.getNns(vec, n), vec)
  }

  /** `getSimilarKeywordFromVector` after decoding the body (lines 212-240). */
  function SimilarKeywordsFromVector(b: Backend, numKeywords: int, vector: seq<Float32>): (r: Result<seq<Keyword>, Failure>)
    ensures |vector| != VecDim ==> r == Err(DimensionMismatch)
    ensures r.Ok? ==> |r.value| == |b.getNns(vector, ClampCount(numKeywords))|
  {
    if |vector| != VecDim then Err(DimensionMismatch)
    else Resolve(b, b.getNns(vector, ClampCount(numKeywords)), vector)
  }

  /** `getWordVector` (lines 266-286). */
  function WordVector(b: Backend, q: Query): (r: Result<seq<Float32>, Failure>)
    ensures r.Ok? ==> |r.value| == VecDim
  {
    if "keyword" !in q || |q["keyword"]| == 0 then Err(MissingKeyword)
    else SumAll(b, q["keyword"])
  }

  /**
   * `getSimilarityScore` (lines 311-339): both keywords given once and
   * found, checked in the order keyword1, its id, keyword2, its id.
   */
  function SimilarityScore(b: Backend, q: Query): (r: Result<Float32, Failure>)
    ensures r.Ok? <==>
      && SingleValue(q, "keyword1").Some? && DecodeIndex(b, SingleValue(q, "keyword1").value).Ok?
      && SingleValue(q, "keyword2").Some? && DecodeIndex(b, SingleValue(q, "keyword2").value).Ok?
    ensures r.Ok? ==>
      r.value == b.cosine(b.getItem(DecodeIndex(b, q["keyword1"][0]).value), DecodeIndex(b, q["keyword2"][0]).value)
    ensures SingleValue(q, "keyword1").None? ==> r == Err(MissingKeyword)
  {
    match SingleValue(q, "keyword1")
    case None => Err(MissingKeyword)
    case Some(k1) =>
      match DecodeIndex(b, k1)
      case Err(e) => Err(e)
      case Ok(index1) =>
        match SingleValue(q, "keyword2")
        case None => Err(MissingKeyword)
        case Some(k2) =>
          match DecodeIndex(b, k2)
          case Err(e) => Err(e)
          case Ok(index2) => Ok(b.cosine(b.getItem(index1), index2))
  }

  // ---------------------------------------------------------------------
  // The handlers' loops

  /** Lines 151-153 and 283-285: adds `wv` into `wordVec` element by element, in place. */
  method AddInto(wordVec: array<Float32>, wv: seq<Float32>, add: (Float32, Float32) -> Float32)
    requires |wv| <= wordVec.Length
    modifies wordVec
    ensures wordVec[..] == AddVector(old(wordVec[..]), wv, add)
  {
    ghost var acc := wordVec[..];
    for i := 0 to |wv|
      invariant forall j :: 0 <= j < i ==> wordVec[j] == add(acc[j], wv[j])
      invariant forall j :: i <= j < wordVec.Length ==> wordVec[j] == acc[j]
    {
      wordVec[i] := add(wordVec[i], wv[i]);
    }
    assert wordVec[..] == AddVector(acc, wv, add);
  }

  /** Lines 128 and 141-154: sums, into a zeroed `wordVec`, the vectors of the keywords in the database. */
  method SumResolvedKeys(b: Backend, keys: seq<string>) returns (r: Result<(seq<Float32>, nat), Failure>)
    ensures r == SumResolved(b, keys)
  {
    var wordVec := new Float32[VecDim](_ => 0);
    var validKeywords: nat := 0;
    assert wordVec[..] == ZeroVector();
    for n := 0 to |keys|
      invariant SumResolved(b, keys[..n]) == Ok((wordVec[..], validKeywords))
    {
      var k := keys[n];
      assert keys[..n + 1][..n] == keys[..n];
      if k !in b.keywordToIndex {
        continue;
      }
      var id := b.keywordToIndex[k];
      if |id| < 4 {
        SumResolvedErrFinal(b, keys, n + 1);
        return Err(MalformedId(k));
      }
      var index := Uint32FromBytes(id);
      var wv := b.getItem(index as int);
      if |wv| > VecDim {
        SumResolvedErrFinal(b, keys, n + 1);
        return Err(VectorTooLong(k));
      }
      AddInto(wordVec, wv, b.add);
      validKeywords := validKeywords + 1;
    }
    assert keys[..|keys|] == keys;
    return Ok((wordVec[..], validKeywords));
  }

  /** Lines 272-286: sums, into a zeroed `wordVec`, the vectors of all keywords. */
  method SumAllKeys(b: Backend, keys: seq<string>) returns (r: Result<seq<Float32>, Failure>)
    ensures r == SumAll(b, keys)
  {
    var wordVec := new Float32[VecDim](_ => 0);
    assert wordVec[..] == ZeroVector();
    for n := 0 to |keys|
      invariant SumAll(b, keys[..n]) == Ok(wordVec[..])
    {
      var k := keys[n];
      assert keys[..n + 1][..n] == keys[..n];
      if k !in b.keywordToIndex {
        SumAllErrFinal(b, keys, n + 1);
        return Err(NotFound(k));
      }
      var id := b.keywordToIndex[k];
      if |id| < 4 {
        SumAllErrFinal(b, keys, n + 1);
        return Err(MalformedId(k));
      }
      var index := Uint32FromBytes(id);
      var wv := b.getItem(index as int);
      if |wv| > VecDim {
        SumAllErrFinal(b, keys, n + 1);
        return Err(VectorTooLong(k));
      }
      AddInto(wordVec, wv, b.add);
    }
    assert keys[..|keys|] == keys;
    return Ok(wordVec[..]);
  }

  /** Lines 163-175 and 228-240: appends one keyword per result id. */
  method ResolveResults(b: Backend, ids: seq<int>, vec: seq<Float32>) returns (r: Result<seq<Keyword>, Failure>)
    ensures r == Resolve(b, ids, vec)
  {
    var keywords: seq<Keyword> := [];
    for n := 0 to |ids|
      invariant Resolve(b, ids[..n], vec) == Ok(keywords)
    {
      assert ids[..n + 1][..n] == ids[..n];
      var key := IdKey(ids[n]);
      if key !in b.indexToKeyword {
        ResolveErrFinal(b, ids, vec, n + 1);
        return Err(UnknownId(ids[n]));
      }
      keywords := keywords + [Keyword(b.indexToKeyword[key], b.cosine(vec, ids[n]))];
    }
    assert ids[..|ids|] == ids;
    return Ok(keywords);
  }

  /** `getSimilarKeyword` (lines 103-175). */
  method GetSimilarKeyword(b: Backend, q: Query, atoi: string -> Option<int>) returns (r: Result<seq<Keyword>, Failure>)
    ensures r == SimilarKeywords(b, q, atoi)
  {
    if "keyword" !in q || |q["keyword"]| == 0 {
      return Err(MissingKeyword);
    }
    var key := q["keyword"];
    var numKeywords := NumKeywords(q, atoi);
    if numKeywords.Err? {
      return Err(numKeywords.error);
    }
    if key[0] !in b.keywordToIndex {
      if |key| == 1 && b.dictLoaded {
        key := b.segment(key[0]);
      } else {
        return Err(NotFound(key[0]));
      }
    }
    var sum := SumResolvedKeys(b, key);
    if sum.Err? {
      return Err(sum.error);
    }
    var (wordVec, validKeywords) := sum.value;
    if validKeywords == 0 {
      return Err(NoMatch);
    }
    r := ResolveResults(b, b.getNns(wordVec, numKeywords.value), wordVec);
  }

  /** `getSimilarKeywordFromVector` after decoding the body (lines 212-240). */
  method GetSimilarKeywordFromVector(b: Backend, numKeywords: int, vector: seq<Float32>)
    returns (r: Result<seq<Keyword>, Failure>)
    ensures r == SimilarKeywordsFromVector(b, numKeywords, vector)
  {
    if |vector| != VecDim {
      return Err(DimensionMismatch);
    }
    var n := ClampCount(numKeywords);
    r := ResolveResults(b, b.getNns(vector, n), vector);
  }

  /** `getWordVector` (lines 266-286). */
  method GetWordVector(b: Backend, q: Query) returns (r: Result<seq<Float32>, Failure>)
    ensures r == WordVector(b, q)
  {
    if "keyword" !in q || |q["keyword"]| == 0 {
      return Err(MissingKeyword);
    }
    r := SumAllKeys(b, q["keyword"]);
  }

  // ---------------------------------------------------------------------
  // Properties

  /** An error while summing a prefix of the keywords is the answer for all of them. */
  lemma {:induction false} SumResolvedErrFinal(b: Backend, keys: seq<string>, n: nat)
    requires n <= |keys| && SumResolved(b, keys[..n]).Err?
    ensures SumResolved(b, keys) == SumResolved(b, keys[..n])
    decreases |keys|
  {
    if n < |keys| {
      var init := keys[..|keys| - 1];
      assert init[..n] == keys[..n];
      SumResolvedErrFinal(b, init, n);
    } else {
      assert keys[..n] == keys;
    }
  }

  /** An error while summing a prefix of the keywords is the answer for all of them. */
  lemma {:induction false} SumAllErrFinal(b: Backend, keys: seq<string>, n: nat)
    requires n <= |keys| && SumAll(b, keys[..n]).Err?
    ensures SumAll(b, keys) == SumAll(b, keys[..n])
    decreases |keys|
  {
    if n < |keys| {
      var init := keys[..|keys| - 1];
      assert init[..n] == keys[..n];
      SumAllErrFinal(b, init, n);
    } else {
      assert keys[..n] == keys;
    }
  }

  /** An id of a prefix that does not resolve is the answer for all of them. */
  lemma {:induction false} ResolveErrFinal(b: Backend, ids: seq<int>, vec: seq<Float32>, n: nat)
    requires n <= |ids| && Resolve(b, ids[..n], vec).Err?
    ensures Resolve(b, ids, vec) == Resolve(b, ids[..n], vec)
    decreases |ids|
  {
    if n < |ids| {
      var init := ids[..|ids| - 1];
      assert init[..n] == ids[..n];
      ResolveErrFinal(b, init, vec, n);
    } else {
      assert ids[..n] == ids;
    }
  }

  /**
   * The first result id that does not resolve names the error: the response
   * is all or nothing.
   */
  lemma ResolveFirstUnknown(b: Backend, ids: seq<int>, vec: seq<Float32>, j: nat)
    requires j < |ids| && IdKey(ids[j]) !in b.indexToKeyword
    requires forall i :: 0 <= i < j ==> IdKey(ids[i]) in b.indexToKeyword
    ensures Resolve(b, ids, vec) == Err(UnknownId(ids[j]))
  {
    var pre := ids[..j + 1];
    assert pre[..j] == ids[..j];
    assert Resolve(b, ids[..j], vec).Ok?;
    ResolveErrFinal(b, ids, vec, j + 1);
  }

  /**
   * The skipping sum of `getSimilarKeyword` is the aborting sum of
   * `getWordVector` over the keywords that resolve, and `validKeywords`
   * counts them.
   */
  lemma {:induction false} SumResolvedIsSumAllOfResolved(b: Backend, keys: seq<string>)
    ensures SumResolved(b, keys).Ok? <==> SumAll(b, Resolved(b, keys)).Ok?
    ensures SumResolved(b, keys).Ok? ==>
      SumResolved(b, keys).value == (SumAll(b, Resolved(b, keys)).value, |Resolved(b, keys)|)
    ensures SumResolved(b, keys).Err? ==> SumResolved(b, keys).error == SumAll(b, Resolved(b, keys)).error
  {
    if keys != [] {
      var init := keys[..|keys| - 1];
      var k := keys[|keys| - 1];
      SumResolvedIsSumAllOfResolved(b, init);
      var r := Resolved(b, init);
      if k in b.keywordToIndex {
        assert Resolved(b, keys) == r + [k];
        assert (r + [k])[..|r|] == r;
      } else {
        assert Resolved(b, keys) == r;
      }
    }
  }

  /** No keyword resolves exactly when the resolved list is empty. */
  lemma {:induction false} ResolvedEmpty(b: Backend, keys: seq<string>)
    ensures |Resolved(b, keys)| == 0 <==> forall j :: 0 <= j < |keys| ==> keys[j] !in b.keywordToIndex
  {
    if keys != [] {
      var init := keys[..|keys| - 1];
      ResolvedEmpty(b, init);
      assert forall j :: 0 <= j < |init| ==> init[j] == keys[j];
    }
  }

  /**
   * Lines 129-138: a first keyword not in the database fails the request
   * when there are other keywords or no dictionary, whatever the others are.
   */
  lemma FirstKeywordRule(b: Backend, q: Query, atoi: string -> Option<int>)
    requires "keyword" in q && |q["keyword"]| >= 1 && NumKeywords(q, atoi).Ok?
    requires q["keyword"][0] !in b.keywordToIndex && (|q["keyword"]| > 1 || !b.dictLoaded)
    ensures SimilarKeywords(b, q, atoi) == Err(NotFound(q["keyword"][0]))
  {
  }

  /**
   * Lines 155-158: once the keywords are chosen and summed, the request
   * fails with "no match" exactly when none of them is in the database.
   */
  lemma NoMatchExactly(b: Backend, q: Query, atoi: string -> Option<int>)
    requires "keyword" in q && |q["keyword"]| >= 1 && NumKeywords(q, atoi).Ok?
    requires SearchKeywords(b, q["keyword"]).Ok?
    requires SumResolved(b, SearchKeywords(b, q["keyword"]).value).Ok?
    ensures var keys := SearchKeywords(b, q["keyword"]).value;
      SimilarKeywords(b, q, atoi) == Err(NoMatch) <==> forall j :: 0 <= j < |keys| ==> keys[j] !in b.keywordToIndex
  {
    var keys := SearchKeywords(b, q["keyword"]).value;
    SumResolvedIsSumAllOfResolved(b, keys);
    ResolvedEmpty(b, keys);
  }

  /**
   * The aborting sum succeeds exactly when every keyword resolves to an item
   * that fits, and then element `i` is the column-wise sum of element `i`.
   */
  lemma {:induction false} SumAllColumns(b: Backend, keys: seq<string>)
    ensures SumAll(b, keys).Ok? <==> forall j :: 0 <= j < |keys| ==> Addable(b, keys[j])
    ensures SumAll(b, keys).Ok? ==>
      forall i :: 0 <= i < VecDim ==> SumAll(b, keys).value[i] == Column(b, keys, i)
  {
    if keys != [] {
      var init := keys[..|keys| - 1];
      SumAllColumns(b, init);
      assert forall j :: 0 <= j < |init| ==> init[j] == keys[j];
    }
  }

  /**
   * Lines 273-279: `getWordVector` stops at the first keyword that is not in
   * the database, even after keywords that resolved.
   */
  lemma WordVectorFirstMissing(b: Backend, q: Query, j: nat)
    requires "keyword" in q && j < |q["keyword"]|
    requires q["keyword"][j] !in b.keywordToIndex
    requires forall i :: 0 <= i < j ==> Addable(b, q["keyword"][i])
    ensures WordVector(b, q) == Err(NotFound(q["keyword"][j]))
  {
    var keys := q["keyword"];
    SumAllColumns(b, keys[..j]);
    assert keys[..j + 1][..j] == keys[..j];
    SumAllErrFinal(b, keys, j + 1);
  }
}
