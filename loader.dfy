/**
 * The index builder of gen_annoy_index/main.go: it walks the word-vector
 * database in iteration order, decodes each record into `dimVec` floats,
 * hands it to the ANN index under id `count` and records the keyword <-> id
 * mapping in two databases.
 *
 * The iterator is a sequence of records, `AddItem` appends to a sequence of
 * items and the two databases are maps. The forest itself (`Build`, `Save`)
 * belongs to an external library and is not part of this model.
 */
module AnnoyIndexGen {
  import opened Wrappers
  import opened Util
  import opened WordVectorDb

  /** `dimVec`: the number of floats in every record. */
  const DimVec: nat := 200

  /** One `AddItem(id, vector)` call. */
  datatype Item = Item(id: int, vector: seq<Float32>)

  /** The builder panics when a record is too short to slice `dimVec` floats out of it. */
  datatype LoadError = ShortValue(index: nat)

  /** The first `dim` floats of a record: float `i` is `Float32frombytes` of bytes `[4i, 4i+4)`. */
  function Unpack(value: seq<Byte>, dim: nat): (v: seq<Float32>)
    requires |value| >= 4 * dim
    ensures |v| == dim
  {
    if dim == 0 then []
    else Unpack(value, dim - 1) + [Float32FromBytes(value[4 * (dim - 1)..4 * dim])]
  }

  /** Float `i` is read from bytes `4i .. 4i+3` and from nowhere else. */
  lemma {:induction false} UnpackAt(value: seq<Byte>, dim: nat, i: nat)
    requires |value| >= 4 * dim && i < dim
    ensures Unpack(value, dim)[i] == Float32FromBytes(value[4 * i..4 * i + 4])
  {
    if i < dim - 1 {
      UnpackAt(value, dim - 1, i);
    }
  }

  /** Only the first `4 * dim` bytes are read: a longer record decodes the same. */
  lemma {:induction false} UnpackPrefix(a: seq<Byte>, b: seq<Byte>, dim: nat)
    requires |a| >= 4 * dim && |b| >= 4 * dim && a[..4 * dim] == b[..4 * dim]
    ensures Unpack(a, dim) == Unpack(b, dim)
  {
    if dim > 0 {
      var d := dim - 1;
      assert a[..4 * d] == a[..4 * dim][..4 * d];
      assert b[..4 * d] == b[..4 * dim][..4 * d];
      UnpackPrefix(a, b, d);
      assert a[4 * d..4 * dim] == a[..4 * dim][4 * d..];
      assert b[4 * d..4 * dim] == b[..4 * dim][4 * d..];
    }
  }

  /** Decoding a record packed by the database generator recovers every value bit for bit. */
  lemma {:induction false} UnpackPack(values: seq<Float32>)
    ensures Unpack(Pack(values), |values|) == values
  {
    if values != [] {
      var n := |values| - 1;
      var init := values[..n];
      var rec := Pack(values);
      assert rec == Pack(init) + Float32Bytes(values[n])[..4];
      UnpackPack(init);
      assert rec[..4 * n] == Pack(init);
      UnpackPrefix(rec, Pack(init), n);
      assert rec[4 * n..4 * n + 4] == Uint32Bytes(values[n]);
      Uint32RoundTrip(values[n]);
    }
  }

  /** Packing the decoded values rebuilds the first `4 * dim` bytes of the record. */
  lemma {:induction false} PackUnpack(value: seq<Byte>, dim: nat)
    requires |value| >= 4 * dim
    ensures Pack(Unpack(value, dim)) == value[..4 * dim]
  {
    if dim > 0 {
      var d := dim - 1;
      PackUnpack(value, d);
      assert Unpack(value, dim)[..d] == Unpack(value, d);
      var f := Unpack(value, dim)[d];
      assert Float32Bytes(f)[..4] == value[4 * d..4 * d + 4];
      assert value[..4 * dim] == value[..4 * d] + value[4 * d..4 * d + 4];
    }
  }

  /** Lines 50-54: slices the record into `dimVec` floats, appending one at a time. */
  method DecodeRecord(value: seq<Byte>) returns (v: seq<Float32>)
    requires |value| >= 4 * DimVec
    ensures v == Unpack(value, DimVec)
  {
    v := [];
    var i := 0;
    while i < DimVec
      invariant 0 <= i <= DimVec
      invariant v == Unpack(value, i)
    {
      var e := Float32FromBytes(value[i * 4..(i + 1) * 4]);
      v := v + [e];
      i := i + 1;
    }
  }

  /** Every one of the first `n` records holds at least `dimVec` floats. */
  predicate LongRecords(entries: seq<Record>, n: nat)
    requires n <= |entries|
  {
    forall j :: 0 <= j < n ==> |entries[j].value| >= 4 * DimVec
  }

  /** The items added for the first `n` records: record `j` under id `j`. */
  function LoadedItems(entries: seq<Record>, n: nat): (items: seq<Item>)
    requires n <= |entries| && LongRecords(entries, n)
    ensures |items| == n
  {
    if n == 0 then []
    else LoadedItems(entries, n - 1) + [Item(n - 1, Unpack(entries[n - 1].value, DimVec))]
  }

  /** The keyword -> id database after the first `n` records. */
  function KeywordIds(entries: seq<Record>, n: nat, kw0: map<string, seq<Byte>>): map<string, seq<Byte>>
    requires n <= |entries|
  {
    if n == 0 then kw0
    else KeywordIds(entries, n - 1, kw0)[entries[n - 1].key := IdKey(n - 1)]
  }

  /** The id -> keyword database after the first `n` records. */
  function IdKeywords(entries: seq<Record>, n: nat, ix0: map<seq<Byte>, string>): map<seq<Byte>, string>
    requires n <= |entries|
  {
    if n == 0 then ix0
    else IdKeywords(entries, n - 1, ix0)[IdKey(n - 1) := entries[n - 1].key]
  }

  /** Loading record `n` appends its item and adds its two database entries. */
  lemma LoadStep(entries: seq<Record>, n: nat, kw0: map<string, seq<Byte>>, ix0: map<seq<Byte>, string>)
    requires n < |entries| && LongRecords(entries, n) && |entries[n].value| >= 4 * DimVec
    ensures LongRecords(entries, n + 1)
    ensures LoadedItems(entries, n + 1) == LoadedItems(entries, n) + [Item(n, Unpack(entries[n].value, DimVec))]
    ensures KeywordIds(entries, n + 1, kw0) == KeywordIds(entries, n, kw0)[entries[n].key := IdKey(n)]
    ensures IdKeywords(entries, n + 1, ix0) == IdKeywords(entries, n, ix0)[IdKey(n) := entries[n].key]
  {
  }

  /** The keywords of the first `n` records. */
  function LoadedKeys(entries: seq<Record>, n: nat): set<string>
    requires n <= |entries|
  {
    set j | 0 <= j < n :: entries[j].key
  }

  /** The keys of the ids `0 .. n-1`. */
  function LoadedIds(n: nat): set<seq<Byte>>
  {
    set j | 0 <= j < n :: IdKey(j)
  }

  /** The iterator yields every keyword once. */
  predicate DistinctKeys(entries: seq<Record>)
  {
    forall i, j :: 0 <= i < j < |entries| ==> entries[i].key != entries[j].key
  }

  /**
   * Lines 42-66: record `j` of the iteration becomes item `j` and is written
   * to both databases under id `j`, until the end or the first record shorter
   * than `4 * dimVec` bytes (a panic there leaves the writes made so far).
   */
  method LoadItems(entries: seq<Record>, kw0: map<string, seq<Byte>>, ix0: map<seq<Byte>, string>)
    returns (items: seq<Item>, keywordToIndex: map<string, seq<Byte>>,
             indexToKeyword: map<seq<Byte>, string>, err: Option<LoadError>)
    ensures |items| <= |entries| && LongRecords(entries, |items|)
    ensures err == None <==> |items| == |entries|
    ensures err != None ==> err == Some(ShortValue(|items|)) && |entries[|items|].value| < 4 * DimVec
    ensures items == LoadedItems(entries, |items|)
    ensures keywordToIndex == KeywordIds(entries, |items|, kw0)
    ensures indexToKeyword == IdKeywords(entries, |items|, ix0)
  {
    items, keywordToIndex, indexToKeyword, err := [], kw0, ix0, None;
    var count: nat := 0;
    while count < |entries|
      invariant count <= |entries| && |items| == count && LongRecords(entries, count)
      invariant items == LoadedItems(entries, count)
      invariant keywordToIndex == KeywordIds(entries, count, kw0)
      invariant indexToKeyword == IdKeywords(entries, count, ix0)
      invariant err == None
    {
      var value := entries[count].value;
      if |value| < 4 * DimVec {
        err := Some(ShortValue(count));
        break;
      }
      var v := DecodeRecord(value);
      LoadStep(entries, count, kw0, ix0);
      items := items + [Item(count, v)];
      keywordToIndex := keywordToIndex[entries[count].key := IdKey(count)];
      indexToKeyword := indexToKeyword[IdKey(count) := entries[count].key];
      count := count + 1;
    }
  }

  /** Item `j` is record `j`'s vector under id `j`: the ids are dense and in iteration order. */
  lemma {:induction false} LoadedItemsAt(entries: seq<Record>, n: nat, j: nat)
    requires n <= |entries| && LongRecords(entries, n) && j < n
    ensures LoadedItems(entries, n)[j] == Item(j, Unpack(entries[j].value, DimVec))
  {
    if j < n - 1 {
      LoadedItemsAt(entries, n - 1, j);
    }
  }

  /** The keyword database gains exactly the loaded keywords. */
  lemma {:induction false} KeywordIdsKeys(entries: seq<Record>, n: nat, kw0: map<string, seq<Byte>>)
    requires n <= |entries|
    ensures KeywordIds(entries, n, kw0).Keys == kw0.Keys + LoadedKeys(entries, n)
  {
    if n > 0 {
      KeywordIdsKeys(entries, n - 1, kw0);
      assert LoadedKeys(entries, n) == LoadedKeys(entries, n - 1) + {entries[n - 1].key};
    }
  }

  /** A keyword no loaded record carries keeps its old entry. */
  lemma {:induction false} KeywordIdsUnchanged(entries: seq<Record>, n: nat, kw0: map<string, seq<Byte>>, k: string)
    requires n <= |entries| && k in kw0 && k !in LoadedKeys(entries, n)
    ensures k in KeywordIds(entries, n, kw0) && KeywordIds(entries, n, kw0)[k] == kw0[k]
  {
    if n > 0 {
      assert entries[n - 1].key in LoadedKeys(entries, n);
      assert LoadedKeys(entries, n - 1) <= LoadedKeys(entries, n);
      KeywordIdsUnchanged(entries, n - 1, kw0, k);
    }
  }

  /** With every keyword yielded once, keyword `entries[j].key` maps to the key of id `j`. */
  lemma {:induction false} KeywordIdsAt(entries: seq<Record>, n: nat, kw0: map<string, seq<Byte>>, j: nat)
    requires n <= |entries| && j < n && DistinctKeys(entries)
    ensures entries[j].key in KeywordIds(entries, n, kw0)
    ensures KeywordIds(entries, n, kw0)[entries[j].key] == IdKey(j)
  {
    if j < n - 1 {
      assert entries[j].key != entries[n - 1].key;
      KeywordIdsAt(entries, n - 1, kw0, j);
    }
  }

  /** The id database gains exactly the keys of ids `0 .. n-1`. */
  lemma {:induction false} IdKeywordsKeys(entries: seq<Record>, n: nat, ix0: map<seq<Byte>, string>)
    requires n <= |entries|
    ensures IdKeywords(entries, n, ix0).Keys == ix0.Keys + LoadedIds(n)
  {
    if n > 0 {
      IdKeywordsKeys(entries, n - 1, ix0);
      assert LoadedIds(n) == LoadedIds(n - 1) + {IdKey(n - 1)};
    }
  }

  /** An id key no loaded record was given keeps its old entry. */
  lemma {:induction false} IdKeywordsUnchanged(entries: seq<Record>, n: nat, ix0: map<seq<Byte>, string>, c: seq<Byte>)
    requires n <= |entries| && c in ix0 && c !in LoadedIds(n)
    ensures c in IdKeywords(entries, n, ix0) && IdKeywords(entries, n, ix0)[c] == ix0[c]
  {
    if n > 0 {
      assert IdKey(n - 1) in LoadedIds(n);
      assert LoadedIds(n - 1) <= LoadedIds(n);
      IdKeywordsUnchanged(entries, n - 1, ix0, c);
    }
  }

  /** While the ids fit in 32 bits, the key of id `j` maps back to record `j`'s keyword. */
  lemma {:induction false} IdKeywordsAt(entries: seq<Record>, n: nat, ix0: map<seq<Byte>, string>, j: nat)
    requires n <= |entries| && n <= TwoTo32 && j < n
    ensures IdKey(j) in IdKeywords(entries, n, ix0)
    ensures IdKeywords(entries, n, ix0)[IdKey(j)] == entries[j].key
  {
    if j < n - 1 {
      if IdKey(j) == IdKey(n - 1) {
        IdKeyInjective(j, n - 1);
      }
      IdKeywordsAt(entries, n - 1, ix0, j);
    }
  }

  /**
   * The two databases are inverse on the loaded records: a keyword's id key
   * leads back to the keyword, and an id's keyword leads back to the id key.
   */
  lemma LoadedInverse(entries: seq<Record>, n: nat, kw0: map<string, seq<Byte>>, ix0: map<seq<Byte>, string>, j: nat)
    requires n <= |entries| && n <= TwoTo32 && DistinctKeys(entries) && j < n
    ensures entries[j].key in KeywordIds(entries, n, kw0) && IdKey(j) in IdKeywords(entries, n, ix0)
    ensures var c := KeywordIds(entries, n, kw0)[entries[j].key];
            c in IdKeywords(entries, n, ix0) && IdKeywords(entries, n, ix0)[c] == entries[j].key
    ensures var k := IdKeywords(entries, n, ix0)[IdKey(j)];
            k in KeywordIds(entries, n, kw0) && KeywordIds(entries, n, kw0)[k] == IdKey(j)
  {
    KeywordIdsAt(entries, n, kw0, j);
    IdKeywordsAt(entries, n, ix0, j);
  }
}
