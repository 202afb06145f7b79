/**
 * The ingestion tool of gen_wordvector_leveldb/main.go: it reads the
 * embedding text file line by line and stores, per keyword, a record of
 * `4 * dim` bytes in the word-vector database.
 *
 * The file is a sequence of lines, the database a map from keyword to
 * record, and `strconv.ParseInt` / `strconv.ParseFloat` are partial
 * functions supplied by the caller. A `log.Fatal` (or a panic) ends the
 * run with an `IngestError`; every record put before it stays stored.
 */
module WordVectorDb {
  import opened Wrappers
  import opened Util

  /** One database entry: a keyword and its packed vector. */
  datatype Record = Record(key: string, value: seq<Byte>)

  /** Why a run stopped before the end of the file; line numbers count from 1. */
  datatype IngestError =
    | BadTotal                           // header field 0 is not an integer
    | MissingDim                         // header has no field 1 (index out of range)
    | BadDim                             // header field 1 is not an integer
    | FieldCount(line: nat, got: nat)    // a data line without exactly 1 + dim fields
    | BadValue(line: nat, field: nat)    // a vector field that is not a float

  /** The database after a run, and the error that stopped it, if any. */
  datatype Outcome = Outcome(db: map<string, seq<Byte>>, error: Option<IngestError>)

  /** `strings.Join`: the fields with one separator between neighbours. */
  function Join(fields: seq<string>, sep: char): string
    requires |fields| >= 1
  {
    if |fields| == 1 then fields[0] else fields[0] + [sep] + Join(fields[1..], sep)
  }

  /**
   * `strings.Split` with a one-character separator: the maximal
   * separator-free pieces between separators, so an empty string gives one
   * empty field and two adjacent separators give an empty field between them.
   */
  function Split(s: string, sep: char): (fields: seq<string>)
    ensures |fields| >= 1
    ensures forall i :: 0 <= i < |fields| ==> sep !in fields[i]
    ensures Join(fields, sep) == s
    decreases |s|
  {
    if |s| == 0 then [""]
    else
      var rest := Split(s[1..], sep);
      if s[0] == sep then [""] + rest
      else [[s[0]] + rest[0]] + rest[1..]
  }

  /**
   * Bytes 0..3 of each value's `Float32bytes`, one value after the other:
   * the layout of a stored record (the four trailing zero bytes of each
   * `Float32bytes` slice are dropped).
   */
  function Pack(values: seq<Float32>): (rec: seq<Byte>)
    ensures |rec| == 4 * |values|
  {
    if values == [] then []
    else Pack(values[..|values| - 1]) + Float32Bytes(values[|values| - 1])[..4]
  }

  /** Packing one more value appends its four bytes. */
  lemma PackSnoc(values: seq<Float32>, v: Float32)
    ensures Pack(values + [v]) == Pack(values) + Float32Bytes(v)[..4]
  {
    assert (values + [v])[..|values|] == values;
  }

  /** Four single-byte writes at `at .. at+3` place `bs[..4]` there and keep the bytes before. */
  lemma WriteFour(buf: seq<Byte>, at: nat, bs: seq<Byte>)
    requires at + 4 <= |buf| && |bs| >= 4
    ensures buf[at := bs[0]][at + 1 := bs[1]][at + 2 := bs[2]][at + 3 := bs[3]][..at + 4] == buf[..at] + bs[..4]
  {
    var after := buf[at := bs[0]][at + 1 := bs[1]][at + 2 := bs[2]][at + 3 := bs[3]];
    assert after[..at] == buf[..at];
    assert after[at..at + 4] == bs[..4];
    assert after[..at + 4] == after[..at] + after[at..at + 4];
  }

  /** Bytes `4i .. 4i+3` of a packed record are bytes 0..3 of `Float32bytes` of value `i`. */
  lemma {:induction false} PackAt(values: seq<Float32>, i: nat)
    requires i < |values|
    ensures Pack(values)[4 * i..4 * i + 4] == Float32Bytes(values[i])[..4]
  {
    var n := |values| - 1;
    var init := values[..n];
    assert Pack(values) == Pack(init) + Float32Bytes(values[n])[..4];
    if i < n {
      PackAt(init, i);
      assert Pack(values)[4 * i..4 * i + 4] == Pack(init)[4 * i..4 * i + 4];
    }
  }

  /**
   * Parses the vector fields in order. `Err(i)` names the first field
   * (counting from 0) that does not parse; `Ok` holds every parsed value.
   */
  function ParseValues(fields: seq<string>, parseFloat: string -> Option<Float32>): Result<seq<Float32>, nat>
  {
    if fields == [] then Ok([])
    else
      match ParseValues(fields[..|fields| - 1], parseFloat)
      case Err(i) => Err(i)
      case Ok(values) =>
        match parseFloat(fields[|fields| - 1])
        case None => Err(|fields| - 1)
        case Some(v) => Ok(values + [v])
  }

  /**
   * `ParseValues` succeeds exactly when every field parses, and then holds
   * each field's value; otherwise it names the first field that does not parse.
   */
  lemma {:induction false} ParseValuesMeaning(fields: seq<string>, parseFloat: string -> Option<Float32>)
    ensures var r := ParseValues(fields, parseFloat);
      && (r.Ok? <==> forall i :: 0 <= i < |fields| ==> parseFloat(fields[i]).Some?)
      && (r.Ok? ==> |r.value| == |fields| && forall i :: 0 <= i < |fields| ==> parseFloat(fields[i]) == Some(r.value[i]))
      && (r.Err? ==> r.error < |fields| && parseFloat(fields[r.error]).None?
                     && forall i :: 0 <= i < r.error ==> parseFloat(fields[i]).Some?)
  {
    if fields != [] {
      var init := fields[..|fields| - 1];
      ParseValuesMeaning(init, parseFloat);
      assert forall i :: 0 <= i < |init| ==> init[i] == fields[i];
    }
  }

  /** A field that does not parse, after a prefix that does, is the error. */
  lemma ParseValuesStops(fields: seq<string>, k: nat, parseFloat: string -> Option<Float32>)
    requires k < |fields| && ParseValues(fields[..k], parseFloat).Ok? && parseFloat(fields[k]).None?
    ensures ParseValues(fields, parseFloat) == Err(k)
  {
    ParseValuesMeaning(fields[..k], parseFloat);
    ParseValuesMeaning(fields, parseFloat);
    assert forall i :: 0 <= i < k ==> fields[..k][i] == fields[i];
  }

  /** One more field that parses extends the parsed prefix by its value. */
  lemma ParseValuesExtends(fields: seq<string>, k: nat, parseFloat: string -> Option<Float32>)
    requires k < |fields| && ParseValues(fields[..k], parseFloat).Ok? && parseFloat(fields[k]).Some?
    ensures ParseValues(fields[..k + 1], parseFloat)
         == Ok(ParseValues(fields[..k], parseFloat).value + [parseFloat(fields[k]).value])
  {
    assert fields[..k + 1][..k] == fields[..k];
  }

  /** The header line: `total` is field 0 and `dim` field 1, both decimal integers. */
  function ParseHeader(line: string, parseInt: string -> Option<int>): Result<(int, int), IngestError>
  {
    var fields := Split(line, ' ');
    match parseInt(fields[0])
    case None => Err(BadTotal)
    case Some(total) =>
      if |fields| < 2 then Err(MissingDim)
      else
        match parseInt(fields[1])
        case None => Err(BadDim)
        case Some(dim) => Ok((total, dim))
  }

  /** The record one data line (number `lineNo`) produces, or why it stops the run. */
  function EncodeLine(line: string, dim: int, parseFloat: string -> Option<Float32>, lineNo: nat): Result<Record, IngestError>
  {
    EncodeFields(Split(line, ' '), dim, parseFloat, lineNo)
  }

  /** The record of a data line already split into its space-separated fields (never none). */
  function EncodeFields(fields: seq<string>, dim: int, parseFloat: string -> Option<Float32>, lineNo: nat): Result<Record, IngestError>
    requires |fields| >= 1
  {
    if |fields| != 1 + dim then Err(FieldCount(lineNo, |fields|))
    else
      match ParseValues(fields[1..], parseFloat)
      case Err(i) => Err(BadValue(lineNo, i + 1))
      case Ok(values) => Ok(Record(fields[0], Pack(values)))
  }

  /** Data lines from number `lineNo` on, each put into the database in turn. */
  function IngestData(lines: seq<string>, lineNo: nat, dim: int, parseFloat: string -> Option<Float32>,
                      db: map<string, seq<Byte>>): Outcome
    decreases |lines|
  {
    if lines == [] then Outcome(db, None)
    else
      match EncodeLine(lines[0], dim, parseFloat, lineNo)
      case Err(e) => Outcome(db, Some(e))
      case Ok(rec) => IngestData(lines[1..], lineNo + 1, dim, parseFloat, db[rec.key := rec.value])
  }

  /** A whole run over the file, starting from the database as it was opened. */
  function Ingest(lines: seq<string>, db0: map<string, seq<Byte>>,
                  parseInt: string -> Option<int>, parseFloat: string -> Option<Float32>): Outcome
  {
    if lines == [] then Outcome(db0, None)
    else
      match ParseHeader(lines[0], parseInt)
      case Err(e) => Outcome(db0, Some(e))
      case Ok((_, dim)) => IngestData(lines[1..], 2, dim, parseFloat, db0)
  }

  /** Lines 57-60: copies bytes 0..3 of `bs` to `vec[at .. at+3]`, leaving every other byte alone. */
  method PutValue(vec: array<Byte>, at: nat, bs: seq<Byte>)
    requires at + 4 <= vec.Length && |bs| >= 4
    modifies vec
    ensures vec[..] == old(vec[..])[at := bs[0]][at + 1 := bs[1]][at + 2 := bs[2]][at + 3 := bs[3]]
    ensures vec[..at + 4] == old(vec[..at]) + bs[..4]
  {
    ghost var before := vec[..];
    vec[at] := bs[0];
    vec[at + 1] := bs[1];
    vec[at + 2] := bs[2];
    vec[at + 3] := bs[3];
    assert vec[..] == before[at := bs[0]][at + 1 := bs[1]][at + 2 := bs[2]][at + 3 := bs[3]];
    WriteFour(before, at, bs);
  }

  /**
   * Lines 52-60: field `i` of `texts` is parsed and its four bytes written at
   * `4i .. 4i+3` of a zeroed buffer of `4 * |texts|` bytes; the first field
   * that does not parse stops the loop.
   */
  method PackFields(texts: seq<string>, parseFloat: string -> Option<Float32>) returns (r: Result<seq<Byte>, nat>)
    ensures match ParseValues(texts, parseFloat)
            case Err(i) => r == Err(i)
            case Ok(values) => r == Ok(Pack(values))
  {
    var vec := new Byte[4 * |texts|](_ => 0);
    ghost var values: seq<Float32> := [];
    var i := 0;
    while i < |texts|
      invariant 0 <= i <= |texts| && |values| == i
      invariant ParseValues(texts[..i], parseFloat) == Ok(values)
      invariant vec[..4 * i] == Pack(values)
    {
      var value := parseFloat(texts[i]);
      if value.None? {
        ParseValuesStops(texts, i, parseFloat);
        return Err(i);
      }
      var bs := Float32Bytes(value.value);
      PutValue(vec, 4 * i, bs);
      PackSnoc(values, value.value);
      ParseValuesExtends(texts, i, parseFloat);
      values := values + [value.value];
      i := i + 1;
    }
    assert texts[..|texts|] == texts;
    assert vec[..] == vec[..4 * |texts|];
    return Ok(vec[..]);
  }

  /** Lines 45-61: checks the field count, then packs the vector fields. */
  method PackLine(line: string, dim: int, parseFloat: string -> Option<Float32>, lineNo: nat)
    returns (r: Result<Record, IngestError>)
    ensures r == EncodeLine(line, dim, parseFloat, lineNo)
  {
    var fields := Split(line, ' ');
    if |fields| != 1 + dim {
      return Err(FieldCount(lineNo, |fields|));
    }
    var packed := PackFields(fields[1..], parseFloat);
    match packed
    case Err(i) => return Err(BadValue(lineNo, i + 1));
    case Ok(rec) => return Ok(Record(fields[0], rec));
  }

  /** Lines 30-42: the first line of the file gives `total` and `dim`. */
  method ReadHeader(text: string, parseInt: string -> Option<int>) returns (r: Result<(int, int), IngestError>)
    ensures r == ParseHeader(text, parseInt)
  {
    var fields := Split(text, ' ');
    var t := parseInt(fields[0]);
    if t.None? {
      return Err(BadTotal);
    }
    if |fields| < 2 {
      return Err(MissingDim);
    }
    var l := parseInt(fields[1]);
    if l.None? {
      return Err(BadDim);
    }
    return Ok((t.value, l.value));
  }

  /** One step of the run: line `i` either stops it or is put, and the run goes on after it. */
  lemma IngestDataStep(lines: seq<string>, i: nat, lineNo: nat, dim: int,
                       parseFloat: string -> Option<Float32>, db: map<string, seq<Byte>>)
    requires i < |lines|
    ensures var r := EncodeLine(lines[i], dim, parseFloat, lineNo);
      r.Err? ==> IngestData(lines[i..], lineNo, dim, parseFloat, db) == Outcome(db, Some(r.error))
    ensures var r := EncodeLine(lines[i], dim, parseFloat, lineNo);
      r.Ok? ==> (IngestData(lines[i..], lineNo, dim, parseFloat, db)
                 == IngestData(lines[i + 1..], lineNo + 1, dim, parseFloat, db[r.value.key := r.value.value]))
  {
    assert lines[i..][0] == lines[i];
    assert lines[i..][1..] == lines[i + 1..];
  }

  /**
   * Lines 24-71: the scanner loop. Line 1 is the header and sets `dim`;
   * every later line is packed and put under its first field.
   */
  method IngestFile(lines: seq<string>, db0: map<string, seq<Byte>>,
                    parseInt: string -> Option<int>, parseFloat: string -> Option<Float32>)
    returns (db: map<string, seq<Byte>>, err: Option<IngestError>)
    ensures Outcome(db, err) == Ingest(lines, db0, parseInt, parseFloat)
  {
    db := db0;
    var lineCount := 0;
    var total := 0;
    var dim := 0;
    while lineCount < |lines|
      invariant 0 <= lineCount <= |lines|
      invariant lineCount == 0 ==> db == db0
      invariant lineCount >= 1 ==>
        && ParseHeader(lines[0], parseInt) == Ok((total, dim))
        && Ingest(lines, db0, parseInt, parseFloat)
           == IngestData(lines[lineCount..], lineCount + 1, dim, parseFloat, db)
    {
      var text := lines[lineCount];
      lineCount := lineCount + 1;
      if lineCount == 1 {
        var header := ReadHeader(text, parseInt);
        if header.Err? {
          return db, Some(header.error);
        }
        total, dim := header.value.0, header.value.1;
        continue;
      }
      IngestDataStep(lines, lineCount - 1, lineCount, dim, parseFloat, db);
      var r := PackLine(text, dim, parseFloat, lineCount);
      match r
      case Err(e) =>
        return db, Some(e);
      case Ok(rec) =>
        db := db[rec.key := rec.value];
    }
    return db, None;
  }

  /**
   * What a data line stores: exactly when it has `1 + dim` fields that all
   * parse, it gives a record keyed by its first field whose `4 * dim` bytes
   * hold, at `4(i-1) .. 4(i-1)+3`, bytes 0..3 of `Float32bytes` of field `i`.
   */
  lemma EncodeFieldsStores(fields: seq<string>, dim: int, parseFloat: string -> Option<Float32>, lineNo: nat)
    requires |fields| >= 1
    ensures EncodeFields(fields, dim, parseFloat, lineNo).Ok?
      <==> |fields| == 1 + dim && forall i :: 1 <= i <= dim ==> parseFloat(fields[i]).Some?
    ensures EncodeFields(fields, dim, parseFloat, lineNo).Ok? ==>
        var rec := EncodeFields(fields, dim, parseFloat, lineNo).value;
        && dim >= 0
        && rec.key == fields[0]
        && |rec.value| == 4 * dim
        && forall i :: 1 <= i <= dim ==>
             rec.value[4 * (i - 1)..4 * i] == Float32Bytes(parseFloat(fields[i]).value)[..4]
  {
    if |fields| == 1 + dim {
      var texts := fields[1..];
      ParseValuesMeaning(texts, parseFloat);
      match ParseValues(texts, parseFloat)
      case Err(e) =>
        assert texts[e] == fields[e + 1];
      case Ok(values) =>
        forall i | 1 <= i <= dim
          ensures parseFloat(fields[i]) == Some(values[i - 1])
          ensures Pack(values)[4 * (i - 1)..4 * i] == Float32Bytes(parseFloat(fields[i]).value)[..4]
        {
          assert texts[i - 1] == fields[i];
          PackAt(values, i - 1);
        }
    }
  }

  /**
   * Why a data line stops the run: a field count other than `1 + dim`, or
   * else the first vector field `i` that does not parse.
   */
  lemma EncodeFieldsFails(fields: seq<string>, dim: int, parseFloat: string -> Option<Float32>, lineNo: nat, i: nat)
    requires |fields| >= 1
    ensures |fields| != 1 + dim ==> EncodeFields(fields, dim, parseFloat, lineNo) == Err(FieldCount(lineNo, |fields|))
    ensures && |fields| == 1 + dim && 1 <= i <= dim && parseFloat(fields[i]).None?
            && (forall j :: 1 <= j < i ==> parseFloat(fields[j]).Some?)
            ==> EncodeFields(fields, dim, parseFloat, lineNo) == Err(BadValue(lineNo, i))
  {
    if |fields| == 1 + dim && 1 <= i <= dim {
      var texts := fields[1..];
      ParseValuesMeaning(texts, parseFloat);
      assert forall j :: 1 <= j <= dim ==> fields[j] == texts[j - 1];
    }
  }

  /**
   * Every record of the database after the data lines is either one that
   * was there before and was not overwritten, or the record of some data line.
   */
  lemma {:induction false} IngestDataStored(lines: seq<string>, lineNo: nat, dim: int,
                                            parseFloat: string -> Option<Float32>, db: map<string, seq<Byte>>, k: string)
    requires k in IngestData(lines, lineNo, dim, parseFloat, db).db
    ensures var out := IngestData(lines, lineNo, dim, parseFloat, db).db;
      || (k in db && out[k] == db[k])
      || exists j :: 0 <= j < |lines| && EncodeLine(lines[j], dim, parseFloat, lineNo + j) == Ok(Record(k, out[k]))
    decreases |lines|
  {
    if lines != [] {
      var out := IngestData(lines, lineNo, dim, parseFloat, db).db;
      match EncodeLine(lines[0], dim, parseFloat, lineNo)
      case Err(_) =>
      case Ok(rec) =>
        var db' := db[rec.key := rec.value];
        IngestDataStored(lines[1..], lineNo + 1, dim, parseFloat, db', k);
        if k in db' && out[k] == db'[k] {
          if k == rec.key {
            assert EncodeLine(lines[0], dim, parseFloat, lineNo + 0) == Ok(Record(k, out[k]));
          }
        } else {
          var j :| 0 <= j < |lines[1..]| && EncodeLine(lines[1..][j], dim, parseFloat, lineNo + 1 + j) == Ok(Record(k, out[k]));
          assert EncodeLine(lines[j + 1], dim, parseFloat, lineNo + (j + 1)) == Ok(Record(k, out[k]));
        }
    }
  }

  /** Data line `m` (numbered `lineNo + m`) encodes to a record. */
  predicate Encodes(lines: seq<string>, lineNo: nat, dim: int, parseFloat: string -> Option<Float32>, m: nat)
    requires m < |lines|
  {
    EncodeLine(lines[m], dim, parseFloat, lineNo + m).Ok?
  }

  /** Dropping the first line renumbers the rest. */
  lemma EncodesShift(lines: seq<string>, lineNo: nat, dim: int, parseFloat: string -> Option<Float32>, m: nat)
    requires m + 1 < |lines|
    ensures Encodes(lines[1..], lineNo + 1, dim, parseFloat, m) == Encodes(lines, lineNo, dim, parseFloat, m + 1)
  {
    assert lines[1..][m] == lines[m + 1];
    assert lineNo + 1 + m == lineNo + (m + 1);
  }

  /** Data line `m` (numbered `lineNo + m`) encodes to a record under key `k`. */
  predicate Puts(lines: seq<string>, lineNo: nat, dim: int, parseFloat: string -> Option<Float32>, m: nat, k: string)
    requires m < |lines|
  {
    var r := EncodeLine(lines[m], dim, parseFloat, lineNo + m);
    r.Ok? && r.value.key == k
  }

  /** Dropping the first line renumbers the rest. */
  lemma PutsShift(lines: seq<string>, lineNo: nat, dim: int, parseFloat: string -> Option<Float32>, m: nat, k: string)
    requires m + 1 < |lines|
    ensures Puts(lines[1..], lineNo + 1, dim, parseFloat, m, k) == Puts(lines, lineNo, dim, parseFloat, m + 1, k)
  {
    assert lines[1..][m] == lines[m + 1];
    assert lineNo + 1 + m == lineNo + (m + 1);
  }

  /**
   * A key that no line from here on puts keeps its value: `db.Put` writes
   * only under the key of the line it stores.
   */
  lemma {:induction false} IngestDataUntouched(lines: seq<string>, lineNo: nat, dim: int,
                                               parseFloat: string -> Option<Float32>, db: map<string, seq<Byte>>, k: string)
    requires k in db
    requires forall m :: 0 <= m < |lines| ==> !Puts(lines, lineNo, dim, parseFloat, m, k)
    ensures var out := IngestData(lines, lineNo, dim, parseFloat, db).db;
      k in out && out[k] == db[k]
    decreases |lines|
  {
    if lines != [] {
      assert !Puts(lines, lineNo, dim, parseFloat, 0, k);
      match EncodeLine(lines[0], dim, parseFloat, lineNo)
      case Err(_) =>
      case Ok(rec) =>
        var rest, next := lines[1..], lineNo + 1;
        forall m | 0 <= m < |rest|
          ensures !Puts(rest, next, dim, parseFloat, m, k)
        {
          PutsShift(lines, lineNo, dim, parseFloat, m, k);
        }
        IngestDataUntouched(rest, next, dim, parseFloat, db[rec.key := rec.value], k);
    }
  }

  /** The first line's record survives when no later line puts its key. */
  lemma IngestDataFirstWrite(lines: seq<string>, lineNo: nat, dim: int,
                             parseFloat: string -> Option<Float32>, db: map<string, seq<Byte>>, k: string, v: seq<Byte>)
    requires |lines| > 0 && EncodeLine(lines[0], dim, parseFloat, lineNo) == Ok(Record(k, v))
    requires forall m :: 0 < m < |lines| ==> !Puts(lines, lineNo, dim, parseFloat, m, k)
    ensures var out := IngestData(lines, lineNo, dim, parseFloat, db).db;
      k in out && out[k] == v
  {
    var rest, next := lines[1..], lineNo + 1;
    forall m | 0 <= m < |rest|
      ensures !Puts(rest, next, dim, parseFloat, m, k)
    {
      PutsShift(lines, lineNo, dim, parseFloat, m, k);
    }
    IngestDataUntouched(rest, next, dim, parseFloat, db[k := v], k);
  }

  /**
   * Line 63, the converse of `IngestDataStored`: a data line reached by the
   * run (every line up to it encodes) is stored under its first field, and
   * keeps its record unless a later line puts the same key.
   */
  lemma {:induction false} IngestDataLastWrite(lines: seq<string>, lineNo: nat, dim: int,
                                               parseFloat: string -> Option<Float32>, db: map<string, seq<Byte>>,
                                               j: nat, k: string, v: seq<Byte>)
    requires j < |lines| && EncodeLine(lines[j], dim, parseFloat, lineNo + j) == Ok(Record(k, v))
    requires forall m :: 0 <= m < j ==> Encodes(lines, lineNo, dim, parseFloat, m)
    requires forall m :: j < m < |lines| ==> !Puts(lines, lineNo, dim, parseFloat, m, k)
    ensures var out := IngestData(lines, lineNo, dim, parseFloat, db).db;
      k in out && out[k] == v
    decreases j
  {
    if j == 0 {
      assert lineNo + 0 == lineNo;
      IngestDataFirstWrite(lines, lineNo, dim, parseFloat, db, k, v);
    } else {
      assert Encodes(lines, lineNo, dim, parseFloat, 0);
      assert lineNo + 0 == lineNo;
      var rec0 := EncodeLine(lines[0], dim, parseFloat, lineNo).value;
      var rest, next := lines[1..], lineNo + 1;
      assert IngestData(lines, lineNo, dim, parseFloat, db)
          == IngestData(rest, next, dim, parseFloat, db[rec0.key := rec0.value]);
      forall m | j - 1 < m < |rest|
        ensures !Puts(rest, next, dim, parseFloat, m, k)
      {
        PutsShift(lines, lineNo, dim, parseFloat, m, k);
      }
      forall m | 0 <= m < j - 1
        ensures Encodes(rest, next, dim, parseFloat, m)
      {
        EncodesShift(lines, lineNo, dim, parseFloat, m);
      }
      assert rest[j - 1] == lines[j] && next + (j - 1) == lineNo + j;
      IngestDataLastWrite(rest, next, dim, parseFloat, db[rec0.key := rec0.value], j - 1, k, v);
    }
  }


  /**
   * The run over the data lines stops at the first line that does not
   * encode: the database then holds exactly what the lines before it put,
   * and nothing of that line.
   */
  lemma {:induction false} IngestDataStops(lines: seq<string>, lineNo: nat, dim: int,
                                           parseFloat: string -> Option<Float32>, db: map<string, seq<Byte>>, j: nat)
    requires j < |lines| && EncodeLine(lines[j], dim, parseFloat, lineNo + j).Err?
    requires forall m :: 0 <= m < j ==> Encodes(lines, lineNo, dim, parseFloat, m)
    ensures IngestData(lines[..j], lineNo, dim, parseFloat, db).error == None
    ensures IngestData(lines, lineNo, dim, parseFloat, db)
         == Outcome(IngestData(lines[..j], lineNo, dim, parseFloat, db).db,
                    Some(EncodeLine(lines[j], dim, parseFloat, lineNo + j).error))
    decreases j
  {
    if j > 0 {
      assert Encodes(lines, lineNo, dim, parseFloat, 0);
      var rec := EncodeLine(lines[0], dim, parseFloat, lineNo + 0).value;
      var rest, next := lines[1..], lineNo + 1;
      forall m | 0 <= m < j - 1
        ensures Encodes(rest, next, dim, parseFloat, m)
      {
        EncodesShift(lines, lineNo, dim, parseFloat, m);
      }
      assert rest[j - 1] == lines[j];
      IngestDataStops(rest, next, dim, parseFloat, db[rec.key := rec.value], j - 1);
      assert lines[..j][1..] == rest[..j - 1];
    }
  }

  /** The run over the data lines ends without error exactly when every line encodes. */
  lemma {:induction false} IngestDataCompletes(lines: seq<string>, lineNo: nat, dim: int,
                                               parseFloat: string -> Option<Float32>, db: map<string, seq<Byte>>)
    ensures IngestData(lines, lineNo, dim, parseFloat, db).error == None
        <==> forall m :: 0 <= m < |lines| ==> Encodes(lines, lineNo, dim, parseFloat, m)
    decreases |lines|
  {
    if lines != [] {
      var rest := lines[1..];
      assert lineNo + 0 == lineNo;
      match EncodeLine(lines[0], dim, parseFloat, lineNo)
      case Err(_) =>
        assert !Encodes(lines, lineNo, dim, parseFloat, 0);
      case Ok(rec) =>
        assert Encodes(lines, lineNo, dim, parseFloat, 0);
        var next := lineNo + 1;
        IngestDataCompletes(rest, next, dim, parseFloat, db[rec.key := rec.value]);
        forall m | 1 <= m < |lines|
          ensures Encodes(lines, lineNo, dim, parseFloat, m) == Encodes(rest, next, dim, parseFloat, m - 1)
        {
          EncodesShift(lines, lineNo, dim, parseFloat, m - 1);
        }
        forall m | 0 <= m < |rest|
          ensures Encodes(rest, next, dim, parseFloat, m) == Encodes(lines, lineNo, dim, parseFloat, m + 1)
        {
          EncodesShift(lines, lineNo, dim, parseFloat, m);
        }
    }
  }

  /**
   * A whole run: a header that does not parse stops it with the database
   * untouched; otherwise line 1 only sets `dim` and is never stored, and every
   * stored record not present before comes from a data line (1-based line
   * `j + 1`) packed with that `dim`.
   */
  lemma IngestHeaderNotStored(lines: seq<string>, db0: map<string, seq<Byte>>,
                              parseInt: string -> Option<int>, parseFloat: string -> Option<Float32>, k: string)
    requires |lines| >= 1
    ensures ParseHeader(lines[0], parseInt).Err? ==>
      Ingest(lines, db0, parseInt, parseFloat) == Outcome(db0, Some(ParseHeader(lines[0], parseInt).error))
    ensures ParseHeader(lines[0], parseInt).Ok? && k in Ingest(lines, db0, parseInt, parseFloat).db ==>
      var out := Ingest(lines, db0, parseInt, parseFloat).db;
      var dim := ParseHeader(lines[0], parseInt).value.1;
      || (k in db0 && out[k] == db0[k])
      || exists j :: 1 <= j < |lines| && EncodeLine(lines[j], dim, parseFloat, j + 1) == Ok(Record(k, out[k]))
  {
    if ParseHeader(lines[0], parseInt).Ok? && k in Ingest(lines, db0, parseInt, parseFloat).db {
      var out := Ingest(lines, db0, parseInt, parseFloat).db;
      var dim := ParseHeader(lines[0], parseInt).value.1;
      IngestDataStored(lines[1..], 2, dim, parseFloat, db0, k);
      if !(k in db0 && out[k] == db0[k]) {
        var j :| 0 <= j < |lines[1..]| && EncodeLine(lines[1..][j], dim, parseFloat, 2 + j) == Ok(Record(k, out[k]));
        assert EncodeLine(lines[j + 1], dim, parseFloat, (j + 1) + 1) == Ok(Record(k, out[k]));
      }
    }
  }
}
