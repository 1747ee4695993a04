/**
 * The in-memory part of the season-stats loader: the cleanup applied to every
 * CSV row, and the wrapping of rows into bulk documents split into chunks.
 *
 * Reading the CSV, recreating the index and the bulk requests themselves are
 * I/O against the store; a CSV row arrives here as a column-name to cell map.
 */
module UploadToEs {
  import opened Wrappers

  /** One CSV row: column name to cell text. A missing cell is the empty string. */
  type Row = map<string, string>

  /** The index every document is written to. */
  const SeasonStats := "season_stats"
  /** Number of documents per bulk request. */
  const ChunkSize := 2000

  /** The unlabelled first column, the identifier it becomes, and the two
      placeholder columns the loader deletes. */
  const Unnamed := ""
  const CsvId := "csv_id"
  const Blank1 := "blanl"
  const Blank2 := "blank2"

  // ---------------------------------------------------------------------------
  // Row cleanup

  /** What the cleanup does to one row: copy the unlabelled column to `csv_id`
      and delete it, delete the two placeholder columns (each deletion raises
      when its column is missing), then drop every column whose cell is empty. */
  function Cleaned(row: Row): (r: Result<Row, KeyError>)
    ensures r.Failure? <==> !(Unnamed in row && Blank1 in row && Blank2 in row)
    ensures r.Failure? ==>
      r.error == KeyError(if Unnamed !in row then Unnamed else if Blank1 !in row then Blank1 else Blank2)
    ensures r.Success? ==> Unnamed !in r.value && Blank1 !in r.value && Blank2 !in r.value
    ensures r.Success? ==> (CsvId in r.value <==> row[Unnamed] != "")
    ensures r.Success? && CsvId in r.value ==> r.value[CsvId] == row[Unnamed]
    ensures r.Success? ==> forall k :: k in r.value ==> r.value[k] != ""
    ensures r.Success? ==> r.value.Keys <= (row.Keys - {Unnamed, Blank1, Blank2}) + {CsvId}
    ensures r.Success? ==> forall k :: k in r.value && k != CsvId ==> r.value[k] == row[k]
    ensures r.Success? ==> forall k ::
      k in row && k !in {Unnamed, Blank1, Blank2, CsvId} && row[k] != "" ==> k in r.value
  {
    if Unnamed !in row then Failure(KeyError(Unnamed))
    else
      var renamed := row[CsvId := row[Unnamed]] - {Unnamed};
      if Blank1 !in renamed then Failure(KeyError(Blank1))
      else if Blank2 !in renamed then Failure(KeyError(Blank2))
      else
        var kept := renamed - {Blank1, Blank2};
        Success(map k | k in kept && kept[k] != "" :: kept[k])
  }

  /** The cleanup as the loader runs it on one row, step by step: the empty
      columns are first collected into a list, then deleted one by one. */
  method CleanRow(row: Row) returns (res: Result<Row, KeyError>)
    ensures res == Cleaned(row)
  {
    if Unnamed !in row {
      return Failure(KeyError(Unnamed));
    }
    var r := row[CsvId := row[Unnamed]];
    r := r - {Unnamed};
    if Blank1 !in r {
      return Failure(KeyError(Blank1));
    }
    r := r - {Blank1};
    if Blank2 !in r {
      return Failure(KeyError(Blank2));
    }
    r := r - {Blank2};
    ghost var kept := r;

    var toRemove: seq<string> := [];
    var pending := r.Keys;
    while pending != {}
      invariant pending <= kept.Keys && r == kept
      invariant forall i :: 0 <= i < |toRemove| ==> toRemove[i] in kept && kept[toRemove[i]] == ""
      invariant forall k :: k in kept && k !in pending && kept[k] == "" ==> k in toRemove
      decreases pending
    {
      var k :| k in pending;
      if r[k] == "" {
        toRemove := toRemove + [k];
      }
      pending := pending - {k};
    }

    for i := 0 to |toRemove|
      invariant r.Keys == kept.Keys - (set j | 0 <= j < i :: toRemove[j])
      invariant forall k :: k in r ==> r[k] == kept[k]
    {
      r := r - {toRemove[i]};
    }
    forall k | k in kept
      ensures k in r <==> kept[k] != ""
    {
      if kept[k] == "" {
        assert k in toRemove;
        var j :| 0 <= j < |toRemove| && toRemove[j] == k;
      }
    }
    assert r == map k | k in kept && kept[k] != "" :: kept[k];
    assert kept == row[CsvId := row[Unnamed]] - {Unnamed} - {Blank1, Blank2};
    res := Success(r);
  }

  /** The first row of `rows` whose cleanup raises, if any. */
  predicate FirstBadRow(rows: seq<Row>, i: int) {
    0 <= i < |rows| && Cleaned(rows[i]).Failure? &&
    forall j :: 0 <= j < i ==> Cleaned(rows[j]).Success?
  }

  /** The read loop of the loader: clean every row in file order, stopping at
      the first row whose cleanup raises. */
  method CleanRows(rows: seq<Row>) returns (res: Result<seq<Row>, KeyError>)
    ensures res.Success? <==> forall i :: 0 <= i < |rows| ==> Cleaned(rows[i]).Success?
    ensures res.Success? ==> |res.value| == |rows|
    ensures res.Success? ==> forall i :: 0 <= i < |rows| ==> Cleaned(rows[i]) == Success(res.value[i])
    ensures res.Failure? ==> exists i :: FirstBadRow(rows, i) && Cleaned(rows[i]) == Failure(res.error)
  {
    var items: seq<Row> := [];
    for i := 0 to |rows|
      invariant |items| == i
      invariant forall j :: 0 <= j < i ==> Cleaned(rows[j]) == Success(items[j])
    {
      var item := CleanRow(rows[i]);
      if item.Failure? {
        assert FirstBadRow(rows, i);
        return Failure(item.error);
      }
      items := items + [item.value];
    }
    res := Success(items);
  }

  // ---------------------------------------------------------------------------
  // Chunking

  function Min(a: int, b: int): (m: int)
    ensures m <= a && m <= b && (m == a || m == b)
  {
    if a <= b then a else b
  }

  /** The number of chunks of `size` that `n` items make: n / size rounded up. */
  function NumChunks(n: nat, size: nat): (k: nat)
    requires size > 0
    ensures n > 0 ==> k > 0
  {
    (n + size - 1) / size
  }

  /** `NumChunks` is the least number of chunks of `size` that hold `n` items. */
  lemma NumChunksIsCeiling(n: nat, size: nat)
    requires size > 0
    ensures NumChunks(n, size) * size >= n
    ensures n > 0 ==> (NumChunks(n, size) - 1) * size < n
    ensures n == 0 ==> NumChunks(n, size) == 0
  {
    var q := NumChunks(n, size);
    var rem := (n + size - 1) % size;
    assert q * size + rem == n + size - 1;
  }

  /** Chunk `j` starts inside the list. */
  lemma ChunkStartInRange(n: nat, size: nat, j: nat)
    requires size > 0 && j < NumChunks(n, size)
    ensures j * size < n
  {
    NumChunksIsCeiling(n, size);
    var q := NumChunks(n, size);
    assert j <= q - 1;
    assert j * size <= (q - 1) * size by {
      MulMonotone(j, q - 1, size);
    }
  }

  lemma MulMonotone(a: nat, b: nat, c: nat)
    requires a <= b
    ensures a * c <= b * c
  {
  }

  /** `docs[j*size : j*size + size]`, with Python's clamping of the end. */
  function Chunk<T>(xs: seq<T>, size: nat, j: nat): (c: seq<T>)
    requires size > 0 && j < NumChunks(|xs|, size)
    ensures 0 < |c| <= size
  {
    ChunkStartInRange(|xs|, size, j);
    xs[j * size .. Min(j * size + size, |xs|)]
  }

  /** `[docs[i:i + size] for i in range(0, len(docs), size)]`. */
  function Chunks<T>(xs: seq<T>, size: nat): (r: seq<seq<T>>)
    requires size > 0
    ensures |r| == NumChunks(|xs|, size)
  {
    seq(NumChunks(|xs|, size), j requires 0 <= j < NumChunks(|xs|, size) => Chunk(xs, size, j))
  }

  /** The lists of `xss` joined end to end. */
  function Concat<T>(xss: seq<seq<T>>): (r: seq<T>) {
    if xss == [] then [] else xss[0] + Concat(xss[1..])
  }

  /** Every chunk is non-empty and at most `size` long, and every chunk but the
      last is exactly `size` long. */
  lemma ChunkLengths<T>(xs: seq<T>, size: nat)
    requires size > 0
    ensures forall j :: 0 <= j < |Chunks(xs, size)| ==> 0 < |Chunks(xs, size)[j]| <= size
    ensures forall j :: 0 <= j < |Chunks(xs, size)| - 1 ==> |Chunks(xs, size)[j]| == size
  {
    var cs := Chunks(xs, size);
    forall j | 0 <= j < |cs|
      ensures 0 < |cs[j]| <= size
      ensures j < |cs| - 1 ==> |cs[j]| == size
    {
      ChunkStartInRange(|xs|, size, j);
      if j < |cs| - 1 {
        ChunkStartInRange(|xs|, size, j + 1);
        assert (j + 1) * size == j * size + size;
      }
    }
  }

  /** Integer division is determined by a quotient and a remainder in range. */
  lemma DivUnique(x: nat, d: nat, q: nat, rem: nat)
    requires d > 0 && x == q * d + rem && rem < d
    ensures x / d == q
  {
    var q', rem' := x / d, x % d;
    assert x == q' * d + rem';
    if q' < q {
      MulMonotone(q' + 1, q, d);
      assert false;
    } else if q < q' {
      MulMonotone(q + 1, q', d);
      assert false;
    }
  }

  /** A list longer than `size` has one chunk more than its tail after `size` items. */
  lemma NumChunksStep(n: nat, size: nat)
    requires size > 0 && n > size
    ensures NumChunks(n, size) == NumChunks(n - size, size) + 1
  {
    var a := n - size + size - 1;
    var q, rem := a / size, a % size;
    assert a == q * size + rem;
    assert n + size - 1 == (q + 1) * size + rem;
    DivUnique(n + size - 1, size, q + 1, rem);
  }

  /** The bounds of chunk `j + 1` of a list are those of chunk `j` of its tail,
      shifted by `size`. */
  lemma ChunkShiftBounds(n: nat, size: nat, j: nat)
    requires size > 0 && n > size && j < NumChunks(n - size, size)
    ensures j + 1 < NumChunks(n, size)
    ensures j * size < n - size
    ensures (j + 1) * size == size + j * size
    ensures Min((j + 1) * size + size, n) == size + Min(j * size + size, n - size)
  {
    NumChunksStep(n, size);
    ChunkStartInRange(n - size, size, j);
  }

  /** Past the first chunk, the chunks of a list are those of its tail after `size` items. */
  lemma ChunkShift<T>(xs: seq<T>, size: nat, j: nat)
    requires size > 0 && |xs| > size && j < NumChunks(|xs| - size, size)
    ensures j + 1 < NumChunks(|xs|, size)
    ensures Chunk(xs, size, j + 1) == Chunk(xs[size..], size, j)
  {
    ChunkShiftBounds(|xs|, size, j);
    var a := j * size;
    var hi := Min(a + size, |xs| - size);
    assert Chunk(xs, size, j + 1) == xs[size + a .. size + hi];
    assert Chunk(xs[size..], size, j) == xs[size..][a .. hi];
  }

  /** The chunks of a non-empty list: its first `size` items, then the chunks of the rest. */
  lemma ChunksUnfold<T>(xs: seq<T>, size: nat)
    requires size > 0 && |xs| > 0
    ensures Chunks(xs, size) == [xs[..Min(size, |xs|)]] + Chunks(xs[Min(size, |xs|)..], size)
  {
    var m := Min(size, |xs|);
    var cs, rs := Chunks(xs, size), Chunks(xs[m..], size);
    if |xs| <= size {
      DivUnique(|xs| + size - 1, size, 1, |xs| - 1);
      DivUnique(size - 1, size, 0, size - 1);
      assert |rs| == 0;
      assert |cs| == 1;
    } else {
      NumChunksStep(|xs|, size);
      forall j | 0 <= j < |rs|
        ensures cs[j + 1] == rs[j]
      {
        ChunkShift(xs, size, j);
      }
    }
    assert cs[0] == xs[..m];
    assert cs == [xs[..m]] + rs;
  }

  /** Joining the chunks gives back exactly the list that was chunked. */
  lemma {:induction false} ChunksConcat<T>(xs: seq<T>, size: nat)
    requires size > 0
    ensures Concat(Chunks(xs, size)) == xs
    decreases |xs|
  {
    if |xs| == 0 {
      NumChunksIsCeiling(0, size);
    } else {
      var m := Min(size, |xs|);
      ChunksUnfold(xs, size);
      ChunksConcat(xs[m..], size);
      var cs := Chunks(xs, size);
      assert cs[1..] == Chunks(xs[m..], size);
      assert Concat(cs) == xs[..m] + xs[m..];
    }
  }

  // ---------------------------------------------------------------------------
  // Bulk documents

  /** A bulk document: target index, identifier and the row itself as source. */
  datatype Doc = Doc(index: string, id: string, source: Row)

  /** What `write` hands over: the chunks sent as bulk requests in order, the
      size reported for each, and the total reported as written. */
  datatype Upload = Upload(chunks: seq<seq<Doc>>, reported: seq<nat>, written: nat)

  /** Builds one document per item, keyed by its `csv_id` (raising at the first
      item without one), splits the documents into chunks of `ChunkSize`, and
      reports each chunk's size and the total. */
  method Write(items: seq<Row>) returns (res: Result<Upload, KeyError>)
    ensures res.Success? <==> forall i :: 0 <= i < |items| ==> CsvId in items[i]
    ensures res.Failure? ==> res.error == KeyError(CsvId)
    ensures res.Success? ==> |Concat(res.value.chunks)| == |items|
    ensures res.Success? ==> forall i :: 0 <= i < |items| ==>
      Concat(res.value.chunks)[i] == Doc(SeasonStats, items[i][CsvId], items[i])
    ensures res.Success? ==> |res.value.chunks| == NumChunks(|items|, ChunkSize)
    ensures res.Success? ==> forall j :: 0 <= j < |res.value.chunks| ==>
      0 < |res.value.chunks[j]| <= ChunkSize
    ensures res.Success? ==> forall j :: 0 <= j < |res.value.chunks| - 1 ==>
      |res.value.chunks[j]| == ChunkSize
    ensures res.Success? ==> |res.value.reported| == |res.value.chunks|
    ensures res.Success? ==> forall j :: 0 <= j < |res.value.chunks| ==>
      res.value.reported[j] == |res.value.chunks[j]|
    ensures res.Success? ==> res.value.written == |items|
  {
    var docs: seq<Doc> := [];
    for i := 0 to |items|
      invariant |docs| == i
      invariant forall j :: 0 <= j < i ==>
        CsvId in items[j] && docs[j] == Doc(SeasonStats, items[j][CsvId], items[j])
    {
      var item := items[i];
      if CsvId !in item {
        return Failure(KeyError(CsvId));
      }
      docs := docs + [Doc(SeasonStats, item[CsvId], item)];
    }
    var chunks := Chunks(docs, ChunkSize);
    var reported: seq<nat> := [];
    for k := 0 to |chunks|
      invariant |reported| == k
      invariant forall j :: 0 <= j < k ==> reported[j] == |chunks[j]|
    {
      reported := reported + [|chunks[k]|];
    }
    ChunksConcat(docs, ChunkSize);
    ChunkLengths(docs, ChunkSize);
    res := Success(Upload(chunks, reported, |docs|));
  }

  /** The loader without its I/O: clean every row, then write the items. */
  method Load(rows: seq<Row>) returns (res: Result<Upload, KeyError>)
    ensures res.Success? <==>
      forall i :: 0 <= i < |rows| ==> Cleaned(rows[i]).Success? && rows[i][Unnamed] != ""
    ensures res.Success? ==> |Concat(res.value.chunks)| == |rows| && res.value.written == |rows|
    ensures res.Success? ==> forall i :: 0 <= i < |rows| ==>
      Cleaned(rows[i]).Success? &&
      Concat(res.value.chunks)[i] == Doc(SeasonStats, rows[i][Unnamed], Cleaned(rows[i]).value)
    ensures res.Success? ==> |res.value.chunks| == NumChunks(|rows|, ChunkSize)
    ensures res.Failure? ==>
      (exists i :: FirstBadRow(rows, i) && Cleaned(rows[i]) == Failure(res.error)) ||
      ((forall i :: 0 <= i < |rows| ==> Cleaned(rows[i]).Success?) && res.error == KeyError(CsvId))
  {
    var items := CleanRows(rows);
    if items.Failure? {
      return Failure(items.error);
    }
    res := Write(items.value);
  }
}
