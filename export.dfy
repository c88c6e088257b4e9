/**
  The embedding export of app/save_embeddings.py.

  The exporter walks every item of the `linkedin_jobs` collection together with
  its vector, appends a (job_id, embedding) row for each to an in-memory table,
  and every `batch_size` rows writes the table to a numbered Parquet part-file
  and starts an empty one; after the last item it writes what is left.

  The service's iterator is the sequence `items`; the Parquet writes are the
  returned log of part-files, in the order they are written. Vectors are only
  carried, so their elements are of an arbitrary type E.
*/
module Export {
  import opened Chunking
  import opened Strings
  import opened Weaviate

  /** batch_size: the number of rows per full part-file. */
  const BatchSize: nat := 50000

  /** The value file_path starts from. */
  const PathPrefix: string := "data/linkedin-job-embeddings"

  /** One row of the exported table: columns job_id and embedding. */
  datatype Row<P, E> = Row(jobId: P, embedding: seq<E>)

  /** A Parquet file written by to_parquet: its path and its rows. */
  datatype PartFile<P, E> = PartFile(path: string, rows: seq<Row<P, E>>)

  /** item.properties["job_id"] and item.vector["default"] both exist (otherwise a KeyError). */
  predicate HasRow<P, E>(item: Item<P, E>)
  {
    "job_id" in item.properties && "default" in item.vector
  }

  /** The row the exporter makes of an item. */
  function RowOf<P, E>(item: Item<P, E>): Row<P, E>
    requires HasRow(item)
  {
    Row(item.properties["job_id"], item.vector["default"])
  }

  /** The rows of a sequence of items, one per item, in order. */
  function Rows<P, E>(items: seq<Item<P, E>>): seq<Row<P, E>>
    requires forall k :: 0 <= k < |items| ==> HasRow(items[k])
  {
    seq(|items|, k requires 0 <= k < |items| && HasRow(items[k]) => RowOf(items[k]))
  }

  /**
    The path of the k-th part-file. file_path is rebuilt from its own previous
    value, so the suffixes pile up: prefix + "_1.parquet" + ... + "_k.parquet".
  */
  function PartPath(k: nat): string
  {
    if k == 0 then PathPrefix else PartPath(k - 1) + "_" + Decimal(k) + ".parquet"
  }

  /** Writes the chunks of rows in order, the k-th of them (from 1) to PartPath(k). */
  function Label<P, E>(chunks: seq<seq<Row<P, E>>>): seq<PartFile<P, E>>
  {
    if chunks == [] then []
    else Label(chunks[..|chunks| - 1]) + [PartFile(PartPath(|chunks|), chunks[|chunks| - 1])]
  }

  /** The j-th file written (from 0) holds the j-th chunk under part number j + 1. */
  lemma {:induction false} LabelAt<P, E>(chunks: seq<seq<Row<P, E>>>)
    ensures |Label(chunks)| == |chunks|
    ensures forall j :: 0 <= j < |chunks| ==> Label(chunks)[j] == PartFile(PartPath(j + 1), chunks[j])
  {
    if chunks != [] {
      var init := chunks[..|chunks| - 1];
      LabelAt(init);
      var l := Label(chunks);
      assert l == Label(init) + [PartFile(PartPath(|chunks|), chunks[|chunks| - 1])];
      forall j | 0 <= j < |chunks|
        ensures l[j] == PartFile(PartPath(j + 1), chunks[j])
      {
        if j < |init| {
          assert l[j] == Label(init)[j];
        }
      }
    }
  }

  /** The rows of each file, in write order. */
  function Contents<P, E>(files: seq<PartFile<P, E>>): seq<seq<Row<P, E>>>
  {
    seq(|files|, j requires 0 <= j < |files| => files[j].rows)
  }

  /** The index of the first item without a job_id property or a default vector, or |items|. */
  function FirstMissing<P, E>(items: seq<Item<P, E>>): (f: nat)
    ensures f <= |items|
    ensures forall k :: 0 <= k < f ==> HasRow(items[k])
    ensures f < |items| ==> !HasRow(items[f])
  {
    if items == [] || !HasRow(items[0]) then 0 else 1 + FirstMissing(items[1..])
  }

  lemma LabelAppend<P, E>(cs: seq<seq<Row<P, E>>>, t: seq<Row<P, E>>)
    ensures Label(cs + [t]) == Label(cs) + [PartFile(PartPath(|cs| + 1), t)]
  {
    var x := cs + [t];
    assert x != [] && x[..|x| - 1] == cs && x[|x| - 1] == t && |x| == |cs| + 1;
  }

  lemma RowsSnoc<P, E>(items: seq<Item<P, E>>, i: nat)
    requires i < |items| && forall k :: 0 <= k <= i ==> HasRow(items[k])
    ensures Rows(items[..i + 1]) == Rows(items[..i]) + [RowOf(items[i])]
  {
  }

  /**
    The export loop. With every item carrying its keys, the files written are
    the batch-size chunks of the rows, the k-th named PartPath(k). When an item
    lacks a key the KeyError ends the run: the full batches flushed before it
    stay written and the partial table is lost.
  */
  method ExportEmbeddings<P, E>(items: seq<Item<P, E>>, batchSize: nat)
    returns (written: seq<PartFile<P, E>>, completed: bool)
    requires batchSize > 0
    ensures completed <==> forall k :: 0 <= k < |items| ==> HasRow(items[k])
    ensures completed ==> written == Label(Chunks(Rows(items), batchSize))
    ensures !completed ==>
      var f := FirstMissing(items);
      && |written| * batchSize <= f < (|written| + 1) * batchSize
      && written == Label(Chunks(Rows(items[..f])[..|written| * batchSize], batchSize))
  {
    var filePath := PathPrefix;
    var dfAll: seq<Row<P, E>> := [];
    var partNumber := 1;
    var rowsInBatch := 0;
    written := [];
    ghost var rows: seq<Row<P, E>> := [];
    ghost var flushed := 0;
    var i := 0;
    while i < |items|
      invariant 0 <= i <= |items|
      invariant forall k :: 0 <= k < i ==> HasRow(items[k])
      invariant rows == Rows(items[..i])
      invariant flushed == |written| * batchSize && flushed + rowsInBatch == i
      invariant 0 <= rowsInBatch < batchSize
      invariant dfAll == rows[flushed..]
      invariant written == Label(Chunks(rows[..flushed], batchSize))
      invariant partNumber == |written| + 1 && filePath == PartPath(|written|)
    {
      var item := items[i];
      if !HasRow(item) {
        MulSucc(|written|, batchSize);
        Stopped(items, i, batchSize, rows, written);
        completed := false;
        return;
      }
      assert rows + [RowOf(item)] == Rows(items[..i + 1]) && (rows + [RowOf(item)])[..flushed] == rows[..flushed]
        && (rows + [RowOf(item)])[flushed..] == dfAll + [RowOf(item)] by {
        RowsSnoc(items, i);
      }
      rows := rows + [RowOf(item)];
      dfAll := dfAll + [RowOf(item)];
      rowsInBatch := rowsInBatch + 1;
      if rowsInBatch == batchSize {
        Flush(rows, |written|, batchSize, written, dfAll);
        MulSucc(|written|, batchSize);
        filePath, written := SavePart(filePath, partNumber, dfAll, written);
        dfAll := [];
        rowsInBatch := 0;
        partNumber := partNumber + 1;
        flushed := flushed + batchSize;
        assert rows[..flushed] == rows;
      }
      i := i + 1;
    }
    assert items[..i] == items;
    if rowsInBatch > 0 {
      Flush(rows, |written|, batchSize, written, dfAll);
      filePath, written := SavePart(filePath, partNumber, dfAll, written);
    } else {
      assert rows[..flushed] == rows;
    }
    completed := true;
  }

  /**
    Writing the table as the next part-file: file_path gains the suffix of the
    part number, and the table goes to the file of that name.
  */
  method SavePart<P, E>(filePath: string, partNumber: nat, table: seq<Row<P, E>>, written: seq<PartFile<P, E>>)
    returns (newPath: string, newWritten: seq<PartFile<P, E>>)
    requires partNumber == |written| + 1 && filePath == PartPath(|written|)
    ensures newPath == PartPath(partNumber)
    ensures newWritten == written + [PartFile(newPath, table)]
  {
    newPath := filePath + "_" + Decimal(partNumber) + ".parquet";
    newWritten := written + [PartFile(newPath, table)];
  }

  /** A KeyError at item i leaves the files flushed before it. */
  lemma Stopped<P, E>(items: seq<Item<P, E>>, i: nat, batchSize: nat, rows: seq<Row<P, E>>,
                      written: seq<PartFile<P, E>>)
    requires i < |items| && !HasRow(items[i]) && forall k :: 0 <= k < i ==> HasRow(items[k])
    requires batchSize > 0 && |written| * batchSize <= i < (|written| + 1) * batchSize
    requires rows == Rows(items[..i]) && written == Label(Chunks(rows[..|written| * batchSize], batchSize))
    ensures var f := FirstMissing(items);
      && |written| * batchSize <= f < (|written| + 1) * batchSize
      && written == Label(Chunks(Rows(items[..f])[..|written| * batchSize], batchSize))
  {
    assert FirstMissing(items) == i;
  }

  /**
    One flush: when the rows before the table fill |written| = n whole files,
    writing the table (1 to batchSize rows) as part n + 1 gives the files of
    all the rows.
  */
  lemma Flush<P, E>(rows: seq<Row<P, E>>, n: nat, batchSize: nat, written: seq<PartFile<P, E>>,
                    table: seq<Row<P, E>>)
    requires batchSize > 0 && n * batchSize < |rows| <= n * batchSize + batchSize
    requires written == Label(Chunks(rows[..n * batchSize], batchSize))
    requires table == rows[n * batchSize..]
    ensures |written| == n
    ensures written + [PartFile(PartPath(n + 1), table)] == Label(Chunks(rows, batchSize))
  {
    var done := rows[..n * batchSize];
    assert rows == done + table;
    ChunksAppend(done, table, batchSize, n);
    ChunksCount(done, batchSize);
    LabelAt(Chunks(done, batchSize));
    CeilDivExact(n, batchSize);
    LabelAppend(Chunks(done, batchSize), table);
  }

  /**
    Concatenating the written files in write order gives exactly the rows of
    the items, in order: the j-th row is (job_id, default vector) of the j-th
    item, and no row is dropped or duplicated.
  */
  lemma ExportKeepsEveryRow<P, E>(items: seq<Item<P, E>>, batchSize: nat)
    requires batchSize > 0 && forall k :: 0 <= k < |items| ==> HasRow(items[k])
    ensures var rows := Flatten(Contents(Label(Chunks(Rows(items), batchSize))));
      && |rows| == |items|
      && forall j :: 0 <= j < |items| ==> rows[j] == Row(items[j].properties["job_id"], items[j].vector["default"])
  {
    var cs := Chunks(Rows(items), batchSize);
    LabelAt(cs);
    assert Contents(Label(cs)) == cs;
    ChunksFlatten(Rows(items), batchSize);
  }

  /**
    For M items and batch size B the export writes ceil(M / B) files, none for
    M = 0; every file but the last holds B rows (the flushes inside the loop);
    the last holds what is left, between 1 and B rows, which is fewer than B
    exactly when the final flush after the loop writes it.
  */
  lemma ExportFileSizes<P, E>(items: seq<Item<P, E>>, batchSize: nat)
    requires batchSize > 0 && forall k :: 0 <= k < |items| ==> HasRow(items[k])
    ensures var files := Label(Chunks(Rows(items), batchSize));
      && |files| == CeilDiv(|items|, batchSize)
      && (|items| == 0 <==> files == [])
      && (forall j :: 0 <= j < |files| - 1 ==> |files[j].rows| == batchSize)
      && (|files| > 0 ==>
            1 <= |files[|files| - 1].rows| == |items| - (|files| - 1) * batchSize <= batchSize)
  {
    ChunksCount(Rows(items), batchSize);
    ChunksSizes(Rows(items), batchSize);
    LabelAt(Chunks(Rows(items), batchSize));
  }

  /**
    The part numbers of the written files are 1, 2, ..., k in write order,
    each file's path being the one before it with "_<part number>.parquet"
    appended.
  */
  lemma ExportPartNumbers<P, E>(items: seq<Item<P, E>>, batchSize: nat)
    requires batchSize > 0 && forall k :: 0 <= k < |items| ==> HasRow(items[k])
    ensures var files := Label(Chunks(Rows(items), batchSize));
      && (|files| > 0 ==> files[0].path == PathPrefix + "_1.parquet")
      && forall j :: 0 < j < |files| ==>
           files[j].path == files[j - 1].path + "_" + Decimal(j + 1) + ".parquet"
  {
    LabelAt(Chunks(Rows(items), batchSize));
  }

  /** Each part path extends every earlier one, so later names grow longer. */
  lemma {:induction false} PartPathExtends(j: nat, k: nat)
    requires j < k
    ensures |PartPath(j)| < |PartPath(k)| && PartPath(k)[..|PartPath(j)|] == PartPath(j)
    decreases k
  {
    if j < k - 1 {
      PartPathExtends(j, k - 1);
    }
    assert PartPath(k) == PartPath(k - 1) + ("_" + Decimal(k) + ".parquet");
  }

  /** Despite the piled-up suffixes no two part-files share a path, so no flush overwrites another. */
  lemma PartPathsDistinct(j: nat, k: nat)
    requires j != k
    ensures PartPath(j) != PartPath(k)
  {
    if j < k { PartPathExtends(j, k); } else { PartPathExtends(k, j); }
  }

  /** 120000 items with the script's batch size make three part-files of 50000, 50000 and 20000 rows. */
  lemma ExportScenario<P, E>(items: seq<Item<P, E>>)
    requires |items| == 120000 && forall k :: 0 <= k < |items| ==> HasRow(items[k])
    ensures var files := Label(Chunks(Rows(items), BatchSize));
      && |files| == 3
      && |files[0].rows| == 50000 && |files[1].rows| == 50000 && |files[2].rows| == 20000
  {
    ExportFileSizes(items, BatchSize);
    assert CeilDiv(120000, BatchSize) == 3 by {
      assert CeilDiv(20000, BatchSize) == 1;
      assert CeilDiv(70000, BatchSize) == 2;
    }
  }

  /** The third part-file is named with all three suffixes. */
  lemma ThirdPartPath()
    ensures PartPath(3) == PathPrefix + "_1.parquet_2.parquet_3.parquet"
  {
    var p1, p2 := PathPrefix + "_1.parquet", PathPrefix + "_1.parquet_2.parquet";
    assert PartPath(1) == p1 by {
      assert Decimal(1) == "1";
    }
    assert PartPath(2) == p2 by {
      assert Decimal(2) == "2";
      assert p1 + "_" + "2" + ".parquet" == p2;
    }
    assert Decimal(3) == "3";
    assert p2 + "_" + "3" + ".parquet" == PathPrefix + "_1.parquet_2.parquet_3.parquet";
  }
}
