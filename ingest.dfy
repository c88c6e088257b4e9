/**
  The loader of app/io.py: create or fetch the `linkedin_jobs` collection,
  download the Kaggle dataset unless it is already on disk, read the postings
  table, keep its five indexed columns, insert it in slices of 1000 records,
  then walk the collection to report what the service vectorised, and close
  the client whatever happened.

  The service is a `Weaviate.Client`; the disk is a `Disk` that only records
  which files exist and which downloads were started. What the CSV file holds,
  which files a download brings, which service call fails and what the
  service's iterator yields are arguments.
*/
module Ingest {
  import opened Wrappers
  import opened Chunking
  import opened Weaviate

  /** The name create_collection registers and fetches. */
  const CollectionName: string := "linkedin_jobs"

  /** upload_data's batch_size: records per insert_many call. */
  const UploadBatch: nat := 1000

  /** The columns upload_data keeps, in order. */
  const Fields: seq<string> := ["title", "description", "company_name", "location", "job_id"]

  /** The file read_csv opens, whatever path upload_data was given. */
  const PostingsCsv: string := "data/linkedin-job-postings/postings.csv"

  /** A table as read_csv returns it: its column names and its rows. */
  datatype Table<V> = Table(columns: seq<string>, rows: seq<map<string, V>>)

  /** Every row of a table has exactly the table's columns. */
  predicate Rectangular<V>(t: Table<V>)
  {
    forall i :: 0 <= i < |t.rows| ==> t.rows[i].Keys == set c | c in t.columns
  }

  /**
    df[cols].to_dict(orient="records"): one record per row holding the
    selected columns, or a KeyError (None) when a selected column is missing.
  */
  function Project<V>(t: Table<V>, cols: seq<string>): (r: Option<seq<map<string, V>>>)
    requires Rectangular(t)
    ensures r.None? <==> exists c :: c in cols && c !in t.columns
    ensures r.Some? ==>
      && |r.value| == |t.rows|
      && forall i :: 0 <= i < |t.rows| ==>
           r.value[i].Keys == (set c | c in cols) && forall c :: c in cols ==> r.value[i][c] == t.rows[i][c]
  {
    if forall c :: c in cols ==> c in t.columns then
      Some(seq(|t.rows|, i requires 0 <= i < |t.rows| => map c | c in cols :: t.rows[i][c]))
    else None
  }

  /**
    Every record of every slice upload_data submits has exactly the five
    indexed columns, each holding that row's value.
  */
  lemma SubmittedRecordsHaveFields<V>(t: Table<V>)
    requires Rectangular(t) && Project(t, Fields).Some?
    ensures var cs := Chunks(Project(t, Fields).value, UploadBatch);
      forall j, k :: 0 <= j < |cs| && 0 <= k < |cs[j]| ==>
        && cs[j][k].Keys == {"title", "description", "company_name", "location", "job_id"}
        && j * UploadBatch + k < |t.rows|
        && cs[j][k]["job_id"] == t.rows[j * UploadBatch + k]["job_id"]
  {
    var records := Project(t, Fields).value;
    var cs: seq<seq<map<string, V>>> := Chunks(records, UploadBatch);
    FieldNames();
    forall j, k | 0 <= j < |cs| && 0 <= k < |cs[j]|
      ensures && cs[j][k].Keys == (set c | c in Fields)
              && j * UploadBatch + k < |t.rows|
              && cs[j][k]["job_id"] == t.rows[j * UploadBatch + k]["job_id"]
    {
      SubmittedRecord(t, j, k);
    }
  }

  /** The k-th record of the j-th slice is the projection of row j*1000+k. */
  lemma SubmittedRecord<V>(t: Table<V>, j: nat, k: nat)
    requires Rectangular(t) && Project(t, Fields).Some?
    requires j < |Chunks(Project(t, Fields).value, UploadBatch)|
    requires k < |Chunks(Project(t, Fields).value, UploadBatch)[j]|
    ensures var r := Chunks(Project(t, Fields).value, UploadBatch)[j][k];
      && r.Keys == (set c | c in Fields)
      && j * UploadBatch + k < |t.rows|
      && r["job_id"] == t.rows[j * UploadBatch + k]["job_id"]
  {
    ChunksElement(Project(t, Fields).value, UploadBatch, j, k);
    RecordHasFields(t, j * UploadBatch + k);
  }

  /** The i-th projected record has exactly the five columns and row i's job_id. */
  lemma RecordHasFields<V>(t: Table<V>, i: nat)
    requires Rectangular(t) && Project(t, Fields).Some? && i < |t.rows|
    ensures Project(t, Fields).value[i].Keys == (set c | c in Fields)
    ensures Project(t, Fields).value[i]["job_id"] == t.rows[i]["job_id"]
  {
    assert "job_id" in Fields;
  }

  /** The names of the kept columns. */
  lemma FieldNames()
    ensures (set c | c in Fields) == {"title", "description", "company_name", "location", "job_id"}
  {
  }

  /** The records of each logged insert_many call, in call order. */
  function Submitted<V>(log: seq<(string, seq<map<string, V>>)>): seq<seq<map<string, V>>>
  {
    seq(|log|, j requires 0 <= j < |log| => log[j].1)
  }

  /**
    The calls a completed upload logs all go to the one collection, and their
    records, concatenated in call order, are the projected table: every row
    sent once, in order, so as many records as the table has rows.
  */
  lemma SubmittedRecordsAreTheTable<V>(t: Table<V>, name: string)
    requires Rectangular(t) && Project(t, Fields).Some?
    ensures var log := Batches(name, Chunks(Project(t, Fields).value, UploadBatch));
      && (forall j :: 0 <= j < |log| ==> log[j].0 == name)
      && Flatten(Submitted(log)) == Project(t, Fields).value
      && |Flatten(Submitted(log))| == |t.rows|
  {
    var cs := Chunks(Project(t, Fields).value, UploadBatch);
    assert Submitted(Batches(name, cs)) == cs;
    ChunksFlatten(Project(t, Fields).value, UploadBatch);
  }

  /** 2500 rows go to the service in three calls of 1000, 1000 and 500 records. */
  lemma UploadScenario<V>(records: seq<map<string, V>>)
    requires |records| == 2500
    ensures var cs := Chunks(records, UploadBatch);
      |cs| == 3 && |cs[0]| == 1000 && |cs[1]| == 1000 && |cs[2]| == 500
  {
    ChunksCount(records, UploadBatch);
    ChunksSizes(records, UploadBatch);
    assert CeilDiv(2500, UploadBatch) == 3 by {
      assert CeilDiv(500, UploadBatch) == 1;
      assert CeilDiv(1500, UploadBatch) == 2;
    }
  }

  /** The names on the cluster after create_collection: linkedin_jobs is added unless the service fails. */
  function Registry(names: set<string>, fault: bool): set<string>
  {
    if fault then names else names + {CollectionName}
  }

  /**
    Unless the service fails, the cluster holds linkedin_jobs afterwards,
    whether it was created now or already existed; no other name is added.
  */
  lemma RegistryHoldsCollection(names: set<string>, fault: bool)
    ensures names <= Registry(names, fault) && Registry(names, fault) - names <= {CollectionName}
    ensures !fault ==> CollectionName in Registry(names, fault)
    ensures CollectionName in names ==> Registry(names, fault) == names
  {
  }

  /** Running create_collection again changes nothing: the second create fails and takes the get path. */
  lemma RegistryIdempotent(names: set<string>, again: bool)
    ensures Registry(Registry(names, false), again) == Registry(names, false)
  {
  }

  /**
    create_collection: collections.create("linkedin_jobs"); on any exception
    (the name is taken, or the service fails) collections.get of the same name.
    Either way the handle names linkedin_jobs.
  */
  method CreateCollection<V>(client: Client<V>, fault: bool) returns (c: Collection)
    requires client.open
    modifies client
    ensures c.name == CollectionName
    ensures client.collections == Registry(old(client.collections), fault)
    ensures client.inserted == old(client.inserted) && client.open
  {
    var created := client.Create(CollectionName, fault);
    if created {
      c := Collection(CollectionName);
    } else {
      c := Collection(CollectionName);
    }
  }

  /** The local files, and the downloads started, by dataset path. */
  class Disk {
    var files: set<string>
    var downloads: seq<string>

    constructor (files: set<string>)
      ensures this.files == files && downloads == []
    {
      this.files := files;
      downloads := [];
    }
  }

  /** The files after download_kaggle_dataset(path), the downloader bringing fetched. */
  function AfterDownload(files: set<string>, path: string, fetched: set<string>): set<string>
  {
    if path in files then files else files + fetched
  }

  /** Once a download has brought the path itself, asking again leaves the disk as it is. */
  lemma DownloadIdempotent(files: set<string>, path: string, fetched: set<string>, again: set<string>)
    requires path in fetched
    ensures AfterDownload(AfterDownload(files, path, fetched), path, again) == AfterDownload(files, path, fetched)
  {
  }

  /**
    download_kaggle_dataset: starts the downloader exactly when path is not
    an existing file, and otherwise returns with no effect.
  */
  method DownloadKaggleDataset(disk: Disk, path: string, fetched: set<string>)
    modifies disk
    ensures disk.downloads == old(disk.downloads) + (if path in old(disk.files) then [] else [path])
    ensures disk.files == AfterDownload(old(disk.files), path, fetched)
  {
    if path !in disk.files {
      disk.downloads := disk.downloads + [path];
      disk.files := disk.files + fetched;
    } else {
      return;
    }
  }

  /** How upload_data ends. */
  datatype Upload = Uploaded | CsvMissing | ColumnMissing | InsertFailed(batch: nat)

  /** The insert_many log entries for the given slices, in order, all to one collection. */
  function Batches<V>(name: string, chunks: seq<seq<map<string, V>>>): seq<(string, seq<map<string, V>>)>
  {
    seq(|chunks|, j requires 0 <= j < |chunks| => (name, chunks[j]))
  }

  /**
    upload_data: download the dataset if needed, read the postings file (a
    FileNotFoundError when it is absent), project it to the five columns (a
    KeyError when one is missing), then one insert_many per slice, in order,
    stopping at the first call the service rejects (the failAt-th).
  */
  method UploadData<V>(client: Client<V>, c: Collection, disk: Disk, path: string, fetched: set<string>,
                       csv: Table<V>, failAt: Option<nat>) returns (r: Upload)
    requires client.open && Rectangular(csv)
    modifies client, disk
    ensures disk.downloads == old(disk.downloads) + (if path in old(disk.files) then [] else [path])
    ensures disk.files == AfterDownload(old(disk.files), path, fetched)
    ensures r == CsvMissing <==> PostingsCsv !in disk.files
    ensures r == ColumnMissing <==> PostingsCsv in disk.files && Project(csv, Fields).None?
    ensures r.Uploaded? || r.InsertFailed? ==> PostingsCsv in disk.files && Project(csv, Fields).Some?
    ensures r.CsvMissing? || r.ColumnMissing? ==> client.inserted == old(client.inserted)
    ensures r.Uploaded? ==>
      (failAt.None? || failAt.value >= |Chunks(Project(csv, Fields).value, UploadBatch)|) &&
      client.inserted == old(client.inserted) + Batches(c.name, Chunks(Project(csv, Fields).value, UploadBatch))
    ensures r.InsertFailed? ==>
      var chunks := Chunks(Project(csv, Fields).value, UploadBatch);
      failAt == Some(r.batch) && r.batch < |chunks| &&
      client.inserted == old(client.inserted) + Batches(c.name, chunks[..r.batch])
    ensures client.collections == old(client.collections) && client.open
  {
    DownloadKaggleDataset(disk, path, fetched);
    if PostingsCsv !in disk.files {
      return CsvMissing;
    }
    var projected := Project(csv, Fields);
    if projected.None? {
      return ColumnMissing;
    }
    var jobs := projected.value;
    var chunks := Chunks(jobs, UploadBatch);
    var n := 0;
    while n < |chunks|
      invariant 0 <= n <= |chunks|
      invariant failAt.Some? ==> failAt.value >= n
      invariant client.inserted == old(client.inserted) + Batches(c.name, chunks[..n])
      invariant client.collections == old(client.collections) && client.open
      modifies client
    {
      var ok := client.InsertMany(c, chunks[n], failAt == Some(n));
      if !ok {
        return InsertFailed(n);
      }
      assert chunks[..n + 1] == chunks[..n] + [chunks[n]];
      assert Batches(c.name, chunks[..n + 1]) == Batches(c.name, chunks[..n]) + [(c.name, chunks[n])];
      n := n + 1;
    }
    assert chunks[..n] == chunks;
    r := Uploaded;
  }

  /** What test_data prints, or the error that ends it. */
  datatype Test = Report(count: nat, vectorSize: nat, keys: set<string>) | ItemUnbound | VectorMissing

  /**
    test_data: counts the objects the iterator yields, then reads the default
    vector and the property names of the last one. With no object, `item` is
    unbound; a last object without a default vector is a KeyError.
  */
  method TestData<P, E>(items: seq<Item<P, E>>) returns (r: Test)
    ensures r == ItemUnbound <==> items == []
    ensures r == VectorMissing <==> items != [] && "default" !in items[|items| - 1].vector
    ensures r.Report? ==>
      var last := items[|items| - 1];
      r.count == |items| && r.vectorSize == |last.vector["default"]| && r.keys == last.properties.Keys
  {
    var n := 0;
    var item: Option<Item<P, E>> := None;
    for i := 0 to |items|
      invariant n == i
      invariant item == if i == 0 then None else Some(items[i - 1])
    {
      item := Some(items[i]);
      n := n + 1;
    }
    if item.None? {
      return ItemUnbound;
    }
    if "default" !in item.value.vector {
      return VectorMissing;
    }
    r := Report(n, |item.value.vector["default"]|, item.value.properties.Keys);
  }

  /**
    main: create_collection, upload_data and test_data in turn, each step
    only when the one before it returned; the client is closed in every case.
  */
  method Pipeline<V, P, E>(client: Client<V>, disk: Disk, path: string, createFault: bool, fetched: set<string>,
                           csv: Table<V>, failAt: Option<nat>, iterated: seq<Item<P, E>>)
    returns (upload: Upload, test: Option<Test>)
    requires client.open && Rectangular(csv)
    modifies client, disk
    ensures !client.open
    ensures client.collections == Registry(old(client.collections), createFault)
    ensures disk.downloads == old(disk.downloads) + (if path in old(disk.files) then [] else [path])
    ensures disk.files == AfterDownload(old(disk.files), path, fetched)
    ensures upload == CsvMissing <==> PostingsCsv !in disk.files
    ensures upload == ColumnMissing <==> PostingsCsv in disk.files && Project(csv, Fields).None?
    ensures upload.CsvMissing? || upload.ColumnMissing? ==> client.inserted == old(client.inserted)
    ensures upload.Uploaded? ==>
      && Project(csv, Fields).Some?
      && (failAt.None? || failAt.value >= |Chunks(Project(csv, Fields).value, UploadBatch)|)
      && client.inserted == old(client.inserted) + Batches(CollectionName, Chunks(Project(csv, Fields).value, UploadBatch))
    ensures upload.InsertFailed? ==>
      && Project(csv, Fields).Some?
      && var chunks := Chunks(Project(csv, Fields).value, UploadBatch);
      && failAt == Some(upload.batch) && upload.batch < |chunks|
      && client.inserted == old(client.inserted) + Batches(CollectionName, chunks[..upload.batch])
    ensures test.Some? <==> upload.Uploaded?
    ensures test.Some? ==>
      && (test.value == ItemUnbound <==> iterated == [])
      && (test.value == VectorMissing <==> iterated != [] && "default" !in iterated[|iterated| - 1].vector)
      && (test.value.Report? ==>
            var last := iterated[|iterated| - 1];
            && test.value.count == |iterated|
            && test.value.vectorSize == |last.vector["default"]|
            && test.value.keys == last.properties.Keys)
  {
    var c := CreateCollection(client, createFault);
    upload := UploadData(client, c, disk, path, fetched, csv, failAt);
    if upload.Uploaded? {
      var t := TestData(iterated);
      test := Some(t);
    } else {
      test := None;
    }
    client.Close();
  }
}
